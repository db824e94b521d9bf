/** JSON values and the compact form in which error events carry them: a model of the serialiser,
    with the string escaping of section 7 of RFC 8259. Strings are UTF-8 octets. */
module Json {
  import opened ByteStrings

  const NUMBER_BYTES: Bytes := "0123456789+-.eE"

  /** The text of a number; how it is chosen for a given number is the serialiser's business. */
  type NumberText = s: Bytes | s != [] && forall i :: 0 <= i < |s| ==> s[i] in NUMBER_BYTES
    witness "0"

  datatype Value =
    | Null
    | Bool(flag: bool)
    | Number(text: NumberText)
    | Text(chars: Bytes)
    | Array(items: seq<Value>)
    | Object(members: seq<Member>)

  datatype Member = Member(key: Bytes, value: Value)

  // ===== Objects: members in the order of their keys, one per key =====

  predicate Less(a: Bytes, b: Bytes) {
    if b == [] then false
    else if a == [] then true
    else a[0] < b[0] || (a[0] == b[0] && Less(a[1..], b[1..]))
  }

  function Insert(members: seq<Member>, key: Bytes, value: Value): seq<Member> {
    if members == [] then [Member(key, value)]
    else if members[0].key == key then [Member(key, value)] + members[1..]
    else if Less(key, members[0].key) then [Member(key, value)] + members
    else [members[0]] + Insert(members[1..], key, value)
  }

  function Find(members: seq<Member>, key: Bytes): Option<Value> {
    if members == [] then None
    else if members[0].key == key then Some(members[0].value)
    else Find(members[1..], key)
  }

  /** The member of that name; what is not an object has none. */
  function Get(v: Value, key: Bytes): Option<Value> {
    if v.Object? then Find(v.members, key) else None
  }

  function AsText(v: Option<Value>): Option<Bytes> {
    if v.Some? && v.value.Text? then Some(v.value.chars) else None
  }

  lemma {:induction false} FindInserted(members: seq<Member>, key: Bytes, value: Value, other: Bytes)
    ensures Find(Insert(members, key, value), other) == if other == key then Some(value) else Find(members, other)
  {
    if members == [] {
    } else {
      FindInserted(members[1..], key, value, other);
    }
  }

  /** Keys in strictly increasing order, octet by octet. */
  predicate InOrder(members: seq<Member>) {
    forall i :: 0 < i < |members| ==> Less(members[i - 1].key, members[i].key)
  }

  lemma {:induction false} LessOrGreater(a: Bytes, b: Bytes)
    ensures a == b || Less(a, b) || Less(b, a)
  {
    if a == [] || b == [] {
    } else {
      LessOrGreater(a[1..], b[1..]);
      assert a == [a[0]] + a[1..] && b == [b[0]] + b[1..];
    }
  }

  /** a and b first differ at i, where a has the smaller octet. */
  predicate DiffersAt(a: Bytes, b: Bytes, i: nat) {
    i < |a| && i < |b| && a[..i] == b[..i] && a[i] < b[i]
  }

  lemma DiffersBehind(a: Bytes, b: Bytes, i: nat)
    requires a != [] && b != [] && a[0] == b[0]
    ensures DiffersAt(a, b, i + 1) <==> DiffersAt(a[1..], b[1..], i)
  {
    if i < |a[1..]| && i < |b[1..]| {
      assert a[..i + 1] == [a[0]] + a[1..][..i] && b[..i + 1] == [b[0]] + b[1..][..i];
      assert a[1..][..i] == a[..i + 1][1..] && b[1..][..i] == b[..i + 1][1..];
    }
  }

  lemma {:induction false} LessFinds(a: Bytes, b: Bytes) returns (i: nat)
    requires Less(a, b)
    ensures a < b || DiffersAt(a, b, i)
  {
    if a == [] || a[0] != b[0] {
      i := 0;
    } else {
      i := LessFinds(a[1..], b[1..]);
      assert a == [a[0]] + a[1..] && b == [b[0]] + b[1..];
      DiffersBehind(a, b, i);
      i := i + 1;
    }
  }

  lemma {:induction false} SmallerIsLess(a: Bytes, b: Bytes, i: nat)
    requires DiffersAt(a, b, i)
    ensures Less(a, b)
  {
    if i == 0 {
    } else {
      assert a[..i][0] == b[..i][0];
      DiffersBehind(a, b, i - 1);
      SmallerIsLess(a[1..], b[1..], i - 1);
    }
  }

  lemma {:induction false} PrefixIsLess(a: Bytes, b: Bytes)
    requires a < b
    ensures Less(a, b)
  {
    if a == [] {
    } else {
      PrefixIsLess(a[1..], b[1..]);
    }
  }

  /** Less means: a proper prefix, or smaller at the first difference. */
  lemma LessMeans(a: Bytes, b: Bytes)
    ensures Less(a, b) <==> a < b || exists i: nat :: DiffersAt(a, b, i)
  {
    if Less(a, b) {
      var i := LessFinds(a, b);
    }
    if a < b {
      PrefixIsLess(a, b);
    }
    if i: nat :| DiffersAt(a, b, i) {
      SmallerIsLess(a, b, i);
    }
  }

  lemma InOrderRest(members: seq<Member>)
    requires InOrder(members) && members != []
    ensures InOrder(members[1..])
  {
    var rest := members[1..];
    forall i | 0 < i < |rest| ensures Less(rest[i - 1].key, rest[i].key) {
      assert rest[i - 1] == members[i] && rest[i] == members[i + 1];
    }
  }

  /** However an object is built, its members come out in the order of their keys. */
  lemma {:induction false} InsertKeepsOrder(members: seq<Member>, key: Bytes, value: Value)
    requires InOrder(members)
    ensures InOrder(Insert(members, key, value))
    ensures Insert(members, key, value)[0].key == key
         || (members != [] && Insert(members, key, value)[0].key == members[0].key)
  {
    if members == [] {
    } else {
      var first, rest := members[0], members[1..];
      InOrderRest(members);
      LessOrGreater(key, first.key);
      InsertKeepsOrder(rest, key, value);
      if first.key != key && !Less(key, first.key) {
        var inserted := Insert(rest, key, value);
        assert rest != [] ==> rest[0] == members[1];
        assert InOrder([first] + inserted) by {
          forall i | 0 < i < |inserted| + 1 ensures Less(([first] + inserted)[i - 1].key, ([first] + inserted)[i].key) {
            assert i > 1 ==> ([first] + inserted)[i - 1] == inserted[i - 2];
            assert ([first] + inserted)[i] == inserted[i - 1];
          }
        }
      }
    }
  }

  // ===== The compact form =====

  const HEX: Bytes := "0123456789abcdef"

  function EscapeByte(b: Byte): Bytes {
    if b == '"' then ['\\', '"']
    else if b == '\\' then ['\\', '\\']
    else if b as int >= 0x20 then [b]
    else if b as int == 8 then ['\\', 'b']
    else if b as int == 9 then ['\\', 't']
    else if b as int == 10 then ['\\', 'n']
    else if b as int == 12 then ['\\', 'f']
    else if b as int == 13 then ['\\', 'r']
    else ['\\', 'u', '0', '0', HEX[b as int / 16], HEX[b as int % 16]]
  }

  function Escape(s: Bytes): Bytes {
    if s == [] then [] else EscapeByte(s[0]) + Escape(s[1..])
  }

  function Quote(s: Bytes): Bytes {
    ['"'] + Escape(s) + ['"']
  }

  const NULL_TEXT: Bytes := "null"
  const TRUE_TEXT: Bytes := "true"
  const FALSE_TEXT: Bytes := "false"

  function Print(v: Value): Bytes
    decreases v
  {
    match v
    case Null => NULL_TEXT
    case Bool(flag) => if flag then TRUE_TEXT else FALSE_TEXT
    case Number(text) => text
    case Text(chars) => Quote(chars)
    case Array(items) => ['['] + PrintItems(items) + [']']
    case Object(members) => ['{'] + PrintMembers(members) + ['}']
  }

  function PrintItems(items: seq<Value>): Bytes
    decreases items
  {
    if items == [] then []
    else if |items| == 1 then Print(items[0])
    else Print(items[0]) + [','] + PrintItems(items[1..])
  }

  function PrintMember(m: Member): Bytes
    decreases m
  {
    Quote(m.key) + [':'] + Print(m.value)
  }

  function PrintMembers(members: seq<Member>): Bytes
    decreases members
  {
    if members == [] then []
    else if |members| == 1 then PrintMember(members[0])
    else PrintMember(members[0]) + [','] + PrintMembers(members[1..])
  }

  // ===== It fits on one line =====

  function HexValue(b: Byte): int {
    if '0' <= b <= '9' then b as int - '0' as int
    else if 'a' <= b <= 'f' then b as int - 'a' as int + 10
    else -1
  }

  lemma HexDigit(n: nat)
    requires n < 16
    ensures HexValue(HEX[n]) == n && !IsNewline(HEX[n])
  {
  }

  lemma EscapeByteIsOneLine(b: Byte)
    ensures OneLine(EscapeByte(b))
  {
    if b as int < 0x20 {
      HexDigit(b as int / 16);
      HexDigit(b as int % 16);
    }
  }

  lemma {:induction false} EscapeIsOneLine(s: Bytes)
    ensures OneLine(Escape(s))
  {
    if s == [] {
    } else {
      EscapeByteIsOneLine(s[0]);
      EscapeIsOneLine(s[1..]);
    }
  }

  lemma QuoteIsOneLine(s: Bytes)
    ensures OneLine(Quote(s))
  {
    EscapeIsOneLine(s);
  }

  /** No value, however nested and whatever its strings hold, prints a carriage return or a line feed. */
  lemma {:induction false} PrintIsOneLine(v: Value)
    ensures OneLine(Print(v)) && Print(v) != []
    decreases v
  {
    match v
    case Null =>
    case Bool(_) =>
    case Number(text) => assert CR !in NUMBER_BYTES && LF !in NUMBER_BYTES;
    case Text(chars) => QuoteIsOneLine(chars);
    case Array(items) => ItemsAreOneLine(items);
    case Object(members) => MembersAreOneLine(members);
  }

  lemma {:induction false} ItemsAreOneLine(items: seq<Value>)
    ensures OneLine(PrintItems(items))
    decreases items
  {
    if items == [] {
    } else {
      PrintIsOneLine(items[0]);
      ItemsAreOneLine(items[1..]);
    }
  }

  lemma {:induction false} MembersAreOneLine(members: seq<Member>)
    ensures OneLine(PrintMembers(members))
    decreases members
  {
    if members == [] {
    } else {
      var m := members[0];
      QuoteIsOneLine(m.key);
      PrintIsOneLine(m.value);
      assert OneLine(PrintMember(m));
      MembersAreOneLine(members[1..]);
    }
  }

  // ===== It can be read back =====

  datatype Reading<+T> = Found(value: T, rest: Bytes) | Malformed

  /** The octet an escape stands for, and what follows it; s begins behind the backslash. Only the
      escapes of the compact form are read. */
  function ReadEscape(s: Bytes): (r: Reading<Byte>)
    ensures r.Found? ==> |r.rest| < |s|
  {
    if s == [] then Malformed
    else if s[0] == '"' || s[0] == '\\' then Found(s[0], s[1..])
    else if s[0] == 'b' then Found(8 as char, s[1..])
    else if s[0] == 't' then Found(9 as char, s[1..])
    else if s[0] == 'n' then Found(10 as char, s[1..])
    else if s[0] == 'f' then Found(12 as char, s[1..])
    else if s[0] == 'r' then Found(13 as char, s[1..])
    else if s[0] == 'u' && |s| >= 5 && s[1] == '0' && s[2] == '0' && 0 <= HexValue(s[3]) < 8 && HexValue(s[4]) >= 0 then
      Found((HexValue(s[3]) * 16 + HexValue(s[4])) as char, s[5..])
    else Malformed
  }

  /** A string behind its opening quote. */
  function ReadText(s: Bytes): (r: Reading<Bytes>)
    ensures r.Found? ==> |r.rest| < |s|
    decreases |s|
  {
    if s == [] then Malformed
    else if s[0] == '"' then Found([], s[1..])
    else if s[0] == '\\' then
      var e := ReadEscape(s[1..]);
      if e.Malformed? then Malformed
      else
        var t := ReadText(e.rest);
        if t.Malformed? then Malformed else Found([e.value] + t.value, t.rest)
    else
      var t := ReadText(s[1..]);
      if t.Malformed? then Malformed else Found([s[0]] + t.value, t.rest)
  }

  function NumberEnd(s: Bytes): (n: nat)
    ensures n <= |s|
    ensures forall i :: 0 <= i < n ==> s[i] in NUMBER_BYTES
  {
    if s != [] && s[0] in NUMBER_BYTES then 1 + NumberEnd(s[1..]) else 0
  }

  function ReadValue(s: Bytes): (r: Reading<Value>)
    ensures r.Found? ==> |r.rest| < |s|
    decreases |s|, 0
  {
    if s == [] then Malformed
    else if NULL_TEXT <= s then Found(Null, s[4..])
    else if TRUE_TEXT <= s then Found(Bool(true), s[4..])
    else if FALSE_TEXT <= s then Found(Bool(false), s[5..])
    else if s[0] == '"' then
      var t := ReadText(s[1..]);
      if t.Malformed? then Malformed else Found(Text(t.value), t.rest)
    else if s[0] == '[' then
      if |s| > 1 && s[1] == ']' then Found(Array([]), s[2..])
      else
        var t := ReadItems(s[1..]);
        if t.Malformed? then Malformed else Found(Array(t.value), t.rest)
    else if s[0] == '{' then
      if |s| > 1 && s[1] == '}' then Found(Object([]), s[2..])
      else
        var t := ReadMembers(s[1..]);
        if t.Malformed? then Malformed else Found(Object(t.value), t.rest)
    else
      var n := NumberEnd(s);
      if n == 0 then Malformed else Found(Number(s[..n]), s[n..])
  }

  function ReadItems(s: Bytes): (r: Reading<seq<Value>>)
    ensures r.Found? ==> |r.rest| < |s|
    decreases |s|, 2
  {
    var v := ReadValue(s);
    if v.Malformed? || v.rest == [] then Malformed
    else if v.rest[0] == ']' then Found([v.value], v.rest[1..])
    else if v.rest[0] == ',' then
      var t := ReadItems(v.rest[1..]);
      if t.Malformed? then Malformed else Found([v.value] + t.value, t.rest)
    else Malformed
  }

  function ReadMember(s: Bytes): (r: Reading<Member>)
    ensures r.Found? ==> |r.rest| < |s|
    decreases |s|, 1
  {
    if s == [] || s[0] != '"' then Malformed
    else
      var k := ReadText(s[1..]);
      if k.Malformed? || k.rest == [] || k.rest[0] != ':' then Malformed
      else
        var v := ReadValue(k.rest[1..]);
        if v.Malformed? then Malformed else Found(Member(k.value, v.value), v.rest)
  }

  function ReadMembers(s: Bytes): (r: Reading<seq<Member>>)
    ensures r.Found? ==> |r.rest| < |s|
    decreases |s|, 2
  {
    var m := ReadMember(s);
    if m.Malformed? || m.rest == [] then Malformed
    else if m.rest[0] == '}' then Found([m.value], m.rest[1..])
    else if m.rest[0] == ',' then
      var t := ReadMembers(m.rest[1..]);
      if t.Malformed? then Malformed else Found([m.value] + t.value, t.rest)
    else Malformed
  }

  lemma EscapeReadsBack(b: Byte, rest: Bytes)
    ensures var s := EscapeByte(b) + rest;
      if s[0] == '\\' then ReadEscape(s[1..]) == Found(b, rest)
      else s == [b] + rest && b != '"'
  {
    var s := EscapeByte(b) + rest;
    if s[0] == '\\' {
      if s[1] == 'u' {
        HexDigit(b as int / 16);
        HexDigit(b as int % 16);
        assert s[1..][5..] == rest;
      } else {
        assert s[1..][1..] == rest;
      }
    }
  }

  /** One octet, escaped or not, in front of a string that reads. */
  lemma ReadsOneByte(b: Byte, tail: Bytes, t: Bytes, rest: Bytes)
    requires ReadText(tail) == Found(t, rest)
    ensures ReadText(EscapeByte(b) + tail) == Found([b] + t, rest)
  {
    EscapeReadsBack(b, tail);
    assert ([b] + tail)[1..] == tail;
  }

  lemma EscapedText(b: Byte, t: Bytes, rest: Bytes)
    ensures Escape([b] + t) + ['"'] + rest == EscapeByte(b) + (Escape(t) + ['"'] + rest)
  {
    assert ([b] + t)[1..] == t;
    Regroup(Escape([b] + t) + ['"'], EscapeByte(b), Escape(t), ['"'], rest);
    Rejoin(Escape(t), ['"'], rest);
  }

  lemma {:induction false} TextReadsBack(t: Bytes, rest: Bytes)
    ensures ReadText(Escape(t) + ['"'] + rest) == Found(t, rest)
  {
    if t == [] {
      assert [] + ['"'] + rest == ['"'] + rest;
      assert (['"'] + rest)[1..] == rest;
    } else {
      assert t == [t[0]] + t[1..];
      TextReadsBack(t[1..], rest);
      EscapedText(t[0], t[1..], rest);
      ReadsOneByte(t[0], Escape(t[1..]) + ['"'] + rest, t[1..], rest);
    }
  }

  lemma {:induction false} NumberReadsBack(text: Bytes, rest: Bytes)
    requires forall i :: 0 <= i < |text| ==> text[i] in NUMBER_BYTES
    requires rest == [] || rest[0] !in NUMBER_BYTES
    ensures NumberEnd(text + rest) == |text|
  {
    if text == [] {
      assert [] + rest == rest;
    } else {
      NumberReadsBack(text[1..], rest);
      assert (text + rest)[1..] == text[1..] + rest;
    }
  }

  /** What can follow a value: nothing, or something no number goes on with. */
  predicate Follows(rest: Bytes) {
    rest == [] || rest[0] !in NUMBER_BYTES
  }

  lemma QuotedText(chars: Bytes, rest: Bytes)
    ensures (Quote(chars) + rest)[0] == '"'
    ensures (Quote(chars) + rest)[1..] == Escape(chars) + ['"'] + rest
  {
  }

  lemma ReadsText(chars: Bytes, rest: Bytes)
    ensures ReadValue(Quote(chars) + rest) == Found(Text(chars), rest)
  {
    var s := Quote(chars) + rest;
    TextReadsBack(chars, rest);
    QuotedText(chars, rest);
    assert s[0] == '"' && NULL_TEXT[0] == 'n' && TRUE_TEXT[0] == 't' && FALSE_TEXT[0] == 'f';
  }

  lemma ReadsNumber(text: NumberText, rest: Bytes)
    requires Follows(rest)
    ensures ReadValue(text + rest) == Found(Number(text), rest)
  {
    var s := text + rest;
    NumberReadsBack(text, rest);
    assert s[0] in NUMBER_BYTES;
    assert s[0] != 'n' && s[0] != 't' && s[0] != 'f' && s[0] != '"' && s[0] != '[' && s[0] != '{';
    assert s[..|text|] == text && s[|text|..] == rest;
  }

  lemma ReadsLiteral(rest: Bytes)
    ensures ReadValue(NULL_TEXT + rest) == Found(Null, rest)
    ensures ReadValue(TRUE_TEXT + rest) == Found(Bool(true), rest)
    ensures ReadValue(FALSE_TEXT + rest) == Found(Bool(false), rest)
  {
    assert (NULL_TEXT + rest)[4..] == rest && (NULL_TEXT + rest)[0] == 'n';
    assert (TRUE_TEXT + rest)[4..] == rest && (TRUE_TEXT + rest)[0] == 't';
    assert (FALSE_TEXT + rest)[5..] == rest && (FALSE_TEXT + rest)[0] == 'f';
  }

  /** What opens a value. */
  lemma FirstByte(v: Value, rest: Bytes)
    ensures Print(v) != []
    ensures (Print(v) + rest)[0] != ']' && (Print(v) + rest)[0] != '}'
  {
    match v
    case Number(text) =>
      assert text[0] in NUMBER_BYTES;
    case _ =>
  }

  /** Reading the compact form of a value gives the value back: embedding an upstream error rewrites
      none of its fields, and different payloads never look the same. */
  lemma {:induction false} ReadsBack(v: Value, rest: Bytes)
    requires Follows(rest)
    ensures ReadValue(Print(v) + rest) == Found(v, rest)
    decreases v
  {
    match v
    case Null => ReadsLiteral(rest);
    case Bool(_) => ReadsLiteral(rest);
    case Number(text) => ReadsNumber(text, rest);
    case Text(chars) => ReadsText(chars, rest);
    case Array(items) => ArrayReadsBack(items, rest);
    case Object(members) => ObjectReadsBack(members, rest);
  }

  lemma ItemsBegin(items: seq<Value>)
    requires items != []
    ensures PrintItems(items) != [] && PrintItems(items)[0] != ']'
  {
    FirstByte(items[0], []);
    assert Print(items[0]) + [] == Print(items[0]);
  }

  lemma ReadsArray(inner: Bytes, items: seq<Value>, rest: Bytes)
    requires inner != [] && inner[0] != ']' && ReadItems(inner) == Found(items, rest)
    ensures ReadValue(['['] + inner) == Found(Array(items), rest)
  {
    var s := ['['] + inner;
    assert s[0] == '[' && NULL_TEXT[0] == 'n' && TRUE_TEXT[0] == 't' && FALSE_TEXT[0] == 'f';
    assert s[1..] == inner;
  }

  lemma {:induction false} ArrayReadsBack(items: seq<Value>, rest: Bytes)
    ensures ReadValue(['['] + PrintItems(items) + [']'] + rest) == Found(Array(items), rest)
    decreases items, 2
  {
    Regroup(['['] + PrintItems(items) + [']'], ['['], PrintItems(items), [']'], rest);
    if items == [] {
      var s := ['['] + PrintItems(items) + [']'] + rest;
      assert s[1] == ']' && s[2..] == rest;
    } else {
      ItemsReadBack(items, rest);
      ItemsBegin(items);
      ReadsArray(PrintItems(items) + ([']'] + rest), items, rest);
    }
  }

  lemma ReadsLastItem(s: Bytes, v: Value, rest: Bytes)
    requires ReadValue(s) == Found(v, [']'] + rest)
    ensures ReadItems(s) == Found([v], rest)
  {
    assert ([']'] + rest)[1..] == rest;
  }

  lemma ReadsOneItem(s: Bytes, v: Value, tail: Bytes, items: seq<Value>, rest: Bytes)
    requires ReadValue(s) == Found(v, [','] + tail) && ReadItems(tail) == Found(items, rest)
    ensures ReadItems(s) == Found([v] + items, rest)
  {
    assert ([','] + tail)[1..] == tail;
  }

  lemma ItemsText(items: seq<Value>, first: Bytes, others: Bytes, end: Bytes)
    requires |items| > 1 && first == Print(items[0]) && others == PrintItems(items[1..])
    ensures PrintItems(items) + end == first + ([','] + (others + end))
  {
    assert PrintItems(items) == first + [','] + others;
    Regroup(PrintItems(items), first, [','], others, end);
  }

  lemma {:induction false} ItemsReadBack(items: seq<Value>, rest: Bytes)
    requires items != []
    ensures ReadItems(PrintItems(items) + ([']'] + rest)) == Found(items, rest)
    decreases items, 1
  {
    var end := [']'] + rest;
    if |items| == 1 {
      ReadsBack(items[0], end);
      ReadsLastItem(Print(items[0]) + end, items[0], rest);
      assert items == [items[0]];
    } else {
      var first, others := items[0], items[1..];
      assert items == [first] + others;
      var tail := PrintItems(others) + end;
      ItemsText(items, Print(first), PrintItems(others), end);
      ReadsBack(first, [','] + tail);
      ItemsReadBack(others, rest);
      ReadsOneItem(Print(first) + ([','] + tail), first, tail, others, rest);
    }
  }

  lemma MembersBegin(members: seq<Member>)
    requires members != []
    ensures PrintMembers(members) != [] && PrintMembers(members)[0] == '"'
  {
    var m := PrintMember(members[0]);
    assert m[0] == '"';
  }

  lemma ReadsObject(inner: Bytes, members: seq<Member>, rest: Bytes)
    requires inner != [] && inner[0] == '"' && ReadMembers(inner) == Found(members, rest)
    ensures ReadValue(['{'] + inner) == Found(Object(members), rest)
  {
    var s := ['{'] + inner;
    assert s[0] == '{' && NULL_TEXT[0] == 'n' && TRUE_TEXT[0] == 't' && FALSE_TEXT[0] == 'f';
    assert s[1..] == inner;
  }

  lemma {:induction false} ObjectReadsBack(members: seq<Member>, rest: Bytes)
    ensures ReadValue(['{'] + PrintMembers(members) + ['}'] + rest) == Found(Object(members), rest)
    decreases members, 2
  {
    Regroup(['{'] + PrintMembers(members) + ['}'], ['{'], PrintMembers(members), ['}'], rest);
    if members == [] {
      var s := ['{'] + PrintMembers(members) + ['}'] + rest;
      assert s[1] == '}' && s[2..] == rest;
    } else {
      MembersReadBack(members, rest);
      MembersBegin(members);
      ReadsObject(PrintMembers(members) + (['}'] + rest), members, rest);
    }
  }

  lemma ReadsKeyAndValue(s: Bytes, m: Member, tail: Bytes, rest: Bytes)
    requires s != [] && s[0] == '"' && ReadText(s[1..]) == Found(m.key, [':'] + tail)
    requires ReadValue(tail) == Found(m.value, rest)
    ensures ReadMember(s) == Found(m, rest)
  {
    assert ([':'] + tail)[1..] == tail;
  }

  lemma {:induction false} MemberReadsBack(m: Member, rest: Bytes)
    requires Follows(rest)
    ensures ReadMember(PrintMember(m) + rest) == Found(m, rest)
    decreases m, 1
  {
    var tail := Print(m.value) + rest;
    TextReadsBack(m.key, [':'] + tail);
    QuotedText(m.key, [':'] + tail);
    ReadsBack(m.value, rest);
    Regroup(PrintMember(m), Quote(m.key), [':'], Print(m.value), rest);
    ReadsKeyAndValue(Quote(m.key) + ([':'] + tail), m, tail, rest);
  }

  lemma ReadsLastMember(s: Bytes, m: Member, rest: Bytes)
    requires ReadMember(s) == Found(m, ['}'] + rest)
    ensures ReadMembers(s) == Found([m], rest)
  {
    assert (['}'] + rest)[1..] == rest;
  }

  lemma ReadsOneMember(s: Bytes, m: Member, tail: Bytes, members: seq<Member>, rest: Bytes)
    requires ReadMember(s) == Found(m, [','] + tail) && ReadMembers(tail) == Found(members, rest)
    ensures ReadMembers(s) == Found([m] + members, rest)
  {
    assert ([','] + tail)[1..] == tail;
  }

  lemma MembersText(members: seq<Member>, first: Bytes, others: Bytes, end: Bytes)
    requires |members| > 1 && first == PrintMember(members[0]) && others == PrintMembers(members[1..])
    ensures PrintMembers(members) + end == first + ([','] + (others + end))
  {
    assert PrintMembers(members) == first + [','] + others;
    Regroup(PrintMembers(members), first, [','], others, end);
  }

  lemma {:induction false} MembersReadBack(members: seq<Member>, rest: Bytes)
    requires members != []
    ensures ReadMembers(PrintMembers(members) + (['}'] + rest)) == Found(members, rest)
    decreases members, 1
  {
    var end := ['}'] + rest;
    if |members| == 1 {
      MemberReadsBack(members[0], end);
      ReadsLastMember(PrintMember(members[0]) + end, members[0], rest);
      assert members == [members[0]];
    } else {
      var first, others := members[0], members[1..];
      assert members == [first] + others;
      var tail := PrintMembers(others) + end;
      MembersText(members, PrintMember(first), PrintMembers(others), end);
      MemberReadsBack(first, [','] + tail);
      MembersReadBack(others, rest);
      ReadsOneMember(PrintMember(first) + ([','] + tail), first, tail, others, rest);
    }
  }

  lemma PrintIsInjective(v: Value, w: Value)
    requires Print(v) == Print(w)
    ensures v == w
  {
    ReadsBack(v, []);
    ReadsBack(w, []);
  }
}
