/** Header fields, and the removal of those that concern one connection only (proxy.rs). Names are
    lower case, as the header library stores them; the order between names carries no meaning, the
    order of the values of one name does. */
module Headers {
  import opened ByteStrings

  type Fields = map<Bytes, seq<Bytes>>

  function ValuesOf(h: Fields, name: Bytes): seq<Bytes> {
    if name in h then h[name] else []
  }

  // ===== Text of a field value =====

  predicate IsBlank(b: Byte) {
    b == ' ' || b == '\t'
  }

  /** The values that convert to text. */
  predicate Visible(value: Bytes) {
    forall i :: 0 <= i < |value| ==> (' ' <= value[i] <= '~' || value[i] == '\t')
  }

  function TrimLeft(s: Bytes): Bytes {
    if s != [] && IsBlank(s[0]) then TrimLeft(s[1..]) else s
  }

  function TrimRight(s: Bytes): Bytes {
    if s != [] && IsBlank(s[|s| - 1]) then TrimRight(s[..|s| - 1]) else s
  }

  function Trim(s: Bytes): Bytes {
    TrimRight(TrimLeft(s))
  }

  function LowerByte(b: Byte): Byte {
    if 'A' <= b <= 'Z' then (b as int + 32) as char else b
  }

  function Lower(s: Bytes): (r: Bytes)
    ensures |r| == |s|
  {
    if s == [] then [] else [LowerByte(s[0])] + Lower(s[1..])
  }

  /** What is trimmed away, octet by octet. */
  predicate AllBlank(s: Bytes) {
    forall i :: 0 <= i < |s| ==> s[i] in {' ', '\t'}
  }

  /** t is s without blanks around it: all of them, and nothing else. */
  ghost predicate IsTrimmed(s: Bytes, t: Bytes) {
    && (t != [] ==> t[0] !in {' ', '\t'} && t[|t| - 1] !in {' ', '\t'})
    && exists before, after :: AllBlank(before) && AllBlank(after) && s == before + t + after
  }

  lemma {:induction false} LeftIsBlank(s: Bytes) returns (before: Bytes)
    ensures AllBlank(before) && s == before + TrimLeft(s)
    ensures TrimLeft(s) != [] ==> !IsBlank(TrimLeft(s)[0])
  {
    if s == [] || !IsBlank(s[0]) {
      before := [];
    } else {
      before := LeftIsBlank(s[1..]);
      before := [s[0]] + before;
    }
  }

  lemma {:induction false} RightIsBlank(s: Bytes) returns (after: Bytes)
    ensures AllBlank(after) && s == TrimRight(s) + after
    ensures TrimRight(s) != [] ==> !IsBlank(TrimRight(s)[|TrimRight(s)| - 1]) && TrimRight(s)[0] == s[0]
  {
    if s == [] || !IsBlank(s[|s| - 1]) {
      after := [];
    } else {
      after := RightIsBlank(s[..|s| - 1]);
      after := after + [s[|s| - 1]];
    }
  }

  lemma TrimMeans(s: Bytes)
    ensures IsTrimmed(s, Trim(s))
  {
    var before := LeftIsBlank(s);
    var after := RightIsBlank(TrimLeft(s));
    Rejoin(before, Trim(s), after);
  }

  // ===== Letter case =====

  /** The same octet, or the capital and the small letter at the same place in the alphabet. */
  predicate SameLetter(a: Byte, b: Byte) {
    || a == b
    || ('A' <= a <= 'Z' && 'a' <= b <= 'z' && a as int - 'A' as int == b as int - 'a' as int)
    || ('a' <= a <= 'z' && 'A' <= b <= 'Z' && a as int - 'a' as int == b as int - 'A' as int)
  }

  predicate SameIgnoringCase(s: Bytes, t: Bytes) {
    |s| == |t| && forall i :: 0 <= i < |s| ==> SameLetter(s[i], t[i])
  }

  predicate NoCapitals(s: Bytes) {
    forall i :: 0 <= i < |s| ==> !('A' <= s[i] <= 'Z')
  }

  lemma {:induction false} LowerAt(s: Bytes, i: nat)
    requires i < |s|
    ensures Lower(s)[i] == LowerByte(s[i])
  {
    if i == 0 {
    } else {
      LowerAt(s[1..], i - 1);
    }
  }

  /** The small form is the one text without capitals that is the same ignoring case. */
  lemma LowerMeans(s: Bytes, t: Bytes)
    ensures Lower(s) == t <==> SameIgnoringCase(s, t) && NoCapitals(t)
  {
    forall i | 0 <= i < |s| ensures Lower(s)[i] == LowerByte(s[i]) {
      LowerAt(s, i);
    }
    if SameIgnoringCase(s, t) && NoCapitals(t) {
      forall i | 0 <= i < |s| ensures Lower(s)[i] == t[i] {
        assert SameLetter(s[i], t[i]);
      }
    }
  }

  // ===== Lists =====

  function SplitOn(s: Bytes, c: Byte): (pieces: seq<Bytes>)
    ensures pieces != []
    decreases |s|
  {
    var i := IndexOf(s, c);
    if i == |s| then [s] else [s[..i]] + SplitOn(s[i + 1..], c)
  }

  predicate FreeOf(s: Bytes, c: Byte) {
    forall m :: 0 <= m < |s| ==> s[m] != c
  }

  /** s[i..j] lies between two separators, or the ends of s. */
  ghost predicate Delimited(s: Bytes, c: Byte, i: int, j: int) {
    && 0 <= i <= j <= |s|
    && FreeOf(s[i..j], c)
    && (i == 0 || s[i - 1] == c)
    && (j == |s| || s[j] == c)
  }

  lemma SliceBehind(s: Bytes, n: nat, i: int, j: int)
    requires n <= i <= j <= |s|
    ensures s[n..][i - n..j - n] == s[i..j]
  {
  }

  /** Behind a separator, the stretches of s are those of the rest. */
  lemma DelimitedBehind(s: Bytes, c: Byte, n: nat, i: int, j: int)
    requires 0 < n <= i <= j <= |s| && s[n - 1] == c
    ensures s[i..j] == s[n..][i - n..j - n]
    ensures Delimited(s, c, i, j) <==> Delimited(s[n..], c, i - n, j - n)
  {
    SliceBehind(s, n, i, j);
    assert n < i ==> s[n..][i - n - 1] == s[i - 1];
    assert j < |s| ==> s[n..][j - n] == s[j];
  }

  /** The first stretch ends at the first separator. */
  lemma DelimitedFirst(s: Bytes, c: Byte, j: int)
    requires 0 <= j <= |s|
    ensures Delimited(s, c, 0, j) <==> j == IndexOf(s, c)
  {
    var first := s[0..j];
    assert forall m :: 0 <= m < j ==> s[m] == first[m];
    if Delimited(s, c, 0, j) && j < |s| {
      IndexOfIs(s, c, j);
    }
  }

  /** A later stretch lies behind the first separator. */
  lemma DelimitedLater(s: Bytes, c: Byte, i: int, j: int) returns (n: nat, i': int, j': int)
    requires Delimited(s, c, i, j) && 0 < i
    ensures n == IndexOf(s, c) + 1 <= |s|
    ensures Delimited(s[n..], c, i', j') && s[n..][i'..j'] == s[i..j]
  {
    assert s[i - 1] == c;
    n := IndexOf(s, c) + 1;
    i', j' := i - n, j - n;
    DelimitedBehind(s, c, n, i, j);
  }

  lemma SplitOnRest(s: Bytes, c: Byte, n: nat, piece: Bytes)
    requires n == IndexOf(s, c) + 1 <= |s|
    ensures piece in SplitOn(s, c) <==> piece == s[..n - 1] || piece in SplitOn(s[n..], c)
  {
    assert SplitOn(s, c) == [s[..n - 1]] + SplitOn(s[n..], c);
  }

  lemma SplitOnFirst(s: Bytes, c: Byte, j: int)
    requires Delimited(s, c, 0, j)
    ensures s[0..j] in SplitOn(s, c)
  {
    DelimitedFirst(s, c, j);
    assert s[0..j] == s[..j];
    assert s[..|s|] == s;
    assert SplitOn(s, c)[0] == s[0..j];
  }

  lemma {:induction false} SplitOnFinds(s: Bytes, c: Byte, i: int, j: int, piece: Bytes)
    requires Delimited(s, c, i, j) && piece == s[i..j]
    ensures piece in SplitOn(s, c)
    decreases |s|
  {
    if i == 0 {
      SplitOnFirst(s, c, j);
    } else {
      var n, i', j' := DelimitedLater(s, c, i, j);
      SplitOnFinds(s[n..], c, i', j', piece);
      SplitOnRest(s, c, n, piece);
    }
  }

  lemma {:induction false} SplitOnOnly(s: Bytes, c: Byte, piece: Bytes) returns (i: int, j: int)
    requires piece in SplitOn(s, c)
    ensures Delimited(s, c, i, j) && piece == s[i..j]
    decreases |s|
  {
    var k := IndexOf(s, c);
    if piece == s[..k] {
      i, j := 0, k;
      DelimitedFirst(s, c, k);
      assert s[0..k] == s[..k];
    } else {
      assert s[..|s|] == s;
      var n := k + 1;
      SplitOnRest(s, c, n, piece);
      i, j := SplitOnOnly(s[n..], c, piece);
      i, j := i + n, j + n;
      DelimitedBehind(s, c, n, i, j);
    }
  }

  /** The pieces of a split are the maximal separator-free stretches, all of them and no others. */
  lemma SplitOnMeans(s: Bytes, c: Byte, piece: Bytes)
    ensures piece in SplitOn(s, c) <==> exists i, j :: Delimited(s, c, i, j) && piece == s[i..j]
  {
    if piece in SplitOn(s, c) {
      var i, j := SplitOnOnly(s, c, piece);
    }
    if i, j :| Delimited(s, c, i, j) && piece == s[i..j] {
      SplitOnFinds(s, c, i, j, piece);
    }
  }

  // ===== Field names =====

  const TOKEN_MARKS: Bytes := "!#$%&'*+-.^_`|~"
  const MAX_NAME := 65535

  predicate IsTokenByte(b: Byte) {
    'a' <= b <= 'z' || 'A' <= b <= 'Z' || '0' <= b <= '9' || b in TOKEN_MARKS
  }

  function ParseName(s: Bytes): Option<Bytes> {
    if 0 < |s| <= MAX_NAME && (forall i :: 0 <= i < |s| ==> IsTokenByte(s[i])) then Some(Lower(s)) else None
  }

  /** The characters that delimit tokens: section 3.2.6 of RFC 7230. */
  const DELIMITERS: Bytes := "(),/:;<=>?@[\\]{}\""

  /** A token is made of the visible characters that are no delimiters. */
  lemma TokenMeans(b: Byte)
    ensures IsTokenByte(b) <==> '!' <= b <= '~' && b !in DELIMITERS
  {
  }

  /** s is a field name, and n its small form. */
  predicate IsNameOf(s: Bytes, n: Bytes) {
    && 0 < |s| <= 65535 && (forall i :: 0 <= i < |s| ==> IsTokenByte(s[i]))
    && SameIgnoringCase(s, n) && NoCapitals(n)
  }

  lemma ParseNameMeans(s: Bytes, n: Bytes)
    ensures ParseName(s) == Some(n) <==> IsNameOf(s, n)
  {
    LowerMeans(s, n);
  }

  const CONNECTION: Bytes := "connection"
  const CONTENT_TYPE: Bytes := "content-type"
  const CONTENT_LENGTH: Bytes := "content-length"
  const CONTENT_ENCODING: Bytes := "content-encoding"
  const CACHE_CONTROL: Bytes := "cache-control"
  const ACCEL_BUFFERING: Bytes := "x-accel-buffering"

  const HOP_BY_HOP: seq<Bytes> :=
    ["keep-alive", "transfer-encoding", "te", "trailer", "upgrade", "proxy-authorization", "proxy-authenticate"]

  function NamesAmong(pieces: seq<Bytes>): seq<Bytes> {
    if pieces == [] then []
    else (match ParseName(Trim(pieces[0])) case Some(n) => [n] case None => []) + NamesAmong(pieces[1..])
  }

  function ConnectionList(values: seq<Bytes>): seq<Bytes> {
    if values == [] then []
    else (if Visible(values[0]) then NamesAmong(SplitOn(values[0], ',')) else []) + ConnectionList(values[1..])
  }

  lemma {:induction false} NamesAmongMeans(pieces: seq<Bytes>, n: Bytes)
    ensures n in NamesAmong(pieces) <==> exists p :: p in pieces && ParseName(Trim(p)) == Some(n)
  {
    if pieces == [] {
    } else {
      NamesAmongMeans(pieces[1..], n);
      assert forall p :: p in pieces <==> p == pieces[0] || p in pieces[1..];
    }
  }

  /** The value is readable and names n between commas, in whatever letter case. */
  ghost predicate Names(value: Bytes, n: Bytes) {
    Visible(value) && exists i, j :: Delimited(value, ',', i, j) && IsNameOf(Trim(value[i..j]), n)
  }

  lemma NamesOne(value: Bytes, n: Bytes)
    ensures Names(value, n) <==> Visible(value) && n in NamesAmong(SplitOn(value, ','))
  {
    var pieces := SplitOn(value, ',');
    NamesAmongMeans(pieces, n);
    if n in NamesAmong(pieces) {
      var p :| p in pieces && ParseName(Trim(p)) == Some(n);
      ParseNameMeans(Trim(p), n);
      var i, j := SplitOnOnly(value, ',', p);
    }
    if Names(value, n) {
      var i, j :| Delimited(value, ',', i, j) && IsNameOf(Trim(value[i..j]), n);
      ParseNameMeans(Trim(value[i..j]), n);
      SplitOnFinds(value, ',', i, j, value[i..j]);
    }
  }

  /** The names collected are exactly those some value lists. */
  lemma {:induction false} ConnectionListMeans(values: seq<Bytes>, n: Bytes)
    ensures n in ConnectionList(values) <==> exists v :: v in values && Names(v, n)
  {
    if values == [] {
    } else {
      ConnectionListMeans(values[1..], n);
      NamesOne(values[0], n);
      assert forall v :: v in values <==> v == values[0] || v in values[1..];
    }
  }

  // ===== strip_hop_by_hop =====

  function Listed(h: Fields): seq<Bytes> {
    ConnectionList(ValuesOf(h, CONNECTION))
  }

  predicate IsHopByHop(h: Fields, name: Bytes) {
    name == CONNECTION || name in Listed(h) || name in HOP_BY_HOP
  }

  function Stripped(h: Fields): Fields {
    map name | name in h && !IsHopByHop(h, name) :: h[name]
  }

  class HeaderMap {
    var fields: Fields

    constructor (fields: Fields)
      ensures this.fields == fields
    {
      this.fields := fields;
    }

    method Remove(name: Bytes)
      modifies this
      ensures fields == old(fields) - {name}
    {
      fields := fields - {name};
    }
  }

  method RemoveEach(headers: HeaderMap, names: seq<Bytes>)
    modifies headers
    ensures headers.fields == map n | n in old(headers.fields) && n !in names :: old(headers.fields)[n]
  {
    ghost var before := headers.fields;
    for i := 0 to |names|
      invariant headers.fields == map n | n in before && n !in names[..i] :: before[n]
    {
      headers.Remove(names[i]);
      assert names[..i + 1] == names[..i] + [names[i]];
    }
    assert names[..|names|] == names;
  }

  /** Collects what Connection lists, then removes Connection, the listed names, and the fixed ones. */
  method StripHopByHop(headers: HeaderMap)
    modifies headers
    ensures headers.fields == Stripped(old(headers.fields))
  {
    var connectionList := ConnectionList(ValuesOf(headers.fields, CONNECTION));
    headers.Remove(CONNECTION);
    RemoveEach(headers, connectionList);
    RemoveEach(headers, HOP_BY_HOP);
  }

  /** What is left: every name that is not hop-by-hop, with its values in their order, and nothing
      that Connection named between commas; stripping again changes nothing. */
  lemma StrippedMeans(h: Fields)
    ensures CONNECTION !in Stripped(h)
    ensures forall v, n :: v in ValuesOf(h, CONNECTION) && Names(v, n) ==> n !in Stripped(h)
    ensures forall n :: n in HOP_BY_HOP ==> n !in Stripped(h)
    ensures forall n ::
      n in h && n != CONNECTION && n !in HOP_BY_HOP && (forall v :: v in ValuesOf(h, CONNECTION) ==> !Names(v, n))
      ==> n in Stripped(h) && Stripped(h)[n] == h[n]
    ensures Stripped(Stripped(h)) == Stripped(h)
  {
    forall n ensures n in Listed(h) <==> exists v :: v in ValuesOf(h, CONNECTION) && Names(v, n) {
      ConnectionListMeans(ValuesOf(h, CONNECTION), n);
    }
    assert Listed(Stripped(h)) == [];
  }

  /** The fixed names, none of which is left. */
  lemma FixedNamesAreStripped(h: Fields)
    ensures "keep-alive" !in Stripped(h) && "transfer-encoding" !in Stripped(h) && "te" !in Stripped(h)
    ensures "trailer" !in Stripped(h) && "upgrade" !in Stripped(h)
    ensures "proxy-authorization" !in Stripped(h) && "proxy-authenticate" !in Stripped(h)
  {
    assert HOP_BY_HOP[0] == "keep-alive" && HOP_BY_HOP[1] == "transfer-encoding" && HOP_BY_HOP[2] == "te";
    assert HOP_BY_HOP[3] == "trailer" && HOP_BY_HOP[4] == "upgrade";
    assert HOP_BY_HOP[5] == "proxy-authorization" && HOP_BY_HOP[6] == "proxy-authenticate";
  }

  // ===== Event streams =====

  const EVENT_STREAM: Bytes := "text/event-stream"
  const JSON_TYPE: Bytes := "application/json"

  /** The media type before any parameter, ignoring case and blanks around it. */
  predicate IsEventStream(h: Fields) {
    var values := ValuesOf(h, CONTENT_TYPE);
    && values != []
    && Visible(values[0])
    && Lower(Trim(values[0][..IndexOf(values[0], ';')])) == EVENT_STREAM
  }

  lemma EventStreamHasNoCapitals()
    ensures NoCapitals(EVENT_STREAM)
  {
  }

  /** The value is readable, and its part before the first semicolon, blanks aside, is the media type
      in whatever letter case. */
  ghost predicate AnnouncesEventStream(value: Bytes) {
    Visible(value) && exists k :: Delimited(value, ';', 0, k) && SameIgnoringCase(Trim(value[0..k]), EVENT_STREAM)
  }

  lemma IsEventStreamMeans(h: Fields)
    ensures IsEventStream(h) <==> ValuesOf(h, CONTENT_TYPE) != [] && AnnouncesEventStream(ValuesOf(h, CONTENT_TYPE)[0])
  {
    var values := ValuesOf(h, CONTENT_TYPE);
    if values != [] {
      var k := IndexOf(values[0], ';');
      assert values[0][0..k] == values[0][..k];
      DelimitedFirst(values[0], ';', k);
      forall j | Delimited(values[0], ';', 0, j) ensures j == k {
        DelimitedFirst(values[0], ';', j);
      }
      EventStreamHasNoCapitals();
      LowerMeans(Trim(values[0][..k]), EVENT_STREAM);
    }
  }
}
