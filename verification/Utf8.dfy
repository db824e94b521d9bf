/** UTF-8 as defined in section 4 of RFC 3629, and cutting such text short (error_event.rs). */
module Utf8 {
  import opened ByteStrings

  predicate InRange(b: Byte, low: int, high: int) {
    low <= b as int <= high
  }

  /** A continuation octet. */
  predicate IsTail(b: Byte) {
    InRange(b, 0x80, 0xBF)
  }

  /** The range of the second octet, which rules out overlong forms, surrogates and what lies above U+10FFFF. */
  predicate SecondFits(first: Byte, second: Byte) {
    if first as int == 0xE0 then InRange(second, 0xA0, 0xBF)
    else if first as int == 0xED then InRange(second, 0x80, 0x9F)
    else if first as int == 0xF0 then InRange(second, 0x90, 0xBF)
    else if first as int == 0xF4 then InRange(second, 0x80, 0x8F)
    else IsTail(second)
  }

  /** The length of the character s begins with, 0 if it begins with none. */
  function CharLength(s: Bytes): (n: nat)
    ensures n <= |s| && n <= 4
    ensures n > 0 ==> !IsTail(s[0]) && forall i :: 1 <= i < n ==> IsTail(s[i])
  {
    if s == [] then 0
    else if InRange(s[0], 0x00, 0x7F) then 1
    else if InRange(s[0], 0xC2, 0xDF) && |s| >= 2 && IsTail(s[1]) then 2
    else if InRange(s[0], 0xE0, 0xEF) && |s| >= 3 && SecondFits(s[0], s[1]) && IsTail(s[2]) then 3
    else if InRange(s[0], 0xF0, 0xF4) && |s| >= 4 && SecondFits(s[0], s[1]) && IsTail(s[2]) && IsTail(s[3]) then 4
    else 0
  }

  function FirstChar(s: Bytes): Bytes {
    s[..CharLength(s)]
  }

  predicate Valid(s: Bytes)
    decreases |s|
  {
    s == [] || (CharLength(s) > 0 && Valid(s[CharLength(s)..]))
  }

  /** A position between two characters, as far as one octet can tell. */
  predicate IsCharBoundary(s: Bytes, i: nat) {
    i == 0 || i == |s| || (i < |s| && !IsTail(s[i]))
  }

  lemma CharLengthOfPrefix(s: Bytes, n: nat)
    requires 0 < CharLength(s) <= n <= |s|
    ensures CharLength(s[..n]) == CharLength(s)
  {
  }

  lemma CharLengthConcat(s: Bytes, t: Bytes)
    requires CharLength(s) > 0
    ensures CharLength(s + t) == CharLength(s)
  {
  }

  lemma CutBehind(s: Bytes, n: nat, i: nat)
    requires n <= i <= |s|
    ensures s[..i][n..] == s[n..][..i - n]
    ensures s[n..][i - n..] == s[i..]
  {
  }

  /** In valid text, cutting where one octet says "boundary" leaves valid text on both sides. */
  lemma {:induction false} CutIsValid(s: Bytes, i: nat)
    requires Valid(s) && i <= |s| && IsCharBoundary(s, i)
    ensures Valid(s[..i]) && Valid(s[i..])
    decreases |s|
  {
    if i == 0 {
      assert s[..0] == [] && s[0..] == s;
    } else {
      var n := CharLength(s);
      assert n <= i;
      CutBehind(s, n, i);
      CutIsValid(s[n..], i - n);
      CharLengthOfPrefix(s, i);
    }
  }

  /** Valid text never has four continuation octets in a row. */
  lemma {:induction false} BoundaryNearby(s: Bytes, i: nat)
    requires Valid(s) && 3 <= i < |s|
    ensures !IsTail(s[i]) || !IsTail(s[i - 1]) || !IsTail(s[i - 2]) || !IsTail(s[i - 3])
    decreases |s|
  {
    var n := CharLength(s);
    if i >= n {
      if i - 3 >= n {
        BoundaryNearby(s[n..], i - n);
      } else {
        assert s[n..][0] == s[n];
        assert CharLength(s[n..]) > 0;
      }
    }
  }

  // ===== White space =====

  /** The characters trimmed from both ends of a text: Unicode's White_Space property. */
  predicate IsWhiteSpace(c: Bytes) {
    if |c| == 1 then InRange(c[0], 0x09, 0x0D) || c[0] == ' '
    else if |c| == 2 then c[0] as int == 0xC2 && (c[1] as int == 0x85 || c[1] as int == 0xA0)
    else if |c| == 3 then
      || (c[0] as int == 0xE1 && c[1] as int == 0x9A && c[2] as int == 0x80)
      || (c[0] as int == 0xE2 && c[1] as int == 0x80
          && (InRange(c[2], 0x80, 0x8A) || c[2] as int in {0xA8, 0xA9, 0xAF}))
      || (c[0] as int == 0xE2 && c[1] as int == 0x81 && c[2] as int == 0x9F)
      || (c[0] as int == 0xE3 && c[1] as int == 0x80 && c[2] as int == 0x80)
    else false
  }

  // ===== Text as a list of characters =====

  predicate IsChar(c: Bytes) {
    c != [] && CharLength(c) == |c|
  }

  predicate AllChars(cs: seq<Bytes>) {
    forall i :: 0 <= i < |cs| ==> IsChar(cs[i])
  }

  function Chars(s: Bytes): seq<Bytes>
    requires Valid(s)
    decreases |s|
  {
    if s == [] then [] else [FirstChar(s)] + Chars(s[CharLength(s)..])
  }

  lemma FirstCharIsChar(s: Bytes)
    requires CharLength(s) > 0
    ensures IsChar(FirstChar(s)) && s == FirstChar(s) + s[CharLength(s)..]
  {
    CharLengthOfPrefix(s, CharLength(s));
  }

  lemma {:induction false} CharsJoin(s: Bytes)
    requires Valid(s)
    ensures Concat(Chars(s)) == s && AllChars(Chars(s))
    decreases |s|
  {
    if s == [] {
    } else {
      var rest := s[CharLength(s)..];
      CharsJoin(rest);
      FirstCharIsChar(s);
      assert Chars(s)[1..] == Chars(rest);
      ConcatCons(Chars(s));
    }
  }

  lemma {:induction false} JoinChars(cs: seq<Bytes>)
    requires AllChars(cs)
    ensures Valid(Concat(cs)) && Chars(Concat(cs)) == cs
  {
    if cs == [] {
    } else {
      var c, rest := cs[0], Concat(cs[1..]);
      JoinChars(cs[1..]);
      ConcatCons(cs);
      CharLengthConcat(c, rest);
      assert (c + rest)[..|c|] == c && (c + rest)[|c|..] == rest;
      assert [cs[0]] + cs[1..] == cs;
    }
  }

  function DropLeading(cs: seq<Bytes>): seq<Bytes> {
    if cs != [] && IsWhiteSpace(cs[0]) then DropLeading(cs[1..]) else cs
  }

  function DropTrailing(cs: seq<Bytes>): seq<Bytes> {
    if cs != [] && IsWhiteSpace(cs[|cs| - 1]) then DropTrailing(cs[..|cs| - 1]) else cs
  }

  function TrimmedChars(cs: seq<Bytes>): seq<Bytes> {
    DropTrailing(DropLeading(cs))
  }

  function Trim(s: Bytes): Bytes
    requires Valid(s)
  {
    Concat(TrimmedChars(Chars(s)))
  }

  predicate AllSpace(cs: seq<Bytes>) {
    forall i :: 0 <= i < |cs| ==> IsWhiteSpace(cs[i])
  }

  lemma {:induction false} LeadingIsSpace(cs: seq<Bytes>) returns (before: seq<Bytes>)
    ensures cs == before + DropLeading(cs) && AllSpace(before)
    ensures DropLeading(cs) != [] ==> !IsWhiteSpace(DropLeading(cs)[0])
  {
    if cs != [] && IsWhiteSpace(cs[0]) {
      before := LeadingIsSpace(cs[1..]);
      before := [cs[0]] + before;
    } else {
      before := [];
    }
  }

  lemma {:induction false} TrailingIsSpace(cs: seq<Bytes>) returns (after: seq<Bytes>)
    ensures cs == DropTrailing(cs) + after && AllSpace(after)
    ensures DropTrailing(cs) != [] ==> !IsWhiteSpace(DropTrailing(cs)[|DropTrailing(cs)| - 1])
    ensures DropTrailing(cs) != [] ==> DropTrailing(cs)[0] == cs[0]
  {
    if cs != [] && IsWhiteSpace(cs[|cs| - 1]) {
      after := TrailingIsSpace(cs[..|cs| - 1]);
      after := after + [cs[|cs| - 1]];
    } else {
      after := [];
    }
  }

  /** cs is the middle part between two stretches of white space, and does not border on more of it. */
  ghost predicate IsTrimmed(cs: seq<Bytes>, before: seq<Bytes>, middle: seq<Bytes>, after: seq<Bytes>) {
    && cs == before + middle + after
    && AllSpace(before) && AllSpace(after)
    && (middle != [] ==> !IsWhiteSpace(middle[0]) && !IsWhiteSpace(middle[|middle| - 1]))
  }

  lemma TrimmedCharsMean(cs: seq<Bytes>) returns (before: seq<Bytes>, after: seq<Bytes>)
    ensures IsTrimmed(cs, before, TrimmedChars(cs), after)
  {
    before := LeadingIsSpace(cs);
    after := TrailingIsSpace(DropLeading(cs));
    assert before + (TrimmedChars(cs) + after) == before + TrimmedChars(cs) + after;
  }

  lemma MiddleChars(before: seq<Bytes>, middle: seq<Bytes>, after: seq<Bytes>)
    requires AllChars(before + middle + after)
    ensures AllChars(middle)
  {
    forall i | 0 <= i < |middle| ensures IsChar(middle[i]) {
      assert middle[i] == (before + middle + after)[|before| + i];
    }
  }

  /** Trimming removes white space characters from both ends, all of them, and nothing else. */
  lemma TrimMeans(s: Bytes)
    requires Valid(s)
    ensures Valid(Trim(s))
    ensures exists before, after :: IsTrimmed(Chars(s), before, Chars(Trim(s)), after)
  {
    CharsJoin(s);
    var before, after := TrimmedCharsMean(Chars(s));
    MiddleChars(before, TrimmedChars(Chars(s)), after);
    JoinChars(TrimmedChars(Chars(s)));
  }

  // ===== Truncation =====

  /** The longest prefix of at most `limit` octets that ends between two characters. */
  function CutAt(s: Bytes, limit: nat): (end: nat)
    requires limit <= |s|
    ensures end <= limit
  {
    if limit == 0 || IsCharBoundary(s, limit) then limit else CutAt(s, limit - 1)
  }

  lemma {:induction false} CutAtIsLongest(s: Bytes, limit: nat)
    requires limit <= |s|
    ensures IsCharBoundary(s, CutAt(s, limit))
    ensures forall i :: CutAt(s, limit) < i <= limit ==> !IsCharBoundary(s, i)
  {
    if limit == 0 || IsCharBoundary(s, limit) {
    } else {
      CutAtIsLongest(s, limit - 1);
    }
  }

  /** A boundary behind the first character is one of the whole text. */
  lemma BoundaryBehind(s: Bytes, i: nat)
    requires Valid(s) && s != [] && i <= |s| - CharLength(s) && IsCharBoundary(s[CharLength(s)..], i)
    ensures IsCharBoundary(s, CharLength(s) + i)
  {
    var rest := s[CharLength(s)..];
    if rest != [] {
      assert CharLength(rest) > 0;
      assert i < |rest| ==> rest[i] == s[CharLength(s) + i];
    }
  }

  lemma CharLengthOfValidPrefix(s: Bytes, j: nat)
    requires 0 < j <= |s| && CharLength(s[..j]) > 0
    ensures CharLength(s[..j]) == CharLength(s)
  {
    CharLengthConcat(s[..j], s[j..]);
    assert s[..j] + s[j..] == s;
  }

  lemma {:induction false} PrefixEndsAtBoundary(s: Bytes, i: nat)
    requires Valid(s) && i <= |s| && Valid(s[..i])
    ensures IsCharBoundary(s, i)
    decreases |s|
  {
    if i == 0 {
    } else {
      var n := CharLength(s);
      CharLengthOfValidPrefix(s, i);
      assert s[..i][n..] == s[n..][..i - n];
      PrefixEndsAtBoundary(s[n..], i - n);
      BoundaryBehind(s, i - n);
    }
  }

  /** Cutting valid text gives valid text, gives up at most three octets, and no longer prefix within
      the limit is valid. */
  lemma CutIsTight(s: Bytes, limit: nat)
    requires Valid(s) && 3 <= limit <= |s|
    ensures var end := CutAt(s, limit);
      && Valid(s[..end])
      && limit - 3 <= end <= limit
      && forall i :: end < i <= limit ==> !Valid(s[..i])
  {
    var end := CutAt(s, limit);
    CutAtIsLongest(s, limit);
    CutIsValid(s, end);
    if limit < |s| {
      BoundaryNearby(s, limit);
      assert IsCharBoundary(s, limit) || IsCharBoundary(s, limit - 1)
        || IsCharBoundary(s, limit - 2) || IsCharBoundary(s, limit - 3);
    }
    forall i | end < i <= limit ensures !Valid(s[..i]) {
      if Valid(s[..i]) {
        PrefixEndsAtBoundary(s, i);
      }
    }
  }

  // ===== Code points =====

  /** The code points that have an encoding: all but the surrogates. */
  predicate IsScalar(c: int) {
    0 <= c < 0xD800 || 0xE000 <= c < 0x110000
  }

  function Tail(n: int): Byte
    requires 0 <= n < 64
  {
    (0x80 + n) as char
  }

  /** The octets of one code point: the table in section 3 of RFC 3629. */
  function Encode(c: int): Bytes
    requires IsScalar(c)
  {
    if c < 0x80 then [c as char]
    else if c < 0x800 then [(0xC0 + c / 64) as char, Tail(c % 64)]
    else if c < 0x10000 then [(0xE0 + c / 64 / 64) as char, Tail(c / 64 % 64), Tail(c % 64)]
    else [(0xF0 + c / 64 / 64 / 64) as char, Tail(c / 64 / 64 % 64), Tail(c / 64 % 64), Tail(c % 64)]
  }

  /** Six more bits. */
  function With(n: int, tail: Byte): int {
    n * 64 + (tail as int - 0x80)
  }

  lemma WithTail(n: nat, tail: Byte)
    requires IsTail(tail)
    ensures With(n, tail) / 64 == n && With(n, tail) >= 0 && Tail(With(n, tail) % 64) == tail
  {
  }

  /** The code point of a character. */
  function CodePoint(s: Bytes): int
    requires IsChar(s)
  {
    if |s| == 1 then s[0] as int
    else if |s| == 2 then With(s[0] as int - 0xC0, s[1])
    else if |s| == 3 then With(With(s[0] as int - 0xE0, s[1]), s[2])
    else With(With(With(s[0] as int - 0xF0, s[1]), s[2]), s[3])
  }

  lemma EncodeIsChar(c: int)
    requires IsScalar(c)
    ensures IsChar(Encode(c))
  {
  }

  lemma ThreeOctets(s: Bytes)
    requires IsChar(s) && |s| == 3
    ensures IsScalar(CodePoint(s)) && Encode(CodePoint(s)) == s
  {
    var a := s[0] as int - 0xE0;
    WithTail(a, s[1]);
    WithTail(With(a, s[1]), s[2]);
  }

  lemma FourOctets(s: Bytes)
    requires IsChar(s) && |s| == 4
    ensures IsScalar(CodePoint(s)) && Encode(CodePoint(s)) == s
  {
    var a := s[0] as int - 0xF0;
    WithTail(a, s[1]);
    WithTail(With(a, s[1]), s[2]);
    WithTail(With(With(a, s[1]), s[2]), s[3]);
  }

  lemma CodePointEncodes(s: Bytes)
    requires IsChar(s)
    ensures IsScalar(CodePoint(s)) && Encode(CodePoint(s)) == s
  {
    match |s|
    case 1 =>
    case 2 => WithTail(s[0] as int - 0xC0, s[1]);
    case 3 => ThreeOctets(s);
    case _ => FourOctets(s);
  }

  /** The characters are the encodings of the code points, all of them and nothing else. */
  lemma IsCharMeans(s: Bytes)
    ensures IsChar(s) <==> exists c :: IsScalar(c) && Encode(c) == s
  {
    if IsChar(s) {
      CodePointEncodes(s);
    }
    if c :| IsScalar(c) && Encode(c) == s {
      EncodeIsChar(c);
    }
  }

  /** The white space characters by code point. */
  lemma WhiteSpaceMeans(c: int)
    requires IsScalar(c)
    ensures IsWhiteSpace(Encode(c)) <==>
      || 0x09 <= c <= 0x0D || c == 0x20 || c == 0x85 || c == 0xA0 || c == 0x1680 || 0x2000 <= c <= 0x200A
      || c == 0x2028 || c == 0x2029 || c == 0x202F || c == 0x205F || c == 0x3000
  {
  }

  function EncodeAll(cs: seq<int>): Bytes
    requires forall i :: 0 <= i < |cs| ==> IsScalar(cs[i])
  {
    if cs == [] then [] else Encode(cs[0]) + EncodeAll(cs[1..])
  }

  lemma {:induction false} EncodeAllIsValid(cs: seq<int>)
    requires forall i :: 0 <= i < |cs| ==> IsScalar(cs[i])
    ensures Valid(EncodeAll(cs))
  {
    if cs == [] {
    } else {
      var first, rest := Encode(cs[0]), EncodeAll(cs[1..]);
      EncodeAllIsValid(cs[1..]);
      EncodeIsChar(cs[0]);
      CharLengthConcat(first, rest);
      assert (first + rest)[|first|..] == rest;
    }
  }

  lemma {:induction false} CodePointsOf(s: Bytes) returns (cs: seq<int>)
    requires Valid(s)
    ensures forall i :: 0 <= i < |cs| ==> IsScalar(cs[i])
    ensures EncodeAll(cs) == s
    decreases |s|
  {
    if s == [] {
      cs := [];
    } else {
      var rest := CodePointsOf(s[CharLength(s)..]);
      FirstCharIsChar(s);
      CodePointEncodes(FirstChar(s));
      cs := [CodePoint(FirstChar(s))] + rest;
      assert cs[1..] == rest;
    }
  }

  ghost predicate IsText(s: Bytes, cs: seq<int>) {
    (forall i :: 0 <= i < |cs| ==> IsScalar(cs[i])) && EncodeAll(cs) == s
  }

  /** Valid is what encodes some text. */
  lemma ValidMeans(s: Bytes)
    ensures Valid(s) <==> exists cs :: IsText(s, cs)
  {
    if Valid(s) {
      var cs := CodePointsOf(s);
      assert IsText(s, cs);
    }
    if cs :| IsText(s, cs) {
      EncodeAllIsValid(cs);
    }
  }
}
