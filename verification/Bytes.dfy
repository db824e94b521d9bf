/** Octets, written as the characters U+0000 to U+00FF so that ASCII literals can be used
    directly, and the few searches over them that the gateway and its readers need. */
module ByteStrings {

  type Byte = c: char | c as int < 256
  type Bytes = seq<Byte>

  datatype Option<+T> = None | Some(value: T)

  const CR: Byte := '\r'
  const LF: Byte := '\n'

  predicate IsNewline(b: Byte) {
    b == CR || b == LF
  }

  /** No carriage return and no line feed anywhere: the text fits on one line. */
  predicate OneLine(s: Bytes) {
    forall i :: 0 <= i < |s| ==> !IsNewline(s[i])
  }

  predicate EndsInCr(s: Bytes) {
    s != [] && s[|s| - 1] == CR
  }

  predicate StartsWith(s: Bytes, prefix: Bytes) {
    prefix <= s
  }

  /** The first position holding c, or |s|. */
  function IndexOf(s: Bytes, c: Byte): (i: nat)
    ensures i <= |s|
    ensures i < |s| ==> s[i] == c
    ensures forall j :: 0 <= j < i ==> s[j] != c
  {
    if s == [] || s[0] == c then 0 else 1 + IndexOf(s[1..], c)
  }

  lemma {:induction false} IndexOfIs(s: Bytes, c: Byte, i: nat)
    requires i < |s| && s[i] == c
    requires forall j :: 0 <= j < i ==> s[j] != c
    ensures IndexOf(s, c) == i
  {
    if i == 0 {
    } else {
      IndexOfIs(s[1..], c, i - 1);
    }
  }

  lemma Rejoin(a: Bytes, b: Bytes, c: Bytes)
    ensures a + b + c == a + (b + c)
  {
  }

  lemma Regroup(whole: Bytes, a: Bytes, b: Bytes, c: Bytes, d: Bytes)
    requires whole == a + b + c
    ensures whole + d == a + (b + (c + d))
  {
    Rejoin(a + b, c, d);
    Rejoin(a, b, c + d);
  }

  /** Concatenation of a list of pieces, the last one added last. */
  function Concat(pieces: seq<Bytes>): Bytes {
    if pieces == [] then [] else Concat(pieces[..|pieces| - 1]) + pieces[|pieces| - 1]
  }

  lemma {:induction false} ConcatPrefix(pieces: seq<Bytes>, n: nat)
    requires n <= |pieces|
    ensures Concat(pieces[..n]) <= Concat(pieces)
  {
    if n == |pieces| {
      assert pieces[..n] == pieces;
    } else {
      ConcatPrefix(pieces[..|pieces| - 1], n);
      assert pieces[..|pieces| - 1][..n] == pieces[..n];
    }
  }

  lemma ConcatSnoc(pieces: seq<Bytes>, n: nat)
    requires n < |pieces|
    ensures Concat(pieces[..n + 1]) == Concat(pieces[..n]) + pieces[n]
  {
    assert pieces[..n + 1][..n] == pieces[..n];
  }

  /** The same list, taken apart from the front. */
  lemma {:induction false} ConcatCons(pieces: seq<Bytes>)
    requires pieces != []
    ensures Concat(pieces) == pieces[0] + Concat(pieces[1..])
  {
    var n := |pieces| - 1;
    if n == 0 {
      assert pieces[..0] == [] && pieces[1..] == [];
      assert [] + pieces[0] == pieces[0] == pieces[0] + [];
    } else {
      ConcatCons(pieces[..n]);
      assert pieces[..n][1..] == pieces[1..][..n - 1];
      Rejoin(pieces[0], Concat(pieces[1..][..n - 1]), pieces[n]);
    }
  }
}
