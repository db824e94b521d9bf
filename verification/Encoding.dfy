/** Content codings and the bounded one-shot decode (encoding.rs). */
module Encoding {
  import opened ByteStrings
  import opened Headers

  datatype Coding = Identity | Gzip | Deflate | Br | Zstd

  const IDENTITY_NAME: Bytes := "identity"
  const GZIP_NAME: Bytes := "gzip"
  const X_GZIP_NAME: Bytes := "x-gzip"
  const DEFLATE_NAME: Bytes := "deflate"
  const BR_NAME: Bytes := "br"
  const ZSTD_NAME: Bytes := "zstd"

  function ParseCoding(s: Bytes): Option<Coding> {
    var t := Lower(s);
    if t == IDENTITY_NAME then Some(Identity)
    else if t == GZIP_NAME || t == X_GZIP_NAME then Some(Gzip)
    else if t == DEFLATE_NAME then Some(Deflate)
    else if t == BR_NAME then Some(Br)
    else if t == ZSTD_NAME then Some(Zstd)
    else None
  }

  /** s is a name of the coding, in whatever letter case. */
  predicate Denotes(s: Bytes, coding: Coding) {
    match coding
    case Identity => SameIgnoringCase(s, "identity")
    case Gzip => SameIgnoringCase(s, "gzip") || SameIgnoringCase(s, "x-gzip")
    case Deflate => SameIgnoringCase(s, "deflate")
    case Br => SameIgnoringCase(s, "br")
    case Zstd => SameIgnoringCase(s, "zstd")
  }

  lemma NamesAreSmall()
    ensures NoCapitals(IDENTITY_NAME) && NoCapitals(GZIP_NAME) && NoCapitals(X_GZIP_NAME)
    ensures NoCapitals(DEFLATE_NAME) && NoCapitals(BR_NAME) && NoCapitals(ZSTD_NAME)
  {
  }

  lemma NamesDiffer()
    ensures IDENTITY_NAME[0] == 'i' && GZIP_NAME[0] == 'g' && X_GZIP_NAME[0] == 'x'
    ensures DEFLATE_NAME[0] == 'd' && BR_NAME[0] == 'b' && ZSTD_NAME[0] == 'z'
  {
  }

  /** A coding is recognised by its names, and by nothing else. */
  lemma ParseCodingMeans(s: Bytes, coding: Coding)
    ensures ParseCoding(s) == Some(coding) <==> Denotes(s, coding)
  {
    NamesAreSmall();
    NamesDiffer();
    LowerMeans(s, IDENTITY_NAME);
    LowerMeans(s, GZIP_NAME);
    LowerMeans(s, X_GZIP_NAME);
    LowerMeans(s, DEFLATE_NAME);
    LowerMeans(s, BR_NAME);
    LowerMeans(s, ZSTD_NAME);
  }

  function NonEmptyTrimmed(pieces: seq<Bytes>): seq<Bytes> {
    if pieces == [] then []
    else (if Trim(pieces[0]) == [] then [] else [Trim(pieces[0])]) + NonEmptyTrimmed(pieces[1..])
  }

  /** No field means no coding; several fields, several codings or an unknown one cannot be undone. */
  function ParseContentEncoding(h: Fields): Option<Coding> {
    var values := ValuesOf(h, CONTENT_ENCODING);
    if values == [] then Some(Identity)
    else if |values| > 1 || !Visible(values[0]) then None
    else
      var parts := NonEmptyTrimmed(SplitOn(values[0], ','));
      if |parts| != 1 then None else ParseCoding(parts[0])
  }

  /** Piece k is the only one that is not blank. */
  predicate Only(pieces: seq<Bytes>, k: int) {
    0 <= k < |pieces| && forall i :: 0 <= i < |pieces| ==> (Trim(pieces[i]) != [] <==> i == k)
  }

  lemma {:induction false} NothingLeft(pieces: seq<Bytes>)
    requires forall i :: 0 <= i < |pieces| ==> Trim(pieces[i]) == []
    ensures NonEmptyTrimmed(pieces) == []
  {
    if pieces == [] {
    } else {
      NothingLeft(pieces[1..]);
    }
  }

  lemma {:induction false} NothingWasThere(pieces: seq<Bytes>, i: nat)
    requires NonEmptyTrimmed(pieces) == [] && i < |pieces|
    ensures Trim(pieces[i]) == []
  {
    if i == 0 {
    } else {
      NothingWasThere(pieces[1..], i - 1);
    }
  }

  lemma {:induction false} OnlyIsLeft(pieces: seq<Bytes>, k: int)
    requires Only(pieces, k)
    ensures NonEmptyTrimmed(pieces) == [Trim(pieces[k])]
  {
    var rest := pieces[1..];
    assert forall i :: 0 <= i < |rest| ==> rest[i] == pieces[i + 1];
    if k == 0 {
      NothingLeft(rest);
    } else {
      OnlyIsLeft(rest, k - 1);
    }
  }

  lemma {:induction false} LeftIsOnly(pieces: seq<Bytes>) returns (k: int)
    requires |NonEmptyTrimmed(pieces)| == 1
    ensures Only(pieces, k)
  {
    var rest := pieces[1..];
    if Trim(pieces[0]) == [] {
      k := LeftIsOnly(rest);
      k := k + 1;
      assert forall i :: 0 < i < |pieces| ==> pieces[i] == rest[i - 1];
    } else {
      k := 0;
      forall i | 0 < i < |pieces| ensures Trim(pieces[i]) == [] {
        NothingWasThere(rest, i - 1);
      }
    }
  }

  /** The value has exactly one piece that is not blank, and that piece names the coding. */
  ghost predicate NamesCoding(value: Bytes, coding: Coding) {
    exists k :: Only(SplitOn(value, ','), k) && Denotes(Trim(SplitOn(value, ',')[k]), coding)
  }

  lemma OnePieceNames(value: Bytes, coding: Coding)
    ensures var parts := NonEmptyTrimmed(SplitOn(value, ','));
      NamesCoding(value, coding) <==> |parts| == 1 && ParseCoding(parts[0]) == Some(coding)
  {
    var pieces := SplitOn(value, ',');
    var parts := NonEmptyTrimmed(pieces);
    if |parts| == 1 {
      var k := LeftIsOnly(pieces);
      OnlyIsLeft(pieces, k);
      assert parts[0] == Trim(pieces[k]);
      ParseCodingMeans(parts[0], coding);
    }
    if NamesCoding(value, coding) {
      var k :| Only(pieces, k) && Denotes(Trim(pieces[k]), coding);
      OnlyIsLeft(pieces, k);
      assert parts[0] == Trim(pieces[k]);
      ParseCodingMeans(parts[0], coding);
    }
  }

  /** A response can be decoded iff it names no coding, or it has one readable Content-Encoding value
      with exactly one non-blank piece between commas, and that piece is a coding the gateway knows. */
  lemma ContentEncodingMeans(h: Fields, coding: Coding)
    ensures ParseContentEncoding(h) == Some(coding) <==>
      var values := ValuesOf(h, CONTENT_ENCODING);
      || (values == [] && coding == Identity)
      || (|values| == 1 && Visible(values[0]) && NamesCoding(values[0], coding))
  {
    var values := ValuesOf(h, CONTENT_ENCODING);
    if |values| == 1 {
      OnePieceNames(values[0], coding);
    }
  }

  /** What a decoder yields for some input: its output in the pieces it happens to deliver, and
      whether it then fails instead of ending. */
  datatype Decoding = Decoding(pieces: seq<Bytes>, fails: bool)

  datatype DecodeResult = Decoded(out: Bytes) | TooLarge | Failed

  /** The contract of a bounded decode, independent of how the output was delivered. */
  function Bounded(output: Bytes, fails: bool, maxOut: nat): DecodeResult {
    if |output| > maxOut then TooLarge
    else if fails then Failed
    else Decoded(output)
  }

  datatype ReadResult = Part(data: Bytes) | EndOfFile | ReadError

  /** Taking n octets off the first piece takes them off the whole. */
  lemma TakeFromFirst(pieces: seq<Bytes>, n: nat)
    requires pieces != [] && n <= |pieces[0]|
    ensures Concat(pieces) == pieces[0][..n] + Concat([pieces[0][n..]] + pieces[1..])
  {
    var left := [pieces[0][n..]] + pieces[1..];
    ConcatCons(pieces);
    ConcatCons(left);
    assert left[1..] == pieces[1..];
    assert pieces[0] == pieces[0][..n] + pieces[0][n..];
    Rejoin(pieces[0][..n], pieces[0][n..], Concat(pieces[1..]));
  }

  /** A decoder being read, behind an adapter that lets at most `limit` more octets through. */
  class LimitedReader {
    var pieces: seq<Bytes>
    const fails: bool
    var limit: nat

    constructor (decoding: Decoding, limit: nat)
      ensures pieces == decoding.pieces && fails == decoding.fails && this.limit == limit
    {
      pieces, fails, this.limit := decoding.pieces, decoding.fails, limit;
    }

    /** One read. Once the limit is used up the decoder is not asked any more. */
    method Read() returns (r: ReadResult)
      modifies this
      ensures r.Part? ==>
        && r.data != [] && |r.data| <= old(limit)
        && limit == old(limit) - |r.data|
        && Concat(old(pieces)) == r.data + Concat(pieces)
      ensures r.EndOfFile? ==> old(limit) == 0 || (Concat(old(pieces)) == [] && !fails)
      ensures r.ReadError? ==> old(limit) > 0 && Concat(old(pieces)) == [] && fails
      ensures !r.Part? ==> limit == old(limit)
    {
      if limit == 0 {
        return EndOfFile;
      }
      while pieces != [] && pieces[0] == []
        invariant limit == old(limit) && Concat(pieces) == Concat(old(pieces))
        decreases |pieces|
      {
        ConcatCons(pieces);
        pieces := pieces[1..];
      }
      if pieces == [] {
        return if fails then ReadError else EndOfFile;
      }
      var n := if |pieces[0]| <= limit then |pieces[0]| else limit;
      r := Part(pieces[0][..n]);
      TakeFromFirst(pieces, n);
      pieces := [pieces[0][n..]] + pieces[1..];
      limit := limit - n;
    }
  }

  /** Reads one octet past the limit to tell "exactly at the limit" from "over it". However the
      output is cut into pieces, the result is the bounded one, and no more than maxOut + 1 octets
      are ever held. */
  method DecodeAsync(decoding: Decoding, maxOut: nat) returns (result: DecodeResult, peak: nat)
    ensures result == Bounded(Concat(decoding.pieces), decoding.fails, maxOut)
    ensures result.Decoded? <==> !decoding.fails && |Concat(decoding.pieces)| <= maxOut
    ensures result.Decoded? ==> result.out == Concat(decoding.pieces)
    ensures peak <= maxOut + 1
    ensures result.Decoded? ==> peak == |result.out|
  {
    var limited := new LimitedReader(decoding, maxOut + 1);
    var out := [];
    peak := 0;
    ghost var whole := Concat(decoding.pieces);
    while true
      invariant out + Concat(limited.pieces) == whole
      invariant limited.limit + |out| == maxOut + 1
      invariant limited.fails == decoding.fails
      invariant peak == |out|
      decreases limited.limit
    {
      var r := limited.Read();
      match r {
        case ReadError =>
          assert whole == out + [];
          return Failed, peak;
        case EndOfFile =>
          assert |out| <= maxOut ==> whole == out + [];
          break;
        case Part(data) =>
          out := out + data;
          peak := |out|;
      }
    }
    if |out| > maxOut {
      return TooLarge, peak;
    }
    return Decoded(out), peak;
  }

  /** The whole-input entry point; identity input is held to the same bound. */
  method DecodeBytes(coding: Coding, input: Bytes, decoding: Decoding, maxOut: nat) returns (result: DecodeResult)
    ensures result ==
      if coding == Identity then Bounded(input, false, maxOut)
      else Bounded(Concat(decoding.pieces), decoding.fails, maxOut)
    ensures var whole := if coding == Identity then input else Concat(decoding.pieces);
      && (result.Decoded? <==> (coding == Identity || !decoding.fails) && |whole| <= maxOut)
      && (result.Decoded? ==> result.out == whole)
  {
    match coding {
      case Identity =>
        if |input| > maxOut {
          return TooLarge;
        }
        return Decoded(input);
      case _ =>
        var peak;
        result, peak := DecodeAsync(decoding, maxOut);
    }
  }
}
