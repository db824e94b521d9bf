/** EventBoundaryTracker: three flags that say where in an event stream the upstream octets stop. */
module Tracker {
  import opened ByteStrings
  import Sse

  datatype Flags = Flags(atBoundary: bool, lineEmpty: bool, prevCr: bool)

  const INITIAL := Flags(true, true, false)

  /** The octet-at-a-time machine. */
  function Step(f: Flags, b: Byte): Flags {
    if b == LF then
      if f.prevCr then f.(prevCr := false)
      else if f.lineEmpty then f.(atBoundary := true)
      else Flags(false, true, f.prevCr)
    else if b == CR then
      Flags(f.lineEmpty, true, true)
    else
      Flags(false, false, false)
  }

  function StepAll(f: Flags, s: Bytes): Flags {
    if s == [] then f else Step(StepAll(f, s[..|s| - 1]), s[|s| - 1])
  }

  lemma StepAllSnoc(f: Flags, s: Bytes, b: Byte)
    ensures StepAll(f, s + [b]) == Step(StepAll(f, s), b)
  {
    assert (s + [b])[..|s|] == s;
  }

  /** Where the stream is cut into chunks does not matter. */
  lemma {:induction false} ChunkingIndependence(f: Flags, a: Bytes, b: Bytes)
    ensures StepAll(f, a + b) == StepAll(StepAll(f, a), b)
  {
    if b == [] {
      assert a + b == a;
    } else {
      var n := |b| - 1;
      ChunkingIndependence(f, a, b[..n]);
      assert a + b == (a + b[..n]) + [b[n]];
      StepAllSnoc(f, a + b[..n], b[n]);
    }
  }

  /** A non-empty run of ordinary octets leaves one state, whatever came before. */
  lemma SkippedRun(f: Flags, s: Bytes, from: nat, to: nat)
    requires from < to <= |s| && OneLine(s[from..to])
    ensures StepAll(f, s[..to]) == Flags(false, false, false)
  {
    assert s[..to] == s[..to - 1] + [s[to - 1]];
    assert s[from..to][to - 1 - from] == s[to - 1];
    StepAllSnoc(f, s[..to - 1], s[to - 1]);
  }

  /** The flags in terms of the standard's lines, the complete ones and the unterminated rest:
      `lineEmpty` when the rest is empty, `prevCr` behind a carriage return, and `atBoundary` when
      moreover the last complete line is absent or empty. */
  ghost predicate Describes(f: Flags, t: Sse.Split, endsInCr: bool) {
    && (f.lineEmpty <==> t.rest == [])
    && (f.prevCr <==> endsInCr)
    && (f.atBoundary <==> t.rest == [] && (t.lines == [] || t.lines[|t.lines| - 1] == []))
  }

  lemma StepDescribes(f: Flags, t: Sse.Split, endsInCr: bool, b: Byte)
    requires Describes(f, t, endsInCr)
    ensures Describes(Step(f, b), Sse.Extend(t, endsInCr, b), b == CR)
  {
  }

  /** From one newline to the next: the run between them, if any, then the newline itself. */
  lemma UpToNewline(f: Flags, s: Bytes, start: nat, nl: nat)
    requires start <= nl < |s|
    requires LF !in s[start..][..nl - start] && CR !in s[start..][..nl - start]
    ensures var g := if nl > start then Flags(false, false, false) else StepAll(f, s[..start]);
      StepAll(f, s[..nl + 1]) == Step(g, s[nl])
  {
    if nl > start {
      assert s[start..nl] == s[start..][..nl - start];
      SkippedRun(f, s, start, nl);
    }
    StepAllSnoc(f, s[..nl], s[nl]);
    assert s[..nl + 1] == s[..nl] + [s[nl]];
  }

  /** What the three flags mean after any stream. */
  lemma {:induction false} FlagMeaning(s: Bytes)
    ensures Describes(StepAll(INITIAL, s), Sse.SplitLines(s), EndsInCr(s))
  {
    if s == [] {
      Sse.SplitOneLine(s);
    } else {
      var init, b := s[..|s| - 1], s[|s| - 1];
      assert s == init + [b];
      FlagMeaning(init);
      Sse.SplitLinesSnoc(init, b);
      StepDescribes(StepAll(INITIAL, init), Sse.SplitLines(init), EndsInCr(init), b);
    }
  }

  predicate Coherent(f: Flags) {
    (f.atBoundary ==> f.lineEmpty) && (f.prevCr ==> f.lineEmpty)
  }

  lemma {:induction false} StreamsAreCoherent(s: Bytes)
    ensures Coherent(StepAll(INITIAL, s))
  {
    if s == [] {
    } else {
      StreamsAreCoherent(s[..|s| - 1]);
    }
  }

  /** A stream that leaves the given flags behind. */
  function StreamFor(f: Flags): Bytes {
    if !f.lineEmpty then ['x']
    else if f.atBoundary then (if f.prevCr then [CR] else [])
    else if f.prevCr then ['x'] + [CR]
    else ['x'] + [LF]
  }

  lemma StreamLeaves(f: Flags)
    requires Coherent(f)
    ensures StepAll(INITIAL, StreamFor(f)) == f
  {
    StepAllSnoc(INITIAL, [], 'x');
    assert [] + ['x'] == ['x'] && [] + [CR] == [CR];
    StepAllSnoc(INITIAL, [], CR);
    StepAllSnoc(INITIAL, ['x'], if f.prevCr then CR else LF);
  }

  /** Of the eight combinations exactly the five coherent ones are reached by some stream. */
  lemma ReachableFlags(f: Flags)
    ensures (exists s: Bytes :: StepAll(INITIAL, s) == f) <==> Coherent(f)
  {
    if s: Bytes :| StepAll(INITIAL, s) == f {
      StreamsAreCoherent(s);
    }
    if Coherent(f) {
      StreamLeaves(f);
    }
  }

  const BLANK_LINES: Bytes := "\n\n"

  /** Two line feeds close whatever is open; one does so exactly after a line feed that already
      ended the last field line. */
  lemma ClosedByBlankLines(f: Flags)
    requires Coherent(f) && !f.atBoundary
    ensures StepAll(f, BLANK_LINES) == INITIAL
    ensures StepAll(f, [LF]).atBoundary <==> f.lineEmpty && !f.prevCr
  {
    StepAllSnoc(f, [], LF);
    StepAllSnoc(f, [LF], LF);
    assert [] + [LF] == [LF] && [LF] + [LF] == BLANK_LINES;
  }

  /** The search the skip-scan relies on: the first of two octets, if either occurs. */
  method Memchr2(n1: Byte, n2: Byte, haystack: Bytes) returns (found: Option<nat>)
    ensures found.None? ==> n1 !in haystack && n2 !in haystack
    ensures found.Some? ==>
      && found.value < |haystack|
      && haystack[found.value] in {n1, n2}
      && n1 !in haystack[..found.value] && n2 !in haystack[..found.value]
  {
    var i := 0;
    while i < |haystack|
      invariant i <= |haystack|
      invariant n1 !in haystack[..i] && n2 !in haystack[..i]
    {
      if haystack[i] == n1 || haystack[i] == n2 {
        return Some(i);
      }
      i := i + 1;
    }
    assert haystack[..i] == haystack;
    return None;
  }

  class EventBoundaryTracker {
    var atBoundary: bool
    var lineEmpty: bool
    var prevCr: bool

    function View(): Flags
      reads this
    {
      Flags(atBoundary, lineEmpty, prevCr)
    }

    constructor ()
      ensures View() == INITIAL
    {
      atBoundary, lineEmpty, prevCr := true, true, false;
    }

    /** Skips from newline to newline; the result is that of stepping through every octet. */
    method Feed(bytes: Bytes)
      modifies this
      ensures View() == StepAll(old(View()), bytes)
    {
      var pos := 0;
      ghost var before := View();
      assert bytes[..0] == [];
      while true
        invariant pos <= |bytes|
        invariant View() == StepAll(before, bytes[..pos])
        decreases |bytes| - pos
      {
        var found := Memchr2(LF, CR, bytes[pos..]);
        match found {
          case None =>
            if pos < |bytes| {
              SkippedRun(before, bytes, pos, |bytes|);
              prevCr := false;
              atBoundary := false;
              lineEmpty := false;
            }
            assert bytes[..|bytes|] == bytes;
            return;
          case Some(i) =>
            var start := pos;
            var nl := pos + i;
            UpToNewline(before, bytes, start, nl);
            if nl > start {
              prevCr := false;
              atBoundary := false;
              lineEmpty := false;
            }
            if bytes[nl] == LF {
              if prevCr {
                prevCr := false;
              } else if lineEmpty {
                atBoundary := true;
              } else {
                atBoundary := false;
                lineEmpty := true;
              }
            } else if bytes[nl] == CR {
              if lineEmpty {
                atBoundary := true;
              } else {
                atBoundary := false;
                lineEmpty := true;
              }
              prevCr := true;
            } else {
              assert false;
            }
            pos := nl + 1;
        }
      }
    }
  }
}
