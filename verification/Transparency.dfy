/** Why comments written at event boundaries are invisible: the tracker sees the upstream octets
    only, the client reads them with heartbeats in between, and the two stay related. */
module Transparency {
  import opened ByteStrings
  import opened Sse
  import opened Tracker

  const HEARTBEAT: Bytes := ":\n\n"

  datatype Tag = Heartbeat | Data | Terminator | Error

  /** One frame accepted by the downstream channel, when it was accepted, and for how long the
      writer had to wait for room. */
  datatype Entry = Entry(tag: Tag, bytes: Bytes, at: nat, waited: nat)

  /** Everything written. */
  function Wire(log: seq<Entry>): Bytes {
    if log == [] then [] else Wire(log[..|log| - 1]) + log[|log| - 1].bytes
  }

  /** The upstream part of it. */
  function Payload(log: seq<Entry>): Bytes {
    if log == [] then []
    else if log[|log| - 1].tag == Data then Payload(log[..|log| - 1]) + log[|log| - 1].bytes
    else Payload(log[..|log| - 1])
  }

  /** The flags of a tracker that was fed the payload alone. */
  function Flagged(log: seq<Entry>): Flags {
    StepAll(INITIAL, Payload(log))
  }

  /** Heartbeats and upstream data only, every heartbeat written when the tracker allowed it. */
  predicate Paced(log: seq<Entry>) {
    log == [] ||
    var init, e := log[..|log| - 1], log[|log| - 1];
    && Paced(init)
    && (e.tag == Data || (e.tag == Heartbeat && e.bytes == HEARTBEAT && Flagged(init).atBoundary))
  }

  lemma LogSnoc(log: seq<Entry>, e: Entry)
    ensures Wire(log + [e]) == Wire(log) + e.bytes
    ensures Payload(log + [e]) == if e.tag == Data then Payload(log) + e.bytes else Payload(log)
    ensures Paced(log + [e]) <==>
      Paced(log) && (e.tag == Data || (e.tag == Heartbeat && e.bytes == HEARTBEAT && Flagged(log).atBoundary))
  {
    assert (log + [e])[..|log|] == log;
  }

  lemma {:induction false} PacedPrefix(log: seq<Entry>, n: nat)
    requires Paced(log) && n <= |log|
    ensures Paced(log[..n])
  {
    if n == |log| {
      assert log[..n] == log;
    } else {
      PacedPrefix(log[..|log| - 1], n);
      assert log[..|log| - 1][..n] == log[..n];
    }
  }

  // ===== The tracker against the parser of the upstream octets =====

  predicate AtRest(p: Parser) {
    p.line == [] && Idle(p.client)
  }

  predicate InSync(f: Flags, p: Parser) {
    && f.lineEmpty == (p.line == [])
    && f.prevCr == p.afterCr
    && (f.atBoundary ==> AtRest(p))
  }

  lemma InSyncStep(f: Flags, p: Parser, b: Byte)
    requires InSync(f, p) && Coherent(f)
    ensures InSync(Step(f, b), Push(p, b)) && Coherent(Step(f, b))
  {
  }

  lemma {:induction false} TrackerInSync(s: Bytes)
    ensures InSync(StepAll(INITIAL, s), PushAll(START, s))
  {
    if s == [] {
    } else {
      TrackerInSync(s[..|s| - 1]);
      StreamsAreCoherent(s[..|s| - 1]);
      InSyncStep(StepAll(INITIAL, s[..|s| - 1]), PushAll(START, s[..|s| - 1]), s[|s| - 1]);
    }
  }

  /** The tracker takes a byte order mark for text, so it can only lag behind. */
  predicate Lags(behind: Flags, ahead: Flags) {
    && behind.prevCr == ahead.prevCr
    && (behind.atBoundary ==> ahead.atBoundary)
    && (behind.lineEmpty ==> ahead.lineEmpty)
  }

  lemma LagsStep(behind: Flags, ahead: Flags, b: Byte)
    requires Lags(behind, ahead) && Coherent(behind) && Coherent(ahead)
    ensures Lags(Step(behind, b), Step(ahead, b))
  {
  }

  lemma {:induction false} BomLags(s: Bytes)
    ensures Lags(StepAll(INITIAL, BOM + s), StepAll(INITIAL, s))
  {
    if s == [] {
      SkippedRun(INITIAL, BOM, 0, 3);
      assert BOM + s == BOM && BOM[..3] == BOM && BOM[0..3] == BOM;
    } else {
      var n := |s| - 1;
      BomLags(s[..n]);
      assert BOM + s == (BOM + s[..n]) + [s[n]] && s == s[..n] + [s[n]];
      StepAllSnoc(INITIAL, BOM + s[..n], s[n]);
      StepAllSnoc(INITIAL, s[..n], s[n]);
      StreamsAreCoherent(s[..n]);
      StreamsAreCoherent(BOM + s[..n]);
      LagsStep(StepAll(INITIAL, BOM + s[..n]), StepAll(INITIAL, s[..n]), s[n]);
    }
  }

  /** At a tracker boundary the client holds no partial line and no partial event. */
  lemma BoundaryIsRest(s: Bytes)
    requires StepAll(INITIAL, s).atBoundary
    ensures AtRest(PushAll(START, s)) && AtRest(Decode(s))
  {
    TrackerInSync(s);
    if StartsWith(s, BOM) {
      assert s == BOM + s[3..];
      BomLags(s[3..]);
      TrackerInSync(s[3..]);
    }
  }

  // ===== Upstream parser against downstream parser =====

  /** Equal, except that a heartbeat at rest makes the downstream parser forget a carriage return. */
  predicate Related(up: Parser, down: Parser) {
    && up.client == down.client
    && up.line == down.line
    && (up.afterCr == down.afterCr || (up.afterCr && AtRest(up)))
  }

  lemma RelatedPush(up: Parser, down: Parser, b: Byte)
    requires Related(up, down)
    ensures Related(Push(up, b), Push(down, b))
  {
  }

  lemma {:induction false} RelatedPushAll(up: Parser, down: Parser, s: Bytes)
    requires Related(up, down)
    ensures Related(PushAll(up, s), PushAll(down, s))
  {
    if s == [] {
    } else {
      RelatedPushAll(up, down, s[..|s| - 1]);
      RelatedPush(PushAll(up, s[..|s| - 1]), PushAll(down, s[..|s| - 1]), s[|s| - 1]);
    }
  }

  /** A heartbeat at rest leaves a parser as it was, but for the carriage-return flag; a line feed
      that belonged to that carriage return is then read as one more blank line, to no effect. */
  lemma HeartbeatAtRest(up: Parser, down: Parser)
    requires Related(up, down) && AtRest(up)
    ensures PushAll(down, HEARTBEAT) == down.(afterCr := false)
    ensures Related(up, PushAll(down, HEARTBEAT))
  {
    PushLine(down, ":");
    PushAllSnoc(down, ":\n", LF);
    assert ":\n" + [LF] == HEARTBEAT && ":" + [LF] == ":\n";
  }

  /** One more paced entry keeps the relation, wherever the two readings started. */
  lemma RelatedEntry(up: Parser, down: Parser, e: Entry)
    requires Related(up, down)
    requires e.tag == Data || (e.tag == Heartbeat && e.bytes == HEARTBEAT && AtRest(up))
    ensures Related(if e.tag == Data then PushAll(up, e.bytes) else up, PushAll(down, e.bytes))
  {
    if e.tag == Data {
      RelatedPushAll(up, down, e.bytes);
    } else {
      HeartbeatAtRest(up, down);
    }
  }

  lemma {:induction false} RawTransparency(log: seq<Entry>)
    requires Paced(log)
    ensures Related(PushAll(START, Payload(log)), PushAll(START, Wire(log)))
  {
    if log == [] {
    } else {
      var init, e := log[..|log| - 1], log[|log| - 1];
      RawTransparency(init);
      PushAllConcat(START, Wire(init), e.bytes);
      PushAllConcat(START, Payload(init), e.bytes);
      if e.tag == Heartbeat {
        BoundaryIsRest(Payload(init));
      }
      RelatedEntry(PushAll(START, Payload(init)), PushAll(START, Wire(init)), e);
    }
  }

  // ===== Streams that begin with a byte order mark =====

  /** Some heartbeat was written before the first upstream octet. */
  predicate HeartbeatFirst(log: seq<Entry>) {
    log != [] &&
    var init := log[..|log| - 1];
    HeartbeatFirst(init) || (log[|log| - 1].tag == Heartbeat && Payload(init) == [])
  }

  lemma {:induction false} ShortWire(log: seq<Entry>)
    requires Paced(log) && |Wire(log)| < 3
    ensures Wire(log) == Payload(log)
  {
    if log == [] {
    } else {
      ShortWire(log[..|log| - 1]);
    }
  }

  lemma InsideBom(s: Bytes)
    requires s <= BOM && s != []
    ensures !StepAll(INITIAL, s).atBoundary
  {
    assert s[..|s|] == s && s[0..|s|] == s;
    SkippedRun(INITIAL, s, 0, |s|);
  }

  lemma {:induction false} NotLed(log: seq<Entry>)
    requires Paced(log) && !HeartbeatFirst(log)
    requires |Payload(log)| < 3 && Payload(log) <= BOM
    ensures Wire(log) == Payload(log)
  {
    if log == [] {
    } else {
      var init, e := log[..|log| - 1], log[|log| - 1];
      if e.tag == Heartbeat {
        InsideBom(Payload(init));
      } else {
        NotLed(init);
      }
    }
  }

  lemma {:induction false} Led(log: seq<Entry>)
    requires Paced(log) && HeartbeatFirst(log)
    ensures Wire(log) != [] && Wire(log)[0] == ':'
  {
    var init := log[..|log| - 1];
    if HeartbeatFirst(init) {
      Led(init);
    } else {
      NotLed(init);
    }
  }

  /** A byte order mark cannot be completed by an octet that does not occur in it. */
  lemma NoBom(s: Bytes, more: Bytes)
    requires !StartsWith(s, BOM) && more != [] && more[0] !in BOM
    ensures !StartsWith(s + more, BOM)
  {
    if |s| < 3 {
      assert (s + more)[|s|] != BOM[|s|];
    } else {
      assert (s + more)[..3] == s[..3];
    }
  }

  lemma {:induction false} BomTransparency(log: seq<Entry>)
    requires Paced(log) && StartsWith(Wire(log), BOM)
    ensures StartsWith(Payload(log), BOM)
    ensures Related(PushAll(START, Payload(log)[3..]), PushAll(START, Wire(log)[3..]))
  {
    var init, e := log[..|log| - 1], log[|log| - 1];
    var w, p := Wire(init), Payload(init);
    if |w| < 3 {
      ShortWire(init);
      if e.tag == Heartbeat {
        NoBom(w, HEARTBEAT);
      }
    } else {
      assert w == Wire(log)[..|w|];
      BomTransparency(init);
      assert (w + e.bytes)[3..] == w[3..] + e.bytes;
      assert (p + e.bytes)[3..] == p[3..] + e.bytes;
      PushAllConcat(START, w[3..], e.bytes);
      PushAllConcat(START, p[3..], e.bytes);
      if e.tag == Heartbeat {
        BoundaryIsRest(p);
      }
      RelatedEntry(PushAll(START, p[3..]), PushAll(START, w[3..]), e);
    }
  }

  /** A byte order mark stays in front exactly when no heartbeat displaced it. */
  lemma {:induction false} BomStaysFirst(log: seq<Entry>)
    requires Paced(log) && StartsWith(Payload(log), BOM)
    ensures StartsWith(Wire(log), BOM) <==> !HeartbeatFirst(log)
  {
    if HeartbeatFirst(log) {
      Led(log);
    } else {
      var init, e := log[..|log| - 1], log[|log| - 1];
      if |Payload(init)| < 3 {
        NotLed(init);
      } else {
        assert StartsWith(Payload(init), BOM);
        BomStaysFirst(init);
      }
    }
  }

  /** No byte order mark, or nothing in front of it. */
  predicate BomSafe(log: seq<Entry>) {
    StartsWith(Payload(log), BOM) ==> !HeartbeatFirst(log)
  }

  /** Heartbeat transparency: whatever the chunks and whenever the heartbeats, the client is in the
      state it would have reached on the upstream octets alone. */
  lemma HeartbeatTransparency(log: seq<Entry>)
    requires Paced(log) && BomSafe(log)
    ensures Related(Decode(Payload(log)), Decode(Wire(log)))
    ensures Decode(Payload(log)).client == Decode(Wire(log)).client
  {
    if StartsWith(Wire(log), BOM) {
      BomTransparency(log);
    } else {
      if StartsWith(Payload(log), BOM) {
        BomStaysFirst(log);
      }
      RawTransparency(log);
    }
  }

  /** The upstream octets as this client reads them: with a displaced mark, as text throughout. */
  function AsRead(log: seq<Entry>): Parser {
    if BomSafe(log) then Decode(Payload(log)) else PushAll(START, Payload(log))
  }

  /** Unconditionally: heartbeats are invisible apart from what they do to a byte order mark. */
  lemma HeartbeatsAreInvisible(log: seq<Entry>)
    requires Paced(log)
    ensures Related(AsRead(log), Decode(Wire(log)))
    ensures AsRead(log).client == Decode(Wire(log)).client
  {
    if BomSafe(log) {
      HeartbeatTransparency(log);
    } else {
      Led(log);
      RawTransparency(log);
    }
  }

  // ===== A tracker that is shown the heartbeats too =====

  predicate Shadows(own: Flags, shadow: Flags) {
    && Coherent(own)
    && own.atBoundary == shadow.atBoundary
    && own.lineEmpty == shadow.lineEmpty
    && (own.prevCr == shadow.prevCr || (own.prevCr && own.atBoundary))
  }

  lemma {:induction false} ShadowsAll(own: Flags, shadow: Flags, s: Bytes)
    requires Shadows(own, shadow)
    ensures Shadows(StepAll(own, s), StepAll(shadow, s))
  {
    if s == [] {
    } else {
      ShadowsAll(own, shadow, s[..|s| - 1]);
    }
  }

  /** The gateway's tracker never sees its heartbeats, yet agrees with one that sees every octet of
      the wire; they can differ only on the carriage-return flag, and only at a boundary. */
  lemma {:induction false} ShadowTracker(log: seq<Entry>)
    requires Paced(log)
    ensures Shadows(Flagged(log), StepAll(INITIAL, Wire(log)))
  {
    if log == [] {
    } else {
      var init, e := log[..|log| - 1], log[|log| - 1];
      var shadow := StepAll(INITIAL, Wire(init));
      ShadowTracker(init);
      ChunkingIndependence(INITIAL, Wire(init), e.bytes);
      if e.tag == Data {
        ChunkingIndependence(INITIAL, Payload(init), e.bytes);
        ShadowsAll(Flagged(init), shadow, e.bytes);
      } else {
        SkippedRun(shadow, HEARTBEAT, 0, 1);
        StepAllSnoc(shadow, HEARTBEAT[..1], LF);
        StepAllSnoc(shadow, HEARTBEAT[..2], LF);
        assert HEARTBEAT[..1] + [LF] == HEARTBEAT[..2] && HEARTBEAT[..2] + [LF] == HEARTBEAT;
      }
    }
  }

  // ===== Cutting a stream off =====

  /** What is written before an error event to end the event that was cut off, if there is one. */
  function Closing(f: Flags): Bytes {
    if f.atBoundary then [] else BLANK_LINES
  }

  lemma {:induction false} NoLineAfterCr(s: Bytes)
    ensures PushAll(START, s).afterCr ==> PushAll(START, s).line == []
  {
    if s == [] {
    } else {
      NoLineAfterCr(s[..|s| - 1]);
    }
  }

  /** A line feed ends the line of any parser, unless the line already ended in a carriage return. */
  lemma LineFeed(p: Parser)
    requires p.afterCr ==> p.line == []
    ensures var q := Push(p, LF);
      && q.line == [] && !q.afterCr
      && p.client.events <= q.client.events
      && (p.line != [] || p.afterCr ==> q.client.events == p.client.events)
      && (p.line == [] && !p.afterCr ==> Idle(q.client) && |q.client.events| <= |p.client.events| + 1)
      && (Idle(p.client) && p.line == [] ==> Idle(q.client) && q.client.events == p.client.events)
  {
  }

  /** Two line feeds bring any parser to rest, and let out at most the one pending event. */
  lemma ClosedParser(p: Parser)
    requires p.afterCr ==> p.line == []
    ensures var q := PushAll(p, BLANK_LINES);
      && AtRest(q)
      && p.client.events <= q.client.events
      && |q.client.events| <= |p.client.events| + 1
  {
    LineFeed(p);
    LineFeed(Push(p, LF));
    PushAllSnoc(p, [], LF);
    PushAllSnoc(p, [LF], LF);
    assert [] + [LF] == [LF] && [LF] + [LF] == BLANK_LINES;
  }

  /** Octets that cannot belong to a byte order mark extend whatever was decoded before. */
  lemma DecodeExtends(s: Bytes, more: Bytes)
    requires more == [] || more[0] !in BOM
    ensures Decode(s + more) == PushAll(Decode(s), more)
  {
    if more == [] {
      assert s + more == s;
    } else if StartsWith(s, BOM) {
      assert (s + more)[3..] == s[3..] + more;
      PushAllConcat(START, s[3..], more);
    } else {
      NoBom(s, more);
      PushAllConcat(START, s, more);
    }
  }

  /** The client's reading of the upstream octets, brought to rest. */
  function Closed(log: seq<Entry>): Parser {
    PushAll(AsRead(log), Closing(Flagged(log)))
  }

  /** A stream that breaks off anywhere is brought to rest: its complete events, then at most one for
      the event that was cut off, and the client holds nothing of it any more. */
  lemma CutOffStream(log: seq<Entry>)
    requires Paced(log)
    ensures var closed := Decode(Wire(log) + Closing(Flagged(log)));
      && AtRest(closed)
      && closed.client == Closed(log).client
      && AsRead(log).client.events <= closed.client.events
      && |closed.client.events| <= |AsRead(log).client.events| + 1
      && (Flagged(log).atBoundary ==> closed.client == AsRead(log).client)
  {
    HeartbeatsAreInvisible(log);
    var up, down := AsRead(log), Decode(Wire(log));
    var closing := Closing(Flagged(log));
    DecodeExtends(Wire(log), closing);
    RelatedPushAll(up, down, closing);
    if Flagged(log).atBoundary {
      BoundaryIsRest(Payload(log));
    } else {
      NoLineAfterCr(WithoutBom(Wire(log)));
      ClosedParser(down);
    }
  }
}
