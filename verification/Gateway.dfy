/** The whole request, end to end: what the client decodes, in terms of what the upstream sent. */
module Gateway {
  import opened ByteStrings
  import opened Sse
  import opened Tracker
  import opened Transparency
  import opened ByteOrderMark
  import opened Headers
  import opened Encoding
  import opened Requests
  import opened Bridge
  import opened BridgeInvariants
  import opened BridgeTheorems
  import opened Sessions
  import E = ErrorEvent

  // ===== Any moment of any run =====

  lemma {:induction false} FirstTag(log: seq<Entry>)
    ensures |Tags(log)| == |log|
    ensures log != [] ==> Tags(log)[0] == log[0].tag
  {
    if log == [] {
    } else {
      FirstTag(log[..|log| - 1]);
    }
  }

  /** A part of the log without closing frames lies within its core. */
  lemma WithinCore(env: Env, s: State, n: nat)
    requires LogForm(env, s) && n <= |s.log|
    requires forall i :: 0 <= i < n ==> s.log[i].tag in {Heartbeat, Data}
    ensures n <= |Core(s.log)| && Paced(s.log[..n])
  {
    var core := Core(s.log);
    CoreOf(env, s);
    FirstTag(s.log[|core|..]);
    assert |core| < |s.log| ==> s.log[|core|..][0] == s.log[|core|];
    PacedPrefix(core, n);
    assert core[..n] == s.log[..n];
  }

  /** What was delivered before any closing frame is paced. */
  lemma DeliveredIsPaced(env: Env, s: State)
    requires Invariant(env, s)
    requires forall i :: 0 <= i < |s.delivered| ==> s.delivered[i].tag in {Heartbeat, Data}
    ensures s.delivered <= s.log && Paced(s.delivered)
  {
    var d := s.delivered;
    assert d <= d + s.queue;
    assert d == s.log[..|d|];
    WithinCore(env, s, |d|);
  }

  /** A longer stream has decoded at least as many events. */
  lemma DecodeGrows(s: Bytes, t: Bytes)
    requires s <= t
    ensures Decode(s).client.events <= Decode(t).client.events
  {
    var more := t[|s|..];
    assert t == s + more;
    if StartsWith(s, BOM) {
      assert t[3..] == s[3..] + more;
      PushAllConcat(START, s[3..], more);
      EventsGrow(Decode(s), more);
    } else if StartsWith(t, BOM) {
      assert s == BOM[..|s|];
      if s != [] {
        assert OneLine(BOM);
        PushOneLine(START, s);
      }
    } else {
      PushAllConcat(START, s, more);
      EventsGrow(Decode(s), more);
    }
  }

  /** At every moment before a failure, a client has decoded exactly the events of the upstream octets
      that reached it: a prefix of what it would have decoded without the gateway. */
  lemma ClientSeesAPrefix(env: Env, run: Run, k: nat)
    requires IsRun(env, run) && k < |run.states|
    requires var d := run.states[k].delivered; forall i :: 0 <= i < |d| ==> d[i].tag in {Heartbeat, Data}
    ensures var d := run.states[k].delivered;
      && Payload(d) <= Concat(Chunks(env))
      && Decode(Wire(d)).client == AsRead(d).client
      && (BomSafe(d) ==>
            && Decode(Wire(d)).client == Decode(Payload(d)).client
            && Decode(Wire(d)).client.events <= Decode(Concat(Chunks(env))).client.events)
  {
    Reachable(env, run, k);
    Conservation(env, run, k);
    var s := run.states[k];
    DeliveredIsPaced(env, s);
    HeartbeatsAreInvisible(s.delivered);
    DecodeGrows(Payload(s.delivered), Concat(Chunks(env)));
  }

  /** In every state in which the task polls, its tracker agrees with one that was shown the heartbeats
      as well, up to the carriage-return flag at a boundary. */
  lemma TrackerSeesTheWire(env: Env, run: Run, k: nat)
    requires IsRun(env, run) && k < |run.states| && Polling(run.states[k].phase)
    ensures Shadows(run.states[k].flags, StepAll(INITIAL, Wire(run.states[k].log)))
  {
    Reachable(env, run, k);
    var s := run.states[k];
    FlagsOfLog(env, s);
    ShadowTracker(s.log);
  }

  // ===== The clean end =====

  lemma Drained(env: Env, s: State)
    requires Invariant(env, s) && s.alive && s.queue == []
    ensures s.delivered == s.log
  {
    assert s.delivered + s.queue == s.delivered;
  }

  /** Heartbeat transparency for whole requests: when the upstream has ended cleanly and the client has
      read everything, a script sees exactly what it would have seen on the upstream's own octets. A
      heartbeat in front of a byte order mark is the one exception, and `MarkHarmless` tells which
      upstreams are exempt from it. */
  lemma CleanEndIsTransparent(env: Env, run: Run, k: nat)
    requires IsRun(env, run) && k < |run.states|
    requires var s := run.states[k]; s.phase == Done(CleanEnd) && s.alive && s.queue == []
    ensures var s, u := run.states[k], Concat(Chunks(env));
      && Payload(s.delivered) == u
      && ((HeartbeatFirst(s.delivered) ==> MarkHarmless(u)) ==>
            Observe(Decode(Wire(s.delivered))) == Observe(Decode(u)))
      && (BomSafe(s.delivered) ==> Decode(Wire(s.delivered)).client == Decode(u).client)
  {
    Reachable(env, run, k);
    Conservation(env, run, k);
    var s := run.states[k];
    Drained(env, s);
    if BomSafe(s.log) {
      HeartbeatTransparency(s.log);
    }
    if HeartbeatFirst(s.log) ==> MarkHarmless(Payload(s.log)) {
      ObservedTransparency(s.log);
    }
  }

  // ===== The failing end =====

  /** Reading a finished log: the upstream, closed, then the error frame. */
  lemma ErrorLogDecodes(r: Request, log: seq<Entry>)
    requires var core := Core(log);
      Paced(core) && Wire(log) == Wire(core) + Closing(Flagged(core)) + EnvOf(r).errorFrame
    ensures var core := Core(log);
      var upstream, closed := AsRead(core).client, Closed(core).client;
      && upstream.events <= closed.events
      && |closed.events| <= |upstream.events| + 1
      && (Flagged(core).atBoundary ==> closed == upstream)
      && Decode(Wire(log)).client
         == closed.(events := closed.events + E.ErrorEvents(r.kind, ErrorPayload(r), closed.id))
  {
    var core := Core(log);
    var before := Wire(core) + Closing(Flagged(core));
    CutOffStream(core);
    E.FrameBegins(r.kind, ErrorPayload(r));
    DecodeExtends(before, EnvOf(r).errorFrame);
    E.FrameDecodes(r.kind, ErrorPayload(r), Decode(before));
  }

  lemma UpstreamOfError(env: Env, s: State)
    requires Invariant(env, s) && s.phase == Done(ErrorSent)
    ensures Payload(s.log) == if Decodable(env) then Concat(Chunks(env)) else []
  {
    assert Payload(s.log) + [] == Payload(s.log);
    if Decodable(env) {
      assert Chunks(env)[..s.next] == Chunks(env);
    } else {
      assert Chunks(env)[..0] == [];
    }
  }

  /** The log of a failed request: all that the upstream sent, closed, and the error frame. */
  lemma FailedLog(env: Env, s: State)
    requires Invariant(env, s) && s.phase == Done(ErrorSent)
    ensures var core := Core(s.log);
      && Paced(core)
      && Wire(s.log) == Wire(core) + Closing(Flagged(core)) + env.errorFrame
      && Payload(core) == if Decodable(env) then Concat(Chunks(env)) else []
  {
    CoreOf(env, s);
    UpstreamOfError(env, s);
  }

  /** The log of a failed request decodes to the upstream's complete events, at most one more for the
      event that was cut off, and then exactly the error event of the endpoint. */
  ghost predicate ErrorIsolated(r: Request, log: seq<Entry>) {
    var core := Core(log);
    var upstream, closed := AsRead(core).client, Closed(core).client;
    && Payload(core) == (if Decodable(EnvOf(r)) then Concat(Chunks(EnvOf(r))) else [])
    && upstream.events <= closed.events
    && |closed.events| <= |upstream.events| + 1
    && (Flagged(core).atBoundary ==> closed == upstream)
    && Decode(Wire(log)).client
       == closed.(events := closed.events + E.ErrorEvents(r.kind, ErrorPayload(r), closed.id))
  }

  lemma FailedLogIsIsolated(r: Request, run: Run, k: nat)
    requires IsRun(EnvOf(r), run) && k < |run.states| && run.states[k].phase == Done(ErrorSent)
    ensures ErrorIsolated(r, run.states[k].log)
  {
    Reachable(EnvOf(r), run, k);
    FailedLog(EnvOf(r), run.states[k]);
    ErrorLogDecodes(r, run.states[k].log);
  }

  /** Error isolation: wherever the upstream failed, a client that stayed has decoded the upstream's
      complete events, at most one more for the event that was cut off, and then exactly the error
      event of its endpoint, whose type and data owe nothing to the broken one. */
  lemma ErrorIsIsolated(r: Request, run: Run, k: nat)
    requires IsRun(EnvOf(r), run) && k < |run.states|
    requires var s := run.states[k]; s.phase == Done(ErrorSent) && s.alive && s.queue == []
    ensures ErrorIsolated(r, run.states[k].delivered)
  {
    Reachable(EnvOf(r), run, k);
    Drained(EnvOf(r), run.states[k]);
    FailedLogIsIsolated(r, run, k);
  }

  // ===== Every moment, seen from the end =====

  predicate NeverShrinks(states: seq<State>) {
    forall i :: 0 < i < |states| ==> states[i - 1].log <= states[i].log
  }

  lemma LogsNeverShrink(env: Env, run: Run)
    requires IsRun(env, run)
    ensures NeverShrinks(run.states)
  {
    forall i | 0 < i < |run.states| ensures run.states[i - 1].log <= run.states[i].log {
      LogGrowth(env, run.states[i - 1], run.labels[i - 1]);
    }
  }

  lemma {:induction false} LogsGrow(states: seq<State>, k: nat, m: nat)
    requires NeverShrinks(states) && k <= m < |states|
    ensures states[k].log <= states[m].log
  {
    if k == m {
    } else {
      LogsGrow(states, k, m - 1);
    }
  }

  lemma WireGrows(a: seq<Entry>, b: seq<Entry>)
    requires a <= b
    ensures Wire(a) <= Wire(b)
  {
    assert b == a + b[|a|..];
    WireConcat(a, b[|a|..]);
  }

  lemma DeliveredWithinLog(env: Env, s: State)
    requires Invariant(env, s)
    ensures s.delivered <= s.log
  {
    assert s.delivered <= s.delivered + s.queue;
  }

  /** Nothing is ever taken back: what a client has decoded at any moment, closing frames half read or
      not, is a prefix of what the log decodes to at any later one. After a failure that is the
      upstream's events, at most one more, and the error event. */
  lemma NothingIsTakenBack(r: Request, run: Run, k: nat, m: nat)
    requires IsRun(EnvOf(r), run) && k <= m < |run.states|
    ensures var s, t := run.states[k], run.states[m];
      && Decode(Wire(s.delivered)).client.events <= Decode(Wire(t.log)).client.events
      && (t.phase == Done(ErrorSent) ==> ErrorIsolated(r, t.log))
  {
    var env := EnvOf(r);
    Reachable(env, run, k);
    LogsNeverShrink(env, run);
    LogsGrow(run.states, k, m);
    DeliveredWithinLog(env, run.states[k]);
    WireGrows(run.states[k].delivered, run.states[m].log);
    DecodeGrows(Wire(run.states[k].delivered), Wire(run.states[m].log));
    if run.states[m].phase == Done(ErrorSent) {
      FailedLogIsIsolated(r, run, m);
    }
  }

  // ===== The running program =====

  /** A request served by the imperative session, under any schedule: its queue, heads, delivered frames
      and log are exactly those the protocol reaches under that schedule, and that state is one of a
      run, so every theorem about runs holds of it. */
  method Serve(r: Request, schedule: seq<Label>) returns (session: Session)
    ensures session.Follows()
    ensures session.Last() == Performed(EnvOf(r), schedule) && Invariant(EnvOf(r), session.Last())
    ensures var s := session.Last();
      && session.request == r && session.env == EnvOf(r)
      && session.now == s.now && session.deadline == s.deadline && session.next == s.next
      && session.log == s.log && session.queue == s.queue && session.heads == s.heads
      && session.delivered == s.delivered && session.alive == s.alive
      && session.tracker.View() == s.flags
      && (session.schedule == [] || s.phase.Done?)
  {
    session := new Session(r, schedule);
    ghost var p := session.HandleStream();
    Reachable(EnvOf(r), session.run, |session.run.labels|);
  }
}
