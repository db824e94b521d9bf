/** What the bridging protocol guarantees in every run: for all upstreams, chunkings, arrival times,
    timer and channel schedules, and all moments at which the client may leave. */
module BridgeTheorems {
  import opened ByteStrings
  import opened Sse
  import opened Tracker
  import opened Transparency
  import opened Headers
  import opened Encoding
  import opened Bridge
  import opened BridgeInvariants

  // ===== Conservation =====

  lemma WireAppend(a: seq<Entry>, b: seq<Entry>, e: Entry)
    requires Wire(a + b) == Wire(a) + Wire(b)
    ensures Wire(a + (b + [e])) == Wire(a) + Wire(b + [e])
  {
    assert a + (b + [e]) == (a + b) + [e];
    LogSnoc(a + b, e);
    LogSnoc(b, e);
    Rejoin(Wire(a), Wire(b), e.bytes);
  }

  lemma {:induction false} WireConcat(a: seq<Entry>, b: seq<Entry>)
    ensures Wire(a + b) == Wire(a) + Wire(b)
  {
    if b == [] {
      assert a + b == a;
    } else {
      var init, e := b[..|b| - 1], b[|b| - 1];
      assert b == init + [e];
      WireConcat(a, init);
      WireAppend(a, init, e);
    }
  }

  lemma {:induction false} PayloadPrefix(log: seq<Entry>, n: nat)
    requires n <= |log|
    ensures Payload(log[..n]) <= Payload(log)
  {
    if n == |log| {
      assert log[..n] == log;
    } else {
      PayloadPrefix(log[..|log| - 1], n);
      assert log[..|log| - 1][..n] == log[..n];
    }
  }

  /** Nothing is lost, reordered, duplicated or invented between the upstream and the client. */
  lemma Conservation(env: Env, run: Run, k: nat)
    requires IsRun(env, run) && k < |run.states|
    ensures var s := run.states[k];
      && |s.queue| <= 16
      && (s.alive ==> Wire(s.delivered) + Wire(s.queue) == Wire(s.log))
      && (!s.alive ==> s.delivered <= s.log)
      && Payload(s.delivered) <= Payload(s.log) <= Concat(Chunks(env))
      && (s.phase == Done(CleanEnd) ==> Payload(s.log) == Concat(Chunks(env)))
      && (s.phase == Done(CleanEnd) && s.alive && s.queue == [] ==>
            Payload(s.delivered) == Concat(Chunks(env)))
  {
    Reachable(env, run, k);
    var s := run.states[k];
    WireConcat(s.delivered, s.queue);
    ConcatPrefix(Chunks(env), s.next);
    assert s.delivered == s.log[..|s.delivered|];
    PayloadPrefix(s.log, |s.delivered|);
    if s.phase == Done(CleanEnd) {
      assert Payload(s.log) + [] == Payload(s.log);
      assert Chunks(env)[..s.next] == Chunks(env);
      assert s.queue == [] ==> s.delivered + s.queue == s.delivered;
    }
  }

  lemma DepartedStep(env: Env, s: State, l: Label)
    requires Enabled(env, s, l) && !s.alive
    ensures var t := Take(env, s, l); !t.alive && t.log == s.log && t.delivered == s.delivered
  {
  }

  /** Once the client has left, not one more frame is written or delivered. */
  lemma {:induction false} NothingAfterDeparture(env: Env, run: Run, k: nat, m: nat)
    requires IsRun(env, run) && k <= m < |run.states| && !run.states[k].alive
    ensures var s, t := run.states[k], run.states[m];
      !t.alive && t.log == s.log && t.delivered == s.delivered
  {
    if k == m {
    } else {
      NothingAfterDeparture(env, run, k, m - 1);
      DepartedStep(env, run.states[m - 1], run.labels[m - 1]);
    }
  }

  // ===== Shape of every run =====

  function Tags(log: seq<Entry>): seq<Tag> {
    if log == [] then [] else Tags(log[..|log| - 1]) + [log[|log| - 1].tag]
  }

  /** The log without the closing frames of a failed stream. */
  function Core(log: seq<Entry>): seq<Entry> {
    if log != [] && log[|log| - 1].tag in {Terminator, Error} then Core(log[..|log| - 1]) else log
  }

  lemma {:induction false} PacedIsCore(log: seq<Entry>)
    requires Paced(log)
    ensures Core(log) == log
  {
  }

  /** One closing frame more. */
  lemma CoreClosed(log: seq<Entry>, e: Entry)
    requires e.tag in {Terminator, Error}
    ensures Core(log + [e]) == Core(log)
    ensures Payload(log + [e]) == Payload(log) && HeartbeatFirst(log + [e]) == HeartbeatFirst(log)
    ensures Wire(log + [e]) == Wire(log) + e.bytes
    ensures Tags(log + [e]) == Tags(log) + [e.tag]
  {
    assert (log + [e])[..|log|] == log;
  }

  lemma OneTag(e: Entry)
    ensures Tags([e]) == [e.tag]
  {
    assert [e][..0] == [];
  }

  lemma CoreTerminated(log: seq<Entry>)
    requires Terminated(log)
    ensures var core := log[..|log| - 1];
      && Core(log) == core && Payload(log) == Payload(core)
      && HeartbeatFirst(log) == HeartbeatFirst(core)
      && Wire(log) == Wire(core) + Closing(Flagged(core))
      && Tags(log[|core|..]) == [Terminator]
  {
    var core, e := log[..|log| - 1], log[|log| - 1];
    assert log == core + [e] && log[|core|..] == [e];
    CoreClosed(core, e);
    OneTag(e);
    PacedIsCore(core);
    assert Closing(Flagged(core)) == e.bytes;
  }

  lemma CoreSettled(log: seq<Entry>, e: Entry)
    requires Settled(log) && e.tag == Error
    ensures var core := Core(log);
      && Paced(core) && core <= log && Core(log + [e]) == core
      && Wire(log + [e]) == Wire(core) + Closing(Flagged(core)) + e.bytes
      && Tags((log + [e])[|core|..]) in {[Error], [Terminator, Error]}
  {
    CoreClosed(log, e);
    if Terminated(log) {
      CoreTerminated(log);
      CoreClosed([log[|log| - 1]], e);
      assert (log + [e])[|log| - 1..] == [log[|log| - 1]] + [e];
      assert [log[|log| - 1]] == log[|log| - 1..];
      assert [Terminator] + [Error] == [Terminator, Error];
    } else {
      PacedIsCore(log);
      CoreClosed([], e);
      assert [] + [Error] == [Error];
      assert (log + [e])[|log|..] == [] + [e];
      assert Wire(log) + [] == Wire(log);
    }
  }

  /** A core, and what may follow it. */
  predicate HasCore(log: seq<Entry>) {
    var core := Core(log);
    && Paced(core) && core <= log && Payload(core) == Payload(log)
    && Tags(log[|core|..]) in {[], [Terminator], [Error], [Terminator, Error]}
    && (BomSafe(log) <==> BomSafe(core))
  }

  lemma CoreOfPaced(log: seq<Entry>)
    requires Paced(log)
    ensures HasCore(log)
  {
    PacedIsCore(log);
    assert log[|log|..] == [];
  }

  lemma CoreOfTerminated(log: seq<Entry>)
    requires Terminated(log)
    ensures HasCore(log)
  {
    CoreTerminated(log);
  }

  lemma CoreOfError(env: Env, log: seq<Entry>)
    requires EndsInError(env, log)
    ensures HasCore(log)
    ensures Wire(log) == Wire(Core(log)) + Closing(Flagged(Core(log))) + env.errorFrame
  {
    var init, e := log[..|log| - 1], log[|log| - 1];
    assert log == init + [e];
    CoreSettled(init, e);
    CoreClosed(init, e);
    if Terminated(init) {
      CoreOfTerminated(init);
    } else {
      CoreOfPaced(init);
    }
  }

  lemma CoreOf(env: Env, s: State)
    requires LogForm(env, s)
    ensures HasCore(s.log)
    ensures EndsInError(env, s.log) ==>
      Wire(s.log) == Wire(Core(s.log)) + Closing(Flagged(Core(s.log))) + env.errorFrame
  {
    if EndsInError(env, s.log) {
      CoreOfError(env, s.log);
    } else if Paced(s.log) {
      CoreOfPaced(s.log);
    } else {
      CoreOfTerminated(s.log);
    }
  }

  /** Heartbeats and data, each heartbeat at a boundary; then nothing, or a terminator exactly if the
      stream stopped inside an event, and the one error event. A clean end adds nothing, and a run
      that ends in an error was bound to. */
  lemma ShapeOfRun(env: Env, run: Run, k: nat)
    requires IsRun(env, run) && k < |run.states|
    ensures var s := run.states[k]; var core := Core(s.log);
      && Paced(core) && core <= s.log
      && Tags(s.log[|core|..]) in {[], [Terminator], [Error], [Terminator, Error]}
      && (s.phase == Done(CleanEnd) ==> core == s.log)
      && (s.phase == Done(ErrorSent) ==>
            && EndsInError(env, s.log)
            && Wire(s.log) == Wire(core) + Closing(Flagged(core)) + env.errorFrame)
      && (Polling(s.phase) ==> core == s.log)
  {
    Reachable(env, run, k);
    CoreOf(env, run.states[k]);
    if Paced(run.states[k].log) {
      PacedIsCore(run.states[k].log);
    }
  }

  // ===== Timing =====

  /** The task is in one of its loops. */
  predicate Looping(p: Phase) {
    p.Awaiting? || p.Relaying? || p.Collecting?
  }

  /** At a boundary nothing was skipped: the log and the tracker agree on where the stream stands. */
  lemma NothingSkipped(env: Env, s: State)
    requires TimeOk(env, s) && Looping(s.phase) && s.flags.atBoundary
    ensures s.skips == 0 && s.now <= s.deadline == LastWrite(s) + env.interval
  {
    NextDue(env, s);
  }

  lemma DueAfter(env: Env, s: State)
    ensures Due(env, s, s.skips) == LastWrite(s) + (s.skips + 1) * env.interval
  {
  }

  /** While the task polls, no timer is overdue; inside an event the deadline is that of the next
      firing after those already skipped, and at a boundary nothing was skipped: the client is never
      idle for longer than one interval. The timer keeps this through every hand-over. */
  lemma IdleBound(env: Env, run: Run, k: nat)
    requires IsRun(env, run) && k < |run.states| && Looping(run.states[k].phase)
    ensures var s := run.states[k];
      && s.now <= s.deadline
      && s.deadline == LastWrite(s) + (s.skips + 1) * env.interval
      && (s.skips > 0 ==> s.phase.Relaying? && !s.flags.atBoundary)
      && (s.flags.atBoundary ==> s.now <= s.deadline == LastWrite(s) + env.interval)
  {
    Reachable(env, run, k);
    DueAfter(env, run.states[k]);
    if run.states[k].flags.atBoundary {
      NothingSkipped(env, run.states[k]);
    }
  }

  /** A client that keeps reading never lets the channel be full while time passes. */
  predicate KeepsReading(run: Run) {
    forall i :: 0 <= i < |run.labels| && i < |run.states| && run.labels[i].Tick? ==> |run.states[i].queue| < CAPACITY
  }

  predicate Prompt(env: Env, s: State) {
    s.phase.Writing? ==> s.now == s.phase.since <= Due(env, s, s.skips)
  }

  lemma PromptStep(env: Env, s: State, l: Label)
    requires Prompt(env, s) && TimeOk(env, s) && ControlOk(env, s) && Enabled(env, s, l)
    requires l.Tick? ==> |s.queue| < CAPACITY
    ensures Prompt(env, Take(env, s, l))
  {
    if l.WriteCompletes? {
      NextDue(env, OnWritten(env, s));
    }
  }

  lemma {:induction false} AlwaysPrompt(env: Env, run: Run, k: nat)
    requires IsRun(env, run) && k < |run.states| && KeepsReading(run)
    ensures Prompt(env, run.states[k])
  {
    if k == 0 {
    } else {
      AlwaysPrompt(env, run, k - 1);
      Reachable(env, run, k - 1);
      PromptStep(env, run.states[k - 1], run.labels[k - 1]);
    }
  }

  /** With such a client the bound holds at every moment of the task's life, writes included. */
  lemma IdleBoundWhenRead(env: Env, run: Run, k: nat)
    requires IsRun(env, run) && k < |run.states| && KeepsReading(run)
    ensures var s := run.states[k];
      !s.phase.Done? && !s.phase.Racing? ==>
        && s.now <= LastWrite(s) + s.skips * env.interval + env.interval
        && (Polling(s.phase) && s.flags.atBoundary ==> s.now <= LastWrite(s) + env.interval)
  {
    AlwaysPrompt(env, run, k);
    Reachable(env, run, k);
  }

  /** Heartbeats since the last upstream frame, or since the response head. */
  function Beats(log: seq<Entry>): nat {
    if log != [] && log[|log| - 1].tag == Heartbeat then Beats(log[..|log| - 1]) + 1 else 0
  }

  /** When that silence began. */
  function Silence(start: nat, log: seq<Entry>): nat {
    if log != [] && log[|log| - 1].tag == Heartbeat then Silence(start, log[..|log| - 1]) else LastAt(start, log)
  }

  /** How much of it was spent waiting for room in the channel. */
  function Stalled(log: seq<Entry>): nat {
    if log != [] && log[|log| - 1].tag == Heartbeat then Stalled(log[..|log| - 1]) + log[|log| - 1].waited else 0
  }

  lemma {:induction false} BeatsAreRegular(interval: nat, start: nat, log: seq<Entry>)
    requires Rhythm(interval, start, log)
    ensures LastAt(start, log) == Silence(start, log) + Beats(log) * interval + Stalled(log)
  {
    if log == [] || log[|log| - 1].tag != Heartbeat {
    } else {
      var init := log[..|log| - 1];
      BeatsAreRegular(interval, start, init);
      assert (Beats(init) + 1) * interval == Beats(init) * interval + interval;
    }
  }

  lemma {:induction false} Multiples(a: nat, b: nat, interval: nat)
    requires a < b
    ensures a * interval + interval <= b * interval
  {
    assert b * interval == (b - 1) * interval + interval;
    if a == b - 1 {
    } else {
      Multiples(a, b - 1, interval);
    }
  }

  lemma FloorOrOneLess(length: nat, k: nat, interval: nat)
    requires interval > 0
    requires k * interval <= length <= k * interval + interval
    ensures k == length / interval || (length % interval == 0 && k == length / interval - 1)
  {
    var q := length / interval;
    assert length == q * interval + length % interval;
    if q < k {
      Multiples(q, k, interval);
    } else if k < q {
      Multiples(k, q, interval);
      assert (k + 1) * interval == k * interval + interval;
      if k + 1 < q {
        Multiples(k + 1, q, interval);
      }
    }
  }

  /** Inside an event no heartbeat was the last thing written. */
  lemma NoBeatInsideEvent(log: seq<Entry>)
    requires Paced(log) && !Flagged(log).atBoundary
    ensures Beats(log) == 0
  {
  }

  /** The silence so far, not counting time stalled on a full channel. */
  function Quiet(s: State): int {
    s.now - Silence(s.start, s.log) - Stalled(s.log)
  }

  /** The timer firings in it: heartbeats written at a boundary, firings skipped inside an event. */
  function Firings(s: State): nat {
    if s.flags.atBoundary then Beats(s.log) else s.skips
  }

  lemma CountAtBoundary(env: Env, s: State)
    requires Invariant(env, s) && Looping(s.phase) && s.flags.atBoundary
    ensures Beats(s.log) * env.interval <= Quiet(s) <= Beats(s.log) * env.interval + env.interval
    ensures s.skips == 0
  {
    NothingSkipped(env, s);
    BeatsAreRegular(env.interval, s.start, s.log);
  }

  lemma CountInsideEvent(env: Env, s: State)
    requires Invariant(env, s) && Looping(s.phase) && !s.flags.atBoundary
    ensures s.skips * env.interval <= Quiet(s) <= s.skips * env.interval + env.interval
    ensures Beats(s.log) == 0
  {
    FlagsOfLog(env, s);
    NoBeatInsideEvent(s.log);
    BeatsAreRegular(env.interval, s.start, s.log);
  }

  lemma CountAt(env: Env, s: State)
    requires Invariant(env, s) && Looping(s.phase)
    ensures Firings(s) * env.interval <= Quiet(s) <= Firings(s) * env.interval + env.interval
    ensures if s.flags.atBoundary then s.skips == 0 else Beats(s.log) == 0
  {
    if s.flags.atBoundary {
      CountAtBoundary(env, s);
    } else {
      CountInsideEvent(env, s);
    }
  }

  /** How many heartbeats a silence gets. At a boundary every firing writes one, inside an event none
      does. Either way a silence of length L has seen floor(L / interval) firings, or one fewer when L
      is an exact multiple and the last one is still to be chosen. */
  lemma HeartbeatCount(env: Env, run: Run, k: nat)
    requires IsRun(env, run) && k < |run.states| && Looping(run.states[k].phase) && env.interval > 0
    ensures var s := run.states[k];
      && Quiet(s) >= 0
      && (Firings(s) == Quiet(s) / env.interval
          || (Quiet(s) % env.interval == 0 && Firings(s) == Quiet(s) / env.interval - 1))
      && (if s.flags.atBoundary then s.skips == 0 else Beats(s.log) == 0)
  {
    Reachable(env, run, k);
    CountAt(env, run.states[k]);
    FloorOrOneLess(Quiet(run.states[k]), Firings(run.states[k]), env.interval);
  }

  // ===== The commit race =====

  /** The request can only end in an error event. */
  predicate Fails(env: Env) {
    !Decodable(env) || env.upstream.end.Broken?
  }

  /** Exactly one response head, unless the client left before it; the gateway's own 200 exactly when
      the window expired; after that, a client that stayed gets the error event of every failure and
      the clean end of every success. */
  lemma CommitRace(env: Env, run: Run, k: nat)
    requires IsRun(env, run) && k < |run.states|
    ensures var s := run.states[k];
      && |s.heads| == (if s.phase.Racing? || s.phase == Done(Abandoned) then 0 else 1)
      && (|s.heads| == 1 ==>
        && (s.heads[0].origin == OwnStream ==> s.start == env.interval)
        && (s.heads[0].origin == BridgedStream ==> s.start <= env.interval && Decodable(env))
        && (s.heads[0].origin in {PassedThrough, GatewayError} ==> s.log == [] && s.phase == Done(HandedOver))
        && (s.heads[0].origin in {OwnStream, BridgedStream} && s.phase.Done? && s.alive ==>
             if Fails(env) then s.phase == Done(ErrorSent) && EndsInError(env, s.log)
             else s.phase == Done(CleanEnd) && Payload(s.log) == Concat(Chunks(env))))
  {
    Reachable(env, run, k);
    var s := run.states[k];
    if s.phase == Done(CleanEnd) {
      Conservation(env, run, k);
    }
  }

  // ===== Every task can be carried to its end =====

  /** How many steps of its own a task has left at most, counting two for every chunk. */
  function Work(env: Env, s: State): nat {
    var left := if s.next < |Chunks(env)| then 2 * (|Chunks(env)| - s.next) else 0;
    match s.phase
    case Done(_) => 0
    case Collecting => 2
    case Relaying => left + 3
    case Awaiting => left + 4
    case Racing => left + 6
    case Writing(_, _, _, andThen) =>
      match andThen
      case Finish => 1
      case SendError => 2
      case Collect => 3
      case Relay => left + 4
      case Await => left + 5
  }

  /** What to do next: the upstream goes on, the pending frame is accepted, or the client makes room. */
  function NextStep(s: State): Label {
    if Polling(s.phase) then UpstreamReady
    else if s.phase.Writing? && |s.queue| < CAPACITY then WriteCompletes
    else ClientReads
  }

  /** Less work left, or the same and fewer frames to be read. */
  predicate Closer(env: Env, t: State, s: State) {
    Work(env, t) < Work(env, s) || (Work(env, t) == Work(env, s) && |t.queue| < |s.queue|)
  }

  lemma AnswerBringsCloser(env: Env, s: State)
    requires s.phase.Racing?
    ensures var t := Answered(env, s); t.alive == s.alive && t.now == s.now && Work(env, t) < Work(env, s)
  {
  }

  lemma ChunkBringsCloser(env: Env, s: State)
    requires s.phase.Relaying?
    ensures var t := OnChunk(env, s); t.alive == s.alive && t.now == s.now && Work(env, t) < Work(env, s)
  {
  }

  lemma UpstreamBringsCloser(env: Env, s: State)
    requires Polling(s.phase)
    ensures var t := OnUpstream(env, s); t.alive == s.alive && t.now == s.now && Work(env, t) < Work(env, s)
  {
    match s.phase
    case Racing => AnswerBringsCloser(env, s);
    case Relaying => ChunkBringsCloser(env, s);
    case _ =>
  }

  lemma WritingBringsCloser(env: Env, s: State)
    requires s.phase.Writing?
    ensures var t := OnWritten(env, s); t.alive == s.alive && t.now == s.now && Work(env, t) < Work(env, s)
  {
  }

  lemma StepsForward(env: Env, s: State)
    requires s.alive && !(s.phase.Done? && s.queue == [])
    ensures Enabled(env, s, NextStep(s))
    ensures var t := Take(env, s, NextStep(s)); t.alive && t.now == s.now && Closer(env, t, s)
  {
    if Polling(s.phase) {
      UpstreamBringsCloser(env, s);
    } else if s.phase.Writing? && |s.queue| < CAPACITY {
      WritingBringsCloser(env, s);
    }
  }

  /** Whatever has happened, a task whose client is still there can come to its end, and the client
      can have read all of it, without any more waiting. */
  lemma {:induction false} CanAlwaysFinish(env: Env, run: Run) returns (longer: Run)
    requires IsRun(env, run) && EndOf(run).alive
    ensures IsRun(env, longer) && run.labels <= longer.labels && run.states <= longer.states
    ensures var s, t := EndOf(run), EndOf(longer);
      t.phase.Done? && t.alive && t.queue == [] && t.now == s.now
    decreases Work(env, EndOf(run)), |EndOf(run).queue|
  {
    var s := EndOf(run);
    if s.phase.Done? && s.queue == [] {
      longer := run;
    } else {
      StepsForward(env, s);
      RunGrows(env, run, NextStep(s));
      longer := CanAlwaysFinish(env, Onward(env, run, NextStep(s)));
    }
  }

  /** Whatever has happened, a request whose client stays can be concluded as the commit race says: its
      response was handed over, or the client has read the error event of the failure, or the whole
      stream. */
  lemma CanConclude(env: Env, run: Run) returns (longer: Run)
    requires IsRun(env, run) && EndOf(run).alive
    ensures IsRun(env, longer) && run.labels <= longer.labels && run.states <= longer.states
    ensures var t := EndOf(longer);
      && t.alive && t.delivered == t.log && |t.heads| == 1
      && (if t.heads[0].origin in {PassedThrough, GatewayError} then t.phase == Done(HandedOver)
          else if Fails(env) then t.phase == Done(ErrorSent) && EndsInError(env, t.delivered)
          else t.phase == Done(CleanEnd) && Payload(t.delivered) == Concat(Chunks(env)))
  {
    longer := CanAlwaysFinish(env, run);
    CommitRace(env, longer, |longer.labels|);
    Reachable(env, longer, |longer.labels|);
    assert EndOf(longer).delivered + [] == EndOf(longer).delivered;
  }

  // ===== Heads and frames =====

  lemma BeforeSemicolon(media: Bytes, parameters: Bytes)
    requires ';' !in media && parameters != [] && parameters[0] == ';'
    ensures (media + parameters)[..IndexOf(media + parameters, ';')] == media
  {
    var value := media + parameters;
    assert forall j :: 0 <= j < |media| ==> value[j] == media[j];
    IndexOfIs(value, ';', |media|);
  }

  lemma TrimmedAlready(s: Bytes)
    requires s != [] && !IsBlank(s[0]) && !IsBlank(s[|s| - 1])
    ensures Trim(s) == s
  {
  }

  lemma OwnMediaType()
    ensures OWN_TYPE[..IndexOf(OWN_TYPE, ';')] == EVENT_STREAM
    ensures Lower(Trim(EVENT_STREAM)) == EVENT_STREAM
  {
    BeforeSemicolon(EVENT_STREAM, CHARSET);
    TrimmedAlready(EVENT_STREAM);
    EventStreamHasNoCapitals();
    LowerMeans(EVENT_STREAM, EVENT_STREAM);
  }

  lemma OwnTypeIsVisible()
    ensures Visible(OWN_TYPE)
  {
    assert Visible(EVENT_STREAM) && Visible(CHARSET);
  }

  lemma OwnNames()
    ensures CONTENT_ENCODING !in OWN_FIELDS && CONTENT_LENGTH !in OWN_FIELDS
    ensures ValuesOf(OWN_FIELDS, CONTENT_TYPE) == [OWN_TYPE]
  {
    assert CONTENT_TYPE[8] == 't' && CONTENT_LENGTH[8] == 'l' && CONTENT_ENCODING[8] == 'e';
    assert CACHE_CONTROL[1] == 'a' && CONTENT_LENGTH[1] == 'o' && CONTENT_ENCODING[1] == 'o' && CONTENT_TYPE[1] == 'o';
    assert CONTENT_TYPE[0] == 'c' && CONTENT_LENGTH[0] == 'c' && CONTENT_ENCODING[0] == 'c';
    assert ACCEL_BUFFERING[0] == 'x';
  }

  lemma OwnHead()
    ensures IsEventStream(OWN_FIELDS)
    ensures CONTENT_ENCODING !in OWN_FIELDS && CONTENT_LENGTH !in OWN_FIELDS
  {
    OwnMediaType();
    OwnTypeIsVisible();
    OwnNames();
  }

  lemma ContentTypeIsEndToEnd()
    ensures CONTENT_TYPE != CONNECTION && CONTENT_TYPE !in HOP_BY_HOP
  {
    assert |CONTENT_TYPE| == 12 && |CONNECTION| == 10;
    forall i | 0 <= i < |HOP_BY_HOP| ensures HOP_BY_HOP[i] != CONTENT_TYPE {
      assert |HOP_BY_HOP[i]| != 12;
    }
  }

  lemma BridgedHead(h: Fields)
    requires IsEventStream(h)
    ensures var b := BridgedFields(h);
      && CONTENT_ENCODING !in b && CONTENT_LENGTH !in b
      && (IsEventStream(b) <==> CONTENT_TYPE !in Listed(h))
  {
    ContentTypeIsEndToEnd();
    var b := BridgedFields(h);
    assert CONTENT_TYPE[8] == 't' && CONTENT_LENGTH[8] == 'l' && CONTENT_ENCODING[8] == 'e';
    assert CONTENT_TYPE[0] == 'c' && CONTENT_LENGTH[0] == 'c' && CONTENT_ENCODING[0] == 'c';
    assert ACCEL_BUFFERING[0] == 'x';
    assert ValuesOf(b, CONTENT_TYPE) == if CONTENT_TYPE in Listed(h) then [] else ValuesOf(h, CONTENT_TYPE);
  }

  /** Frames are only ever written under a head that announces neither a coding nor a length. It
      announces an event stream, unless the upstream's Connection field named Content-Type. */
  lemma FramesUnderEventStream(env: Env, run: Run, k: nat)
    requires IsRun(env, run) && k < |run.states| && run.states[k].log != []
    ensures var head := run.states[k].heads;
      && |head| == 1
      && CONTENT_ENCODING !in head[0].fields && CONTENT_LENGTH !in head[0].fields
      && (IsEventStream(head[0].fields) <==>
            head[0].origin == OwnStream
            || (env.upstream.Responds? && CONTENT_TYPE !in Listed(env.upstream.fields)))
  {
    Reachable(env, run, k);
    OwnHead();
    if run.states[k].heads[0].origin == BridgedStream {
      BridgedHead(env.upstream.fields);
    }
  }

  lemma OwnValues()
    ensures ValuesOf(OWN_FIELDS, CONTENT_TYPE) == ["text/event-stream" + "; charset=utf-8"]
    ensures ValuesOf(OWN_FIELDS, CACHE_CONTROL) == ["no-cache"] && ValuesOf(OWN_FIELDS, ACCEL_BUFFERING) == ["no"]
  {
    assert CACHE_CONTROL[1] == 'a' && CONTENT_TYPE[1] == 'o';
    assert CONTENT_TYPE[0] == 'c' && CACHE_CONTROL[0] == 'c' && ACCEL_BUFFERING[0] == 'x';
  }

  lemma BridgedFieldsMean(h: Fields, name: Bytes)
    ensures var values := ValuesOf(BridgedFields(h), name);
      if name == ACCEL_BUFFERING then values == ["no"]
      else if name == CONTENT_LENGTH || name == CONTENT_ENCODING then values == []
      else values == ValuesOf(Stripped(h), name)
  {
  }

  /** What each response head says, and when which is sent: a bridged one exactly for a 2xx event stream
      that can be decoded and answers in time, one that is passed through for any other answer in time,
      a 502 for none, the gateway's own after the window. */
  lemma HeadSays(env: Env, run: Run, k: nat)
    requires IsRun(env, run) && k < |run.states| && |run.states[k].heads| == 1
    ensures var head, upstream := run.states[k].heads[0], env.upstream;
      match head.origin
      case OwnStream =>
        && head.status == 200
        && ValuesOf(head.fields, CONTENT_TYPE) == ["text/event-stream" + "; charset=utf-8"]
        && ValuesOf(head.fields, CACHE_CONTROL) == ["no-cache"] && ValuesOf(head.fields, ACCEL_BUFFERING) == ["no"]
      case BridgedStream =>
        && upstream.Responds? && 200 <= upstream.status < 300 && IsEventStream(upstream.fields)
        && ParseContentEncoding(upstream.fields).Some?
        && head.status == upstream.status
        && forall name ::
             ValuesOf(head.fields, name)
             == if name == ACCEL_BUFFERING then ["no"]
                else if name == CONTENT_LENGTH || name == CONTENT_ENCODING then []
                else ValuesOf(Stripped(upstream.fields), name)
      case PassedThrough =>
        && upstream.Responds?
        && !(200 <= upstream.status < 300 && IsEventStream(upstream.fields)
             && ParseContentEncoding(upstream.fields).Some?)
        && head.status == upstream.status && head.fields == Stripped(upstream.fields)
      case GatewayError =>
        upstream.Unreachable? && head.status == 502 && ValuesOf(head.fields, CONTENT_TYPE) == ["application/json"]
  {
    Reachable(env, run, k);
    var head := run.states[k].heads[0];
    match head.origin
    case OwnStream => OwnValues();
    case BridgedStream =>
      forall name ensures ValuesOf(head.fields, name)
             == if name == ACCEL_BUFFERING then ["no"]
                else if name == CONTENT_LENGTH || name == CONTENT_ENCODING then []
                else ValuesOf(Stripped(env.upstream.fields), name) {
        BridgedFieldsMean(env.upstream.fields, name);
      }
    case _ =>
  }
}
