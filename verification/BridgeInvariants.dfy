/** What every step of the bridging protocol keeps, hence what holds in every reachable state. */
module BridgeInvariants {
  import opened ByteStrings
  import opened Tracker
  import opened Transparency
  import opened Headers
  import opened Encoding
  import opened Bridge

  // ===== Control: which phase can hold what =====

  /** The upstream octets taken so far. */
  function Consumed(env: Env, s: State): Bytes
    requires s.next <= |Chunks(env)|
  {
    Concat(Chunks(env)[..s.next])
  }

  predicate FrameFits(env: Env, s: State)
    requires s.phase.Writing?
  {
    match s.phase.tag
    case Heartbeat =>
      && s.phase.bytes == HEARTBEAT
      && s.flags.atBoundary
      && s.phase.andThen in {Await, Relay, Collect}
    case Data => s.phase.andThen.Relay?
    case Terminator =>
      s.phase.bytes == BLANK_LINES && s.phase.andThen.SendError? && !s.flags.atBoundary && Decodable(env)
    case Error => s.phase.bytes == env.errorFrame && s.phase.andThen.Finish?
  }

  predicate StreamBroke(env: Env, s: State)
    requires Decodable(env)
  {
    s.next == |Chunks(env)| && env.upstream.end.Broken?
  }

  /** The streaming part of the protocol is entered with a decodable 2xx response only, and left
      only at the end of its chunks. */
  predicate ControlOk(env: Env, s: State) {
    && s.next <= |Chunks(env)|
    && s.flags == StepAll(INITIAL, Consumed(env, s))
    && (s.phase in {Racing, Awaiting, Collecting} ==> s.next == 0)
    && (!Decodable(env) ==> s.next == 0)
    && (s.phase.Relaying? ==> Decodable(env))
    && (s.phase.Collecting? ==> !Decodable(env))
    && (s.phase.Writing? ==>
          && FrameFits(env, s)
          && (s.phase.andThen.Relay? ==> Decodable(env))
          && (s.phase.andThen.Collect? ==> !Decodable(env))
          && (s.phase.andThen in {Await, Collect} ==> s.next == 0)
          && (s.phase.tag in {Terminator, Error} && Decodable(env) ==> StreamBroke(env, s)))
    && (s.phase == Done(CleanEnd) ==>
          Decodable(env) && s.next == |Chunks(env)| && env.upstream.end.CleanEof?)
    && (s.phase == Done(ErrorSent) && Decodable(env) ==> StreamBroke(env, s))
  }

  lemma ControlOnTimer(env: Env, s: State)
    requires ControlOk(env, s) && Polling(s.phase)
    ensures ControlOk(env, OnTimer(env, s))
  {
  }

  lemma ControlOnChunk(env: Env, s: State)
    requires ControlOk(env, s) && s.phase.Relaying?
    ensures ControlOk(env, OnChunk(env, s))
  {
    if s.next < |Chunks(env)| {
      ConcatSnoc(Chunks(env), s.next);
      ChunkingIndependence(INITIAL, Consumed(env, s), Chunks(env)[s.next]);
    }
  }

  lemma ControlOnUpstream(env: Env, s: State)
    requires ControlOk(env, s) && Polling(s.phase) && !s.phase.Relaying?
    ensures ControlOk(env, OnUpstream(env, s))
  {
    assert Chunks(env)[..0] == [];
  }

  lemma ControlStep(env: Env, s: State, l: Label)
    requires ControlOk(env, s) && Enabled(env, s, l)
    ensures ControlOk(env, Take(env, s, l))
  {
    match l
    case TimerFires => ControlOnTimer(env, s);
    case UpstreamReady =>
      if s.phase.Relaying? {
        ControlOnChunk(env, s);
      } else {
        ControlOnUpstream(env, s);
      }
    case _ =>
  }

  // ===== The log: paced, closed only by a terminator and an error, faithful to the upstream =====

  /** Paced up to a terminator that the tracker asked for. */
  predicate Terminated(log: seq<Entry>) {
    && log != []
    && Paced(log[..|log| - 1])
    && !Flagged(log[..|log| - 1]).atBoundary
    && log[|log| - 1].tag == Terminator && log[|log| - 1].bytes == BLANK_LINES
  }

  /** Ready for an error event: at a boundary, or terminated. */
  predicate Settled(log: seq<Entry>) {
    (Paced(log) && Flagged(log).atBoundary) || Terminated(log)
  }

  /** A settled log and the error event. */
  predicate EndsInError(env: Env, log: seq<Entry>) {
    && log != []
    && Settled(log[..|log| - 1])
    && log[|log| - 1].tag == Error && log[|log| - 1].bytes == env.errorFrame
  }

  predicate LogForm(env: Env, s: State) {
    match s.phase
    case Writing(Error, _, _, _) => (Paced(s.log) || Terminated(s.log)) && (s.alive ==> Settled(s.log))
    case Done(ErrorSent) => EndsInError(env, s.log)
    case Done(ClientGone) => Paced(s.log) || Terminated(s.log)
    case Racing => s.log == []
    case Done(Abandoned) => s.log == []
    case Done(HandedOver) => s.log == []
    case _ => Paced(s.log)
  }

  /** The upstream octets taken but not yet accepted downstream. */
  function Pending(s: State): Bytes {
    if s.phase.Writing? && s.phase.tag == Data then s.phase.bytes else []
  }

  predicate LogOk(env: Env, s: State)
    requires ControlOk(env, s)
  {
    && LogForm(env, s)
    && (s.phase != Done(ClientGone) ==> Payload(s.log) + Pending(s) == Consumed(env, s))
    && Payload(s.log) <= Consumed(env, s)
  }

  lemma FlagsOfLog(env: Env, s: State)
    requires ControlOk(env, s) && LogOk(env, s)
    requires s.phase != Done(ClientGone) && Pending(s) == []
    ensures Flagged(s.log) == s.flags
  {
    assert Payload(s.log) + [] == Payload(s.log);
  }

  lemma LogOnTimer(env: Env, s: State)
    requires ControlOk(env, s) && LogOk(env, s) && Polling(s.phase)
    ensures ControlOk(env, OnTimer(env, s)) && LogOk(env, OnTimer(env, s))
  {
    ControlOnTimer(env, s);
  }

  /** All octets taken are either accepted or pending. */
  lemma LogHolds(env: Env, s: State)
    requires ControlOk(env, s) && LogForm(env, s)
    requires Payload(s.log) + Pending(s) == Consumed(env, s)
    ensures LogOk(env, s)
  {
  }

  lemma LogOnNextChunk(env: Env, s: State)
    requires ControlOk(env, s) && LogOk(env, s) && s.phase.Relaying? && s.next < |Chunks(env)|
    ensures ControlOk(env, OnChunk(env, s)) && LogOk(env, OnChunk(env, s))
  {
    var t := OnChunk(env, s);
    ControlOnChunk(env, s);
    ConcatSnoc(Chunks(env), s.next);
    assert Payload(s.log) + [] == Payload(s.log);
    assert Consumed(env, t) == Consumed(env, s) + Chunks(env)[s.next];
    LogHolds(env, t);
  }

  lemma LogOnLastChunk(env: Env, s: State)
    requires ControlOk(env, s) && LogOk(env, s) && s.phase.Relaying? && s.next == |Chunks(env)|
    ensures ControlOk(env, OnChunk(env, s)) && LogOk(env, OnChunk(env, s))
  {
    ControlOnChunk(env, s);
    FlagsOfLog(env, s);
    LogHolds(env, OnChunk(env, s));
  }

  lemma LogOnChunk(env: Env, s: State)
    requires ControlOk(env, s) && LogOk(env, s) && s.phase.Relaying?
    ensures ControlOk(env, OnChunk(env, s)) && LogOk(env, OnChunk(env, s))
  {
    if s.next < |Chunks(env)| {
      LogOnNextChunk(env, s);
    } else {
      LogOnLastChunk(env, s);
    }
  }

  lemma LogOnUpstream(env: Env, s: State)
    requires ControlOk(env, s) && LogOk(env, s) && Polling(s.phase) && !s.phase.Relaying?
    ensures ControlOk(env, OnUpstream(env, s)) && LogOk(env, OnUpstream(env, s))
  {
    ControlOnUpstream(env, s);
    FlagsOfLog(env, s);
    assert Chunks(env)[..0] == [];
  }

  /** An accepted frame ends the log in one of the allowed ways. */
  lemma LogAppend(env: Env, s: State, e: Entry)
    requires ControlOk(env, s) && LogOk(env, s) && s.phase.Writing? && s.alive
    requires e.tag == s.phase.tag && e.bytes == s.phase.bytes
    ensures var log := s.log + [e];
      && Payload(log) == Consumed(env, s)
      && (e.tag in {Heartbeat, Data} ==> Paced(log))
      && (e.tag == Terminator ==> Terminated(log))
      && (e.tag == Error ==> EndsInError(env, log))
  {
    LogSnoc(s.log, e);
    assert (s.log + [e])[..|s.log|] == s.log;
    assert Payload(s.log) + [] == Payload(s.log);
    if Pending(s) == [] {
      FlagsOfLog(env, s);
    }
  }

  lemma FormOnWritten(env: Env, s: State)
    requires ControlOk(env, s) && LogOk(env, s) && Enabled(env, s, WriteCompletes)
    ensures LogForm(env, OnWritten(env, s))
  {
    LogAppend(env, s, NewEntry(s));
    var log := s.log + [NewEntry(s)];
    match s.phase.andThen
    case Finish => assert EndsInError(env, log);
    case SendError => assert Terminated(log);
    case _ => assert Paced(log);
  }

  lemma LogOnWritten(env: Env, s: State)
    requires ControlOk(env, s) && LogOk(env, s) && Enabled(env, s, WriteCompletes)
    ensures ControlOk(env, OnWritten(env, s)) && LogOk(env, OnWritten(env, s))
  {
    var t := OnWritten(env, s);
    ControlStep(env, s, WriteCompletes);
    FormOnWritten(env, s);
    LogAppend(env, s, NewEntry(s));
    assert Pending(t) == [] && Payload(t.log) + [] == Payload(t.log);
    LogHolds(env, t);
  }

  lemma LogOnWriteError(env: Env, s: State)
    requires ControlOk(env, s) && LogOk(env, s) && Enabled(env, s, WriteFails)
    ensures ControlOk(env, OnWriteError(env, s)) && LogOk(env, OnWriteError(env, s))
  {
    ControlStep(env, s, WriteFails);
    assert Payload(s.log) + [] == Payload(s.log);
  }

  /** Time and the client do not touch the log. */
  lemma LogOnOther(env: Env, s: State, l: Label)
    requires ControlOk(env, s) && LogOk(env, s) && Enabled(env, s, l) && l in {Tick, ClientReads, ClientLeaves}
    ensures ControlOk(env, Take(env, s, l)) && LogOk(env, Take(env, s, l))
  {
    ControlStep(env, s, l);
  }

  lemma LogStep(env: Env, s: State, l: Label)
    requires ControlOk(env, s) && LogOk(env, s) && Enabled(env, s, l)
    ensures ControlOk(env, Take(env, s, l)) && LogOk(env, Take(env, s, l))
  {
    match l
    case TimerFires => LogOnTimer(env, s);
    case UpstreamReady =>
      if s.phase.Relaying? {
        LogOnChunk(env, s);
      } else {
        LogOnUpstream(env, s);
      }
    case WriteCompletes => LogOnWritten(env, s);
    case WriteFails => LogOnWriteError(env, s);
    case _ => LogOnOther(env, s, l);
  }

  // ===== The channel =====

  /** Everything written has been delivered or is queued, in order, as long as the client is there. */
  predicate ChannelOk(s: State) {
    && |s.queue| <= CAPACITY
    && (s.alive ==> s.delivered + s.queue == s.log)
    && (!s.alive ==> s.delivered <= s.log && s.queue == [])
    && (s.phase in {Done(ClientGone), Done(Abandoned)} ==> !s.alive)
  }

  lemma ChannelOnWritten(env: Env, s: State)
    requires ChannelOk(s) && Enabled(env, s, WriteCompletes)
    ensures ChannelOk(OnWritten(env, s))
  {
    var e := NewEntry(s);
    assert s.delivered + (s.queue + [e]) == (s.delivered + s.queue) + [e];
  }

  lemma ChannelStep(env: Env, s: State, l: Label)
    requires ChannelOk(s) && Enabled(env, s, l)
    ensures ChannelOk(Take(env, s, l))
  {
    match l
    case WriteCompletes => ChannelOnWritten(env, s);
    case ClientReads =>
      assert s.queue == [s.queue[0]] + s.queue[1..];
      assert (s.delivered + [s.queue[0]]) + s.queue[1..] == s.delivered + s.queue;
    case ClientLeaves => assert s.delivered <= s.delivered + s.queue;
    case _ =>
  }

  // ===== Time =====

  /** When the entry after this log was preceded by a write, or by the response head. */
  function LastAt(start: nat, log: seq<Entry>): nat {
    if log == [] then start else log[|log| - 1].at
  }

  /** When the last frame was accepted, or the response head was sent. */
  function LastWrite(s: State): nat {
    LastAt(s.start, s.log)
  }

  /** The deadline of the k-th firing that finds the stream inside an event. */
  function Due(env: Env, s: State, k: nat): nat {
    LastWrite(s) + k * env.interval + env.interval
  }

  predicate TimeOk(env: Env, s: State) {
    match s.phase
    case Racing => s.start == 0 && s.log == [] && s.skips == 0 && s.now <= s.deadline == env.interval
    case Done(_) => true
    case Writing(tag, _, since, _) =>
      && LastWrite(s) <= since <= s.now
      && (tag != Error ==> since <= Due(env, s, s.skips))
      && (tag == Heartbeat ==> since == Due(env, s, 0))
      && (s.skips > 0 && s.flags.atBoundary ==> tag == Data)
    case _ =>
      && LastWrite(s) <= s.now <= s.deadline == Due(env, s, s.skips)
      && s.deadline <= s.now + env.interval
      && (s.skips > 0 ==> s.phase.Relaying? && !s.flags.atBoundary)
  }

  lemma NextDue(env: Env, s: State)
    ensures Due(env, s, s.skips + 1) == Due(env, s, s.skips) + env.interval
    ensures Due(env, s, 0) == LastWrite(s) + env.interval
  {
  }

  lemma TimeOnTimer(env: Env, s: State)
    requires TimeOk(env, s) && ControlOk(env, s) && Enabled(env, s, TimerFires)
    ensures TimeOk(env, OnTimer(env, s))
  {
    NextDue(env, s);
  }

  lemma TimeOnAnswer(env: Env, s: State)
    requires TimeOk(env, s) && s.phase.Racing? && s.flags == INITIAL
    ensures TimeOk(env, Answered(env, s))
  {
  }

  lemma TimeOnUpstream(env: Env, s: State)
    requires TimeOk(env, s) && ControlOk(env, s) && Polling(s.phase)
    ensures TimeOk(env, OnUpstream(env, s))
  {
    if s.phase.Racing? {
      assert Chunks(env)[..0] == [];
      TimeOnAnswer(env, s);
    }
  }

  lemma TimeOnWritten(env: Env, s: State)
    requires TimeOk(env, s) && ControlOk(env, s) && Enabled(env, s, WriteCompletes)
    ensures TimeOk(env, OnWritten(env, s))
  {
    NextDue(env, OnWritten(env, s));
  }

  lemma TimeStep(env: Env, s: State, l: Label)
    requires TimeOk(env, s) && ControlOk(env, s) && Enabled(env, s, l)
    ensures TimeOk(env, Take(env, s, l))
  {
    match l
    case TimerFires => TimeOnTimer(env, s);
    case UpstreamReady => TimeOnUpstream(env, s);
    case WriteCompletes => TimeOnWritten(env, s);
    case _ =>
  }

  // ===== Rhythm of the log =====

  /** Every heartbeat was accepted one interval after the write before it, plus what it waited for
      room; no entry was accepted earlier than it was offered. */
  predicate Rhythm(interval: nat, start: nat, log: seq<Entry>) {
    log == [] ||
    var init, e := log[..|log| - 1], log[|log| - 1];
    && Rhythm(interval, start, init)
    && LastAt(start, init) + e.waited <= e.at
    && (e.tag == Heartbeat ==> e.at == LastAt(start, init) + interval + e.waited)
  }

  lemma RhythmOnWritten(env: Env, s: State)
    requires Rhythm(env.interval, s.start, s.log) && TimeOk(env, s) && s.phase.Writing?
    ensures Rhythm(env.interval, s.start, s.log + [NewEntry(s)])
  {
    assert (s.log + [NewEntry(s)])[..|s.log|] == s.log;
    NextDue(env, s);
  }

  /** Only an accepted frame extends the log, and the task's clock starts before there is one. */
  lemma LogGrowth(env: Env, s: State, l: Label)
    requires Enabled(env, s, l)
    ensures var t := Take(env, s, l);
      && t.log == (if l.WriteCompletes? then s.log + [NewEntry(s)] else s.log)
      && (t.start == s.start || s.phase.Racing?)
  {
  }

  lemma RhythmStep(env: Env, s: State, l: Label)
    requires Rhythm(env.interval, s.start, s.log) && TimeOk(env, s) && Enabled(env, s, l)
    ensures Rhythm(env.interval, Take(env, s, l).start, Take(env, s, l).log)
  {
    LogGrowth(env, s, l);
    if l.WriteCompletes? {
      RhythmOnWritten(env, s);
    }
  }

  // ===== Response heads =====

  predicate HeadsOk(env: Env, s: State) {
    if s.phase.Racing? || s.phase == Done(Abandoned) then s.heads == []
    else
      && |s.heads| == 1
      && var head := s.heads[0];
      match head.origin
      case OwnStream =>
        && head.status == 200 && head.fields == OWN_FIELDS
        && s.phase != Done(HandedOver) && s.start == env.interval
      case BridgedStream =>
        && Decodable(env) && IsEventStream(env.upstream.fields)
        && head.status == env.upstream.status && head.fields == BridgedFields(env.upstream.fields)
        && s.phase != Done(HandedOver) && !s.phase.Awaiting? && !s.phase.Collecting? && s.start <= env.interval
        && (s.phase.Writing? ==> s.phase.andThen !in {Await, Collect})
      case PassedThrough =>
        && env.upstream.Responds?
        && !(Decodable(env) && IsEventStream(env.upstream.fields))
        && head.status == env.upstream.status && head.fields == Stripped(env.upstream.fields)
        && s.phase == Done(HandedOver)
      case GatewayError =>
        && env.upstream.Unreachable?
        && head.status == 502 && head.fields == BAD_GATEWAY_FIELDS
        && s.phase == Done(HandedOver)
  }

  lemma HeadsOnAnswer(env: Env, s: State)
    requires HeadsOk(env, s) && TimeOk(env, s) && ControlOk(env, s) && s.phase.Racing?
    ensures HeadsOk(env, Answered(env, s))
  {
  }

  lemma HeadsOnUpstream(env: Env, s: State)
    requires HeadsOk(env, s) && ControlOk(env, s) && TimeOk(env, s) && Polling(s.phase)
    ensures HeadsOk(env, OnUpstream(env, s))
  {
    if s.phase.Racing? {
      HeadsOnAnswer(env, s);
    }
  }

  lemma HeadsOnTimer(env: Env, s: State)
    requires HeadsOk(env, s) && ControlOk(env, s) && TimeOk(env, s) && Enabled(env, s, TimerFires)
    ensures HeadsOk(env, OnTimer(env, s))
  {
  }

  lemma HeadsStep(env: Env, s: State, l: Label)
    requires HeadsOk(env, s) && ControlOk(env, s) && TimeOk(env, s) && Enabled(env, s, l)
    ensures HeadsOk(env, Take(env, s, l))
  {
    match l
    case UpstreamReady => HeadsOnUpstream(env, s);
    case TimerFires => HeadsOnTimer(env, s);
    case _ =>
  }

  // ===== All of them, in every reachable state =====

  predicate Invariant(env: Env, s: State) {
    && ControlOk(env, s)
    && LogOk(env, s)
    && ChannelOk(s)
    && TimeOk(env, s)
    && HeadsOk(env, s)
    && Rhythm(env.interval, s.start, s.log)
  }

  lemma InvariantStep(env: Env, s: State, l: Label)
    requires Invariant(env, s) && Enabled(env, s, l)
    ensures Invariant(env, Take(env, s, l))
  {
    LogStep(env, s, l);
    ChannelStep(env, s, l);
    TimeStep(env, s, l);
    HeadsStep(env, s, l);
    RhythmStep(env, s, l);
  }

  /** Every state of every run. */
  lemma {:induction false} Reachable(env: Env, run: Run, k: nat)
    requires IsRun(env, run) && k < |run.states|
    ensures Invariant(env, run.states[k])
  {
    if k == 0 {
      assert Chunks(env)[..0] == [];
    } else {
      Reachable(env, run, k - 1);
      InvariantStep(env, run.states[k - 1], run.labels[k - 1]);
    }
  }
}
