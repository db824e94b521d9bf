/** The bridging protocol of sse.rs as a labelled transition system over discrete time: the commit
    race, the three select loops, the bounded channel and a client that may vanish.

    A `select!` is a choice among the branches that are ready. The body of the chosen branch runs to
    the end of its awaited write before the next poll, so a pending write is a phase of its own.
    Time passes only while every party waits: not past an expired timer that is being polled, and
    not while a frame could be accepted. */
module Bridge {
  import opened ByteStrings
  import opened Tracker
  import opened Transparency
  import opened Headers
  import opened Encoding

  const CAPACITY := 16

  datatype StreamEnd = CleanEof | Broken

  /** What the upstream will do; when it does it is left to the run. `chunks` are the decoded frames
      of a 2xx body. */
  datatype Upstream =
    | Unreachable
    | Responds(status: nat, fields: Fields, chunks: seq<Bytes>, end: StreamEnd)

  /** `errorFrame` is the one error event this request can end in. */
  datatype Env = Env(interval: nat, upstream: Upstream, errorFrame: Bytes)

  datatype Origin = OwnStream | BridgedStream | PassedThrough | GatewayError
  datatype Head = Head(origin: Origin, status: nat, fields: Fields)

  datatype Then = Await | Relay | Collect | SendError | Finish
  datatype Outcome = Abandoned | HandedOver | CleanEnd | ErrorSent | ClientGone

  datatype Phase =
    | Racing
    | Awaiting
    | Relaying
    | Collecting
    | Writing(tag: Tag, bytes: Bytes, since: nat, andThen: Then)
    | Done(outcome: Outcome)

  datatype State = State(
    now: nat,
    deadline: nat,
    phase: Phase,
    flags: Flags,
    next: nat,
    skips: nat,
    log: seq<Entry>,
    queue: seq<Entry>,
    delivered: seq<Entry>,
    alive: bool,
    heads: seq<Head>,
    start: nat)

  datatype Label = Tick | TimerFires | UpstreamReady | WriteCompletes | WriteFails | ClientReads | ClientLeaves

  // ===== Response heads =====

  predicate IsSuccess(status: nat) {
    200 <= status < 300
  }

  const CHARSET: Bytes := "; charset=utf-8"
  const OWN_TYPE: Bytes := EVENT_STREAM + CHARSET
  const OWN_FIELDS: Fields := map[
    CONTENT_TYPE := [OWN_TYPE],
    CACHE_CONTROL := ["no-cache"],
    ACCEL_BUFFERING := ["no"]]

  const BAD_GATEWAY_FIELDS: Fields := map[CONTENT_TYPE := [JSON_TYPE]]

  function BridgedFields(h: Fields): Fields {
    (Stripped(h) - {CONTENT_LENGTH} - {CONTENT_ENCODING})[ACCEL_BUFFERING := ["no"]]
  }

  /** A 2xx response whose body can be decoded. */
  predicate Decodable(env: Env) {
    && env.upstream.Responds?
    && IsSuccess(env.upstream.status)
    && ParseContentEncoding(env.upstream.fields).Some?
  }

  function Chunks(env: Env): seq<Bytes> {
    if env.upstream.Responds? then env.upstream.chunks else []
  }

  // ===== Steps =====

  function Initially(env: Env): State {
    State(0, env.interval, Racing, INITIAL, 0, 0, [], [], [], true, [], 0)
  }

  predicate Polling(p: Phase) {
    p.Racing? || p.Awaiting? || p.Relaying? || p.Collecting?
  }

  predicate Enabled(env: Env, s: State, l: Label) {
    match l
    case Tick =>
      if Polling(s.phase) then s.now < s.deadline
      else s.phase.Writing? ==> s.alive && |s.queue| >= CAPACITY
    case TimerFires => Polling(s.phase) && s.now >= s.deadline
    case UpstreamReady => Polling(s.phase)
    case WriteCompletes => s.phase.Writing? && s.alive && |s.queue| < CAPACITY
    case WriteFails => s.phase.Writing? && !s.alive
    case ClientReads => s.alive && s.queue != []
    case ClientLeaves => s.alive
  }

  function Write(s: State, tag: Tag, bytes: Bytes, andThen: Then): State {
    s.(phase := Writing(tag, bytes, s.now, andThen))
  }

  /** The failure branches of handle_success. */
  function Fail(env: Env, s: State): State {
    if !s.flags.atBoundary then Write(s, Terminator, BLANK_LINES, SendError)
    else Write(s, Error, env.errorFrame, Finish)
  }

  /** handle_success up to its loop. */
  function EnterSuccess(env: Env, s: State, coding: Option<Coding>): State {
    var t := s.(flags := INITIAL);
    if coding.None? then Fail(env, t) else t.(phase := Relaying)
  }

  function Commit(s: State, head: Head): State {
    s.(heads := s.heads + [head])
  }

  /** An event stream begins: its head is sent, and the clock of the task starts. */
  function Open(env: Env, s: State, head: Head): State {
    Commit(s, head).(start := s.now, deadline := s.now + env.interval)
  }

  /** The upstream answers within the window. */
  function Answered(env: Env, s: State): State {
    match env.upstream
    case Unreachable => Commit(s, Head(GatewayError, 502, BAD_GATEWAY_FIELDS)).(phase := Done(HandedOver))
    case Responds(status, fields, _, _) =>
      var coding := ParseContentEncoding(fields);
      if IsSuccess(status) && IsEventStream(fields) && coding.Some? then
        EnterSuccess(env, Open(env, s, Head(BridgedStream, status, BridgedFields(fields))), coding)
      else
        Commit(s, Head(PassedThrough, status, Stripped(fields))).(phase := Done(HandedOver))
  }

  /** The window expires first. */
  function Expired(env: Env, s: State): State {
    Open(env, s, Head(OwnStream, 200, OWN_FIELDS)).(phase := Awaiting)
  }

  function OnTimer(env: Env, s: State): State
    requires Polling(s.phase)
  {
    match s.phase
    case Racing => Expired(env, s)
    case Awaiting => Write(s, Heartbeat, HEARTBEAT, Await)
    case Collecting => Write(s, Heartbeat, HEARTBEAT, Collect)
    case Relaying =>
      if s.flags.atBoundary then Write(s, Heartbeat, HEARTBEAT, Relay)
      else s.(deadline := s.now + env.interval, skips := s.skips + 1)
  }

  function OnChunk(env: Env, s: State): State {
    var chunks := Chunks(env);
    if s.next < |chunks| then
      Write(s.(flags := StepAll(s.flags, chunks[s.next]), next := s.next + 1), Data, chunks[s.next], Relay)
    else if env.upstream.Responds? && env.upstream.end.Broken? then
      Fail(env, s)
    else
      s.(phase := Done(CleanEnd))
  }

  function OnUpstream(env: Env, s: State): State
    requires Polling(s.phase)
  {
    match s.phase
    case Racing => Answered(env, s)
    case Awaiting =>
      (match env.upstream
       case Unreachable => Write(s, Error, env.errorFrame, Finish)
       case Responds(status, fields, _, _) =>
         if IsSuccess(status) then EnterSuccess(env, s, ParseContentEncoding(fields))
         else s.(phase := Collecting))
    case Relaying => OnChunk(env, s)
    case Collecting => Write(s, Error, env.errorFrame, Finish)
  }

  function Resume(env: Env, s: State, p: Phase): State {
    s.(phase := p, deadline := s.now + env.interval, skips := 0)
  }

  /** The pending frame, accepted now. */
  function NewEntry(s: State): Entry
    requires s.phase.Writing?
  {
    Entry(s.phase.tag, s.phase.bytes, s.now, if s.phase.since <= s.now then s.now - s.phase.since else 0)
  }

  /** What follows an accepted frame. */
  function GoOn(env: Env, s: State): State
    requires s.phase.Writing?
  {
    match s.phase.andThen
    case Await => Resume(env, s, Awaiting)
    case Relay => Resume(env, s, Relaying)
    case Collect => Resume(env, s, Collecting)
    case SendError => Write(s, Error, env.errorFrame, Finish)
    case Finish => s.(phase := Done(ErrorSent))
  }

  function OnWritten(env: Env, s: State): State
    requires s.phase.Writing?
  {
    GoOn(env, s.(log := s.log + [NewEntry(s)], queue := s.queue + [NewEntry(s)]))
  }

  /** A failed terminator is ignored and the error is still attempted; any other failure ends the task. */
  function OnWriteError(env: Env, s: State): State
    requires s.phase.Writing?
  {
    if s.phase.andThen.SendError? then Write(s, Error, env.errorFrame, Finish)
    else s.(phase := Done(ClientGone))
  }

  function Take(env: Env, s: State, l: Label): State
    requires Enabled(env, s, l)
  {
    match l
    case Tick => s.(now := s.now + 1)
    case TimerFires => OnTimer(env, s)
    case UpstreamReady => OnUpstream(env, s)
    case WriteCompletes => OnWritten(env, s)
    case WriteFails => OnWriteError(env, s)
    case ClientReads => s.(delivered := s.delivered + [s.queue[0]], queue := s.queue[1..])
    case ClientLeaves =>
      s.(alive := false, queue := [], phase := if s.phase.Racing? then Done(Abandoned) else s.phase)
  }

  // ===== Runs =====

  /** A run: the labels taken, each enabled when it was taken, and the states passed through. */
  datatype Run = Run(labels: seq<Label>, states: seq<State>)

  predicate IsRun(env: Env, run: Run) {
    && |run.states| == |run.labels| + 1
    && run.states[0] == Initially(env)
    && forall i :: 0 <= i < |run.labels| ==>
         Enabled(env, run.states[i], run.labels[i])
         && run.states[i + 1] == Take(env, run.states[i], run.labels[i])
  }

  function EndOf(run: Run): State
    requires |run.states| == |run.labels| + 1
  {
    run.states[|run.labels|]
  }

  /** A run and one more step. */
  function Onward(env: Env, run: Run, l: Label): Run
    requires IsRun(env, run) && Enabled(env, EndOf(run), l)
  {
    Run(run.labels + [l], run.states + [Take(env, EndOf(run), l)])
  }

  lemma RunGrows(env: Env, run: Run, l: Label)
    requires IsRun(env, run) && Enabled(env, EndOf(run), l)
    ensures IsRun(env, Onward(env, run, l))
    ensures EndOf(Onward(env, run, l)) == Take(env, EndOf(run), l)
  {
  }

  // ===== Schedules =====

  /** A label proposed to a task: taken if it is enabled, ignored if it is not or the task is done. */
  function Perform(env: Env, s: State, l: Label): State {
    if !s.phase.Done? && Enabled(env, s, l) then Take(env, s, l) else s
  }

  /** Where a whole schedule of proposals leads. */
  function Performed(env: Env, schedule: seq<Label>): State {
    if schedule == [] then Initially(env)
    else Perform(env, Performed(env, schedule[..|schedule| - 1]), schedule[|schedule| - 1])
  }

  /** Every run of a task is performed by proposing its own labels. */
  lemma {:induction false} RunIsPerformed(env: Env, run: Run, k: nat)
    requires IsRun(env, run) && k < |run.states|
    requires forall i :: 0 <= i < k ==> !run.states[i].phase.Done?
    ensures Performed(env, run.labels[..k]) == run.states[k]
  {
    if k == 0 {
    } else {
      RunIsPerformed(env, run, k - 1);
      assert run.labels[..k][..k - 1] == run.labels[..k - 1];
    }
  }
}
