/** handle_stream, bridge, handle_success and handle_error as the loops they are, over a real tracker
    and a bounded channel. A schedule supplied from outside proposes what happens at every await. The
    methods are proved to end exactly where the protocol leads under that schedule, so everything
    proved about the runs of `Bridge` holds of them. */
module Sessions {
  import opened ByteStrings
  import opened Tracker
  import opened Transparency
  import opened Headers
  import opened Encoding
  import opened Bridge
  import opened Requests
  import E = ErrorEvent

  /** How a poll or a send comes back. `Suspended` and `Waiting`: the schedule is used up. */
  datatype Ready = Timer | Arrival | ClientLeft | Suspended
  datatype Sent = Written | Gone | Waiting

  /** The states along a schedule. */
  ghost predicate IsCourse(env: Env, script: seq<Label>, course: seq<State>) {
    && |course| == |script| + 1
    && course[0] == Initially(env)
    && forall i :: 0 <= i < |script| ==> course[i + 1] == Perform(env, course[i], script[i])
  }

  ghost function CourseOf(env: Env, script: seq<Label>): (course: seq<State>)
    ensures IsCourse(env, script, course)
  {
    if script == [] then [Initially(env)]
    else
      var course := CourseOf(env, script[..|script| - 1]);
      course + [Perform(env, course[|script| - 1], script[|script| - 1])]
  }

  lemma {:induction false} CourseIsPerformed(env: Env, script: seq<Label>, course: seq<State>, k: nat)
    requires IsCourse(env, script, course) && k <= |script|
    ensures course[k] == Performed(env, script[..k])
  {
    if k == 0 {
    } else {
      CourseIsPerformed(env, script, course, k - 1);
      assert script[..k][..k - 1] == script[..k - 1];
    }
  }

  lemma {:induction false} DoneStays(env: Env, script: seq<Label>, course: seq<State>, k: nat, m: nat)
    requires IsCourse(env, script, course) && k <= m <= |script| && course[k].phase.Done?
    ensures course[m] == course[k]
  {
    if k == m {
    } else {
      DoneStays(env, script, course, k, m - 1);
    }
  }

  /** The upstream's fields without those of its connection, its length and its coding. */
  method BridgedHeaders(fields: Fields) returns (kept: Fields)
    ensures kept == BridgedFields(fields)
  {
    var headers := new HeaderMap(fields);
    StripHopByHop(headers);
    headers.Remove(CONTENT_LENGTH);
    headers.Remove(CONTENT_ENCODING);
    headers.fields := headers.fields[ACCEL_BUFFERING := ["no"]];
    return headers.fields;
  }

  class Session {
    const request: Request
    ghost const env: Env
    var schedule: seq<Label>

    var now: nat
    var deadline: nat
    var tracker: EventBoundaryTracker
    var next: nat
    var queue: seq<Entry>
    var alive: bool
    var heads: seq<Head>

    // History: what was written, delivered and skipped, since when, and by which run.
    ghost var log: seq<Entry>
    ghost var delivered: seq<Entry>
    ghost var skips: nat
    ghost var start: nat
    ghost var run: Run

    // The whole schedule, and where it leads.
    ghost const script: seq<Label>
    ghost const course: seq<State>

    /** The protocol state of a session that is about to continue in phase p. */
    ghost function View(p: Phase): State
      reads this, tracker
    {
      State(now, deadline, p, tracker.View(), next, skips, log, queue, delivered, alive, heads, start)
    }

    /** What was done so far is a run, and what is still proposed is the rest of the script. */
    ghost predicate Follows()
      reads this
    {
      && env.interval == request.interval && env.upstream == request.upstream
      && IsRun(env, run)
      && IsCourse(env, script, course)
      && |schedule| <= |script| && schedule == script[|script| - |schedule|..]
    }

    /** What the request is reported by, if it fails, is the error event of the environment. */
    ghost predicate Serves() {
      forall frame :: Reports(request, frame) ==> frame == env.errorFrame
    }

    ghost function Last(): State
      requires Follows()
      reads this
    {
      EndOf(run)
    }

    /** Where the script leads up to here. */
    ghost function Expected(): State
      requires Follows()
      reads this
    {
      course[|script| - |schedule|]
    }

    /** The session stands where its run ends, which is where the script leads. */
    ghost predicate At(p: Phase)
      reads this, tracker
    {
      Follows() && Last() == Expected() == View(p)
    }

    /** Label l was drawn from the schedule and has not been acted upon. */
    ghost predicate Facing(l: Label, p: Phase)
      reads this, tracker
    {
      Follows() && Last() == View(p) && Expected() == Perform(env, Last(), l)
    }

    /** Step l was chosen and leads on as the script does; it is still to be carried out. */
    ghost predicate Owes(l: Label)
      reads this
    {
      Follows() && IsRun(env, Run(run.labels + [l], run.states + [Expected()]))
    }

    constructor (request: Request, schedule: seq<Label>)
      ensures this.request == request && env == EnvOf(request) && script == schedule
      ensures Serves() && At(Racing) && fresh(tracker)
    {
      this.request, this.schedule := request, schedule;
      env := EnvOf(request);
      now, deadline := 0, request.interval;
      tracker := new EventBoundaryTracker();
      next, queue, alive, heads := 0, [], true, [];
      log, delivered, skips, start := [], [], 0, 0;
      run := Run([], [Initially(EnvOf(request))]);
      script, course := schedule, CourseOf(EnvOf(request), schedule);
    }

    /** A step that is enabled is owed when it is proposed. */
    lemma Chosen(l: Label, p: Phase)
      requires Facing(l, p) && !p.Done? && Enabled(env, View(p), l)
      ensures Owes(l) && Expected() == Take(env, View(p), l)
    {
      RunGrows(env, run, l);
    }

    /** The step has been carried out; the session continues in phase p. */
    ghost method Record(l: Label, p: Phase)
      requires Owes(l) && Expected() == View(p)
      modifies this`run
      ensures At(p)
    {
      run := Run(run.labels + [l], run.states + [View(p)]);
    }

    /** The next proposal. */
    method Draw(ghost p: Phase) returns (l: Label)
      requires At(p) && schedule != []
      modifies this`schedule
      ensures Facing(l, p) && |schedule| == |old(schedule)| - 1
    {
      l := schedule[0];
      schedule := schedule[1..];
    }

    /** Time, the reading client and the leaving client, while the task waits in phase p. */
    method Environment(l: Label, mayWait: bool, ghost p: Phase)
      requires Facing(l, p) && !p.Done? && l in {Tick, ClientReads, ClientLeaves}
      requires mayWait == Enabled(env, View(p), Tick)
      requires p.Racing? ==> l != ClientLeaves
      modifies this`now, this`queue, this`alive, this`delivered, this`run
      ensures At(p) && now >= old(now)
    {
      match l
      case Tick =>
        if mayWait {
          Chosen(l, p);
          now := now + 1;
          Record(Tick, p);
        }
      case ClientReads =>
        if alive && queue != [] {
          Chosen(l, p);
          delivered := delivered + [queue[0]];
          queue := queue[1..];
          Record(ClientReads, p);
        }
      case ClientLeaves =>
        if alive {
          Chosen(l, p);
          alive, queue := false, [];
          Record(ClientLeaves, p);
        }
    }

    /** `select!` between the timer and the upstream. The step of the branch it chooses is owed. */
    method Select(racing: bool, ghost p: Phase) returns (r: Ready)
      requires At(p) && Polling(p) && racing == p.Racing?
      modifies this`schedule, this`now, this`queue, this`alive, this`delivered, this`run
      ensures match r
        case Timer => Owes(TimerFires) && Expected() == OnTimer(env, View(p)) && now >= deadline
        case Arrival => Owes(UpstreamReady) && Expected() == OnUpstream(env, View(p))
        case ClientLeft =>
          racing && Owes(ClientLeaves) && Expected() == View(p).(alive := false, queue := [], phase := Done(Abandoned))
        case Suspended => At(p) && schedule == []
      ensures !r.Suspended? ==> |schedule| < |old(schedule)|
    {
      while schedule != []
        invariant At(p)
        invariant |schedule| <= |old(schedule)|
        decreases |schedule|
      {
        var l := Draw(p);
        if l == TimerFires && now >= deadline {
          Chosen(l, p);
          return Timer;
        } else if l == UpstreamReady {
          Chosen(l, p);
          return Arrival;
        } else if l == ClientLeaves && racing {
          if alive {
            Chosen(l, p);
            return ClientLeft;
          }
        } else if l in {Tick, ClientReads, ClientLeaves} {
          Environment(l, now < deadline, p);
        }
      }
      return Suspended;
    }

    /** The channel has room for the frame. */
    method Accept(tag: Tag, bytes: Bytes, since: nat, ghost andThen: Then)
      requires Facing(WriteCompletes, Writing(tag, bytes, since, andThen)) && since <= now
      requires alive && |queue| < CAPACITY
      modifies this`queue, this`log
      ensures Owes(WriteCompletes) && Expected() == GoOn(env, View(Writing(tag, bytes, since, andThen)))
      ensures log == old(log) + [Entry(tag, bytes, now, now - since)]
    {
      Chosen(WriteCompletes, Writing(tag, bytes, since, andThen));
      var e := Entry(tag, bytes, now, now - since);
      log := log + [e];
      queue := queue + [e];
    }

    /** Waits for room in the channel, or for the news that the client is gone. */
    method AwaitRoom(ghost p: Phase) returns (sent: Sent)
      requires At(p) && p.Writing? && p.since <= now
      modifies this`schedule, this`now, this`queue, this`alive, this`delivered, this`run
      ensures |schedule| <= |old(schedule)| && now >= old(now)
      ensures match sent
        case Written => Facing(WriteCompletes, p) && alive && |queue| < CAPACITY
        case Gone => Owes(WriteFails) && Expected() == OnWriteError(env, View(p))
        case Waiting => At(p) && schedule == []
    {
      while schedule != []
        invariant At(p) && old(now) <= now
        invariant |schedule| <= |old(schedule)|
        decreases |schedule|
      {
        var next := Draw(p);
        if next == WriteCompletes && alive && |queue| < CAPACITY {
          return Written;
        } else if next == WriteFails && !alive {
          Chosen(next, p);
          return Gone;
        } else if next in {Tick, ClientReads, ClientLeaves} {
          Environment(next, alive && |queue| >= CAPACITY, p);
        }
      }
      return Waiting;
    }

    /** SseWriter::write_event. */
    method WriteEvent(tag: Tag, bytes: Bytes, ghost andThen: Then) returns (sent: Sent)
      requires At(Writing(tag, bytes, now, andThen))
      modifies this`schedule, this`now, this`queue, this`alive, this`delivered, this`run, this`log
      ensures |schedule| <= |old(schedule)| && now >= old(now)
      ensures log == if sent.Written? then old(log) + [Entry(tag, bytes, now, now - old(now))] else old(log)
      ensures var p := Writing(tag, bytes, old(now), andThen);
        match sent
        case Written => Owes(WriteCompletes) && Expected() == GoOn(env, View(p))
        case Gone => Owes(WriteFails) && Expected() == OnWriteError(env, View(p))
        case Waiting => At(p) && schedule == []
    {
      var since := now;
      sent := AwaitRoom(Writing(tag, bytes, since, andThen));
      if sent.Written? {
        Accept(tag, bytes, since, andThen);
      }
    }

    /** The loop that goes on after such a write. */
    ghost predicate Resumes(andThen: Then, back: Phase) {
      match andThen
      case Await => back == Awaiting
      case Relay => back == Relaying
      case Collect => back == Collecting
      case _ => false
    }

    /** The task has come to its end, or as far as the schedule goes. */
    ghost predicate Ends(p: Phase)
      reads this, tracker
    {
      At(p) && (p.Done? || schedule == [])
    }

    /** The write failed, and the task ends with it. */
    ghost method GiveUp(p: Phase)
      requires p.Writing? && !p.andThen.SendError?
      requires Owes(WriteFails) && Expected() == OnWriteError(env, View(p))
      modifies this`run
      ensures At(Done(ClientGone))
    {
      Record(WriteFails, Done(ClientGone));
    }

    /** The write succeeded: the timer starts again, and the loop goes on. */
    method RestartTimer(ghost p: Phase, ghost back: Phase)
      requires p.Writing? && Resumes(p.andThen, back)
      requires Owes(WriteCompletes) && Expected() == GoOn(env, View(p))
      modifies this`deadline, this`skips, this`run
      ensures At(back)
    {
      deadline, skips := now + request.interval, 0;
      Record(WriteCompletes, back);
    }

    /** A heartbeat or a chunk inside a loop: write it, then restart the timer. */
    method WriteAndReset(tag: Tag, bytes: Bytes, ghost andThen: Then, ghost back: Phase)
      returns (more: bool, ghost p: Phase)
      requires At(Writing(tag, bytes, now, andThen)) && Resumes(andThen, back)
      modifies this`schedule, this`now, this`queue, this`alive, this`delivered, this`run, this`log
      modifies this`deadline, this`skips
      ensures |schedule| <= |old(schedule)|
      ensures if more then At(p) && p == back else Ends(p)
    {
      p := Writing(tag, bytes, now, andThen);
      var sent := WriteEvent(tag, bytes, andThen);
      more := sent.Written?;
      match sent
      case Waiting =>
      case Gone =>
        GiveUp(p);
        p := Done(ClientGone);
      case Written =>
        RestartTimer(p, back);
        p := back;
    }

    /** The error event that ends the task. */
    method WriteError(frame: Bytes) returns (ghost p: Phase)
      requires At(Writing(Error, frame, now, Finish))
      modifies this`schedule, this`now, this`queue, this`alive, this`delivered, this`run, this`log
      ensures Ends(p) && |schedule| <= |old(schedule)|
    {
      p := Writing(Error, frame, now, Finish);
      var sent := WriteEvent(Error, frame, Finish);
      match sent
      case Waiting =>
      case Gone =>
        GiveUp(p);
        p := Done(ClientGone);
      case Written =>
        p := Done(ErrorSent);
        Record(WriteCompletes, p);
    }

    /** Two line feeds, to close a cut-off event. Whether they arrive does not matter. */
    method WriteTerminator() returns (pending: bool, ghost p: Phase)
      requires At(Writing(Terminator, BLANK_LINES, now, SendError))
      modifies this`schedule, this`now, this`queue, this`alive, this`delivered, this`run, this`log
      ensures |schedule| <= |old(schedule)|
      ensures if pending then Ends(p) else At(Writing(Error, env.errorFrame, now, Finish))
    {
      p := Writing(Terminator, BLANK_LINES, now, SendError);
      var sent := WriteEvent(Terminator, BLANK_LINES, SendError);
      pending := sent.Waiting?;
      if !pending {
        p := Writing(Error, env.errorFrame, now, Finish);
        Record(if sent.Written? then WriteCompletes else WriteFails, p);
      }
    }

    /** The failure branches of handle_success: close a cut-off event, then send the error event. */
    method FailStream(reason: Bytes, ghost before: Phase) returns (ghost p: Phase)
      requires Serves() && FailureOf(request) == E.Failure(None, None, None, Some(reason))
      requires Owes(UpstreamReady) && Expected() == Fail(env, View(before))
      modifies this`schedule, this`now, this`queue, this`alive, this`delivered, this`run, this`log
      ensures Ends(p) && |schedule| <= |old(schedule)|
    {
      if !tracker.atBoundary {
        Record(UpstreamReady, Writing(Terminator, BLANK_LINES, now, SendError));
        var pending;
        pending, p := WriteTerminator();
        if pending {
          return;
        }
      } else {
        Record(UpstreamReady, Writing(Error, env.errorFrame, now, Finish));
      }
      var frame := E.Build(request.kind, E.Failure(None, None, None, Some(reason)));
      assert Reports(request, frame);
      p := WriteError(frame);
    }

    /** The timer branch of handle_success: a heartbeat at a boundary, otherwise another interval. */
    method RelayTimer() returns (more: bool, ghost p: Phase)
      requires Owes(TimerFires) && Expected() == OnTimer(env, View(Relaying))
      modifies this`schedule, this`now, this`queue, this`alive, this`delivered, this`run, this`log
      modifies this`deadline, this`skips
      ensures |schedule| <= |old(schedule)|
      ensures if more then At(p) && p == Relaying else Ends(p)
    {
      if tracker.atBoundary {
        Record(TimerFires, Writing(Heartbeat, HEARTBEAT, now, Relay));
        more, p := WriteAndReset(Heartbeat, HEARTBEAT, Relay, Relaying);
      } else {
        deadline, skips := now + request.interval, skips + 1;
        more, p := true, Relaying;
        Record(TimerFires, p);
      }
    }

    /** The next chunk: feed it to the tracker, pass it on. */
    method RelayChunk(bytes: Bytes) returns (more: bool, ghost p: Phase)
      requires Owes(UpstreamReady) && Expected() == OnChunk(env, View(Relaying))
      requires next < |Chunks(env)| && bytes == Chunks(env)[next]
      modifies this, tracker
      ensures tracker == old(tracker) && |schedule| <= |old(schedule)|
      ensures if more then At(p) && p == Relaying else Ends(p)
    {
      next := next + 1;
      tracker.Feed(bytes);
      Record(UpstreamReady, Writing(Data, bytes, now, Relay));
      more, p := WriteAndReset(Data, bytes, Relay, Relaying);
    }

    /** The stream branch of handle_success: the next chunk, the broken end, or the clean one. */
    method RelayNext() returns (more: bool, ghost p: Phase)
      requires Serves() && Decodable(env)
      requires Owes(UpstreamReady) && Expected() == OnChunk(env, View(Relaying))
      modifies this, tracker
      ensures tracker == old(tracker) && |schedule| <= |old(schedule)|
      ensures if more then At(p) && p == Relaying else Ends(p)
    {
      var upstream := request.upstream;
      if next < |upstream.chunks| {
        more, p := RelayChunk(upstream.chunks[next]);
      } else if upstream.end.Broken? {
        more := false;
        p := FailStream(request.reason, Relaying);
      } else {
        more, p := false, Done(CleanEnd);
        Record(UpstreamReady, p);
      }
    }

    /** handle_success. */
    method HandleSuccess(coding: Option<Coding>, ghost before: Phase) returns (ghost p: Phase)
      requires Serves() && env.upstream.Responds? && IsSuccess(env.upstream.status)
      requires coding == ParseContentEncoding(env.upstream.fields)
      requires Owes(UpstreamReady) && Expected() == EnterSuccess(env, View(before), coding)
      modifies this, tracker
      ensures Ends(p)
    {
      tracker := new EventBoundaryTracker();
      if coding.None? {
        p := FailStream(UNSUPPORTED, before);
        return;
      }
      p := Relaying;
      Record(UpstreamReady, p);
      while true
        invariant At(Relaying) && p == Relaying
        invariant fresh(tracker)
        decreases |schedule|
      {
        var ready := Select(false, Relaying);
        var more := false;
        if ready.Timer? {
          more, p := RelayTimer();
        } else if ready.Arrival? {
          more, p := RelayNext();
        }
        if !more {
          return;
        }
      }
    }

    /** The end of handle_error: the collected body, decoded, makes the error event. */
    method ReportError(status: nat) returns (ghost p: Phase)
      requires Serves() && env.upstream.Responds? && status == env.upstream.status && !IsSuccess(status)
      requires Owes(UpstreamReady) && Expected() == OnUpstream(env, View(Collecting))
      modifies this`schedule, this`now, this`queue, this`alive, this`delivered, this`run, this`log
      ensures Ends(p)
    {
      var body := ReadErrorBody(request);
      var failure := E.Failure(Some(E.Status(status, request.phrase)), Some(body), request.parser(body), None);
      var frame := E.Build(request.kind, failure);
      assert Reports(request, frame);
      Record(UpstreamReady, Writing(Error, env.errorFrame, now, Finish));
      p := WriteError(frame);
    }

    /** handle_error: heartbeats until the error body is collected, then the error event. */
    method HandleError(status: nat) returns (ghost p: Phase)
      requires Serves() && env.upstream.Responds? && status == env.upstream.status && !IsSuccess(status)
      requires At(Collecting)
      modifies this
      ensures Ends(p)
    {
      p := Collecting;
      while true
        invariant At(Collecting) && p == Collecting
        decreases |schedule|
      {
        var ready := Select(false, Collecting);
        if ready.Suspended? {
          return;
        } else if ready.Timer? {
          var more;
          Record(TimerFires, Writing(Heartbeat, HEARTBEAT, now, Collect));
          more, p := WriteAndReset(Heartbeat, HEARTBEAT, Collect, Collecting);
          if !more {
            return;
          }
        } else {
          p := ReportError(status);
          return;
        }
      }
    }

    /** The end of bridge: one of the three outcomes. */
    method BridgeAnswer() returns (ghost p: Phase)
      requires Serves() && Owes(UpstreamReady) && Expected() == OnUpstream(env, View(Awaiting))
      modifies this, tracker
      ensures Ends(p)
    {
      match request.upstream
      case Unreachable =>
        var frame := E.Build(request.kind, E.Failure(None, None, None, Some(request.reason)));
        assert Reports(request, frame);
        Record(UpstreamReady, Writing(Error, env.errorFrame, now, Finish));
        p := WriteError(frame);
      case Responds(status, fields, _, _) =>
        if IsSuccess(status) {
          p := HandleSuccess(ParseContentEncoding(fields), Awaiting);
        } else {
          Record(UpstreamReady, Collecting);
          p := HandleError(status);
        }
    }

    /** bridge: heartbeats until the upstream answers, then one of the three outcomes. */
    method BridgeTask() returns (ghost p: Phase)
      requires Serves() && At(Awaiting)
      modifies this, tracker
      ensures Ends(p)
    {
      p := Awaiting;
      while true
        invariant At(Awaiting) && p == Awaiting
        invariant tracker == old(tracker)
        decreases |schedule|
      {
        var ready := Select(false, Awaiting);
        if ready.Suspended? {
          return;
        } else if ready.Timer? {
          var more;
          Record(TimerFires, Writing(Heartbeat, HEARTBEAT, now, Await));
          more, p := WriteAndReset(Heartbeat, HEARTBEAT, Await, Awaiting);
          if !more {
            return;
          }
        } else {
          p := BridgeAnswer();
          return;
        }
      }
    }

    /** passthrough_sse_response: the upstream's head, stripped, and its body bridged. */
    method PassthroughSse(status: nat, fields: Fields, coding: Coding) returns (ghost p: Phase)
      requires Serves() && env.upstream.Responds? && env.upstream.status == status && env.upstream.fields == fields
      requires IsSuccess(status) && ParseContentEncoding(fields) == Some(coding)
      requires Owes(UpstreamReady)
      requires var head := Head(BridgedStream, status, BridgedFields(fields));
        Expected() == EnterSuccess(env, Open(env, View(Racing), head), Some(coding))
      modifies this, tracker
      ensures Ends(p)
    {
      var kept := BridgedHeaders(fields);
      heads := heads + [Head(BridgedStream, status, kept)];
      start, deadline := now, now + request.interval;
      p := HandleSuccess(Some(coding), Racing);
    }

    /** The answer branch of handle_stream. */
    method AnswerInTime() returns (ghost p: Phase)
      requires Serves() && Owes(UpstreamReady) && Expected() == Answered(env, View(Racing))
      modifies this, tracker
      ensures Ends(p)
    {
      match request.upstream
      case Unreachable =>
        heads := heads + [Head(GatewayError, 502, BAD_GATEWAY_FIELDS)];
        p := Done(HandedOver);
        Record(UpstreamReady, p);
      case Responds(status, fields, _, _) =>
        var coding := ParseContentEncoding(fields);
        if IsSuccess(status) && IsEventStream(fields) && coding.Some? {
          p := PassthroughSse(status, fields, coding.value);
        } else {
          var headers := new HeaderMap(fields);
          StripHopByHop(headers);
          heads := heads + [Head(PassedThrough, status, headers.fields)];
          p := Done(HandedOver);
          Record(UpstreamReady, p);
        }
    }

    /** The timer branch of handle_stream: the gateway's own head, then the bridge. */
    method AnswerItself() returns (ghost p: Phase)
      requires Serves() && Owes(TimerFires) && Expected() == Expired(env, View(Racing))
      modifies this, tracker
      ensures Ends(p)
    {
      heads := heads + [Head(OwnStream, 200, OWN_FIELDS)];
      start, deadline := now, now + request.interval;
      Record(TimerFires, Awaiting);
      p := BridgeTask();
    }

    /** The server drops handle_stream when the client leaves before there is a head. */
    method Abandon() returns (ghost p: Phase)
      requires Owes(ClientLeaves)
      requires Expected() == View(Racing).(alive := false, queue := [], phase := Done(Abandoned))
      modifies this
      ensures tracker == old(tracker) && Ends(p)
    {
      alive, queue := false, [];
      p := Done(Abandoned);
      Record(ClientLeaves, p);
    }

    lemma WhereTheScriptLeads(p: Phase)
      requires Ends(p)
      ensures View(p) == Performed(env, script)
    {
      CourseIsPerformed(env, script, course, |script|);
      assert script[..|script|] == script;
      if p.Done? {
        DoneStays(env, script, course, |script| - |schedule|, |script|);
      }
    }

    /** handle_stream: one interval for the upstream to answer, or the gateway answers itself. */
    method HandleStream() returns (ghost p: Phase)
      requires Serves() && At(Racing)
      modifies this, tracker
      ensures Ends(p)
      ensures View(p) == Performed(env, script)
    {
      p := Racing;
      var ready := Select(true, Racing);
      match ready {
        case Suspended =>
        case ClientLeft => p := Abandon();
        case Timer => p := AnswerItself();
        case Arrival => p := AnswerInTime();
      }
      WhereTheScriptLeads(p);
    }
  }
}
