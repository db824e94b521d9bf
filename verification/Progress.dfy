/** The protocol goes on: time cannot be stopped, a silence is filled with heartbeats or waited out, a
    full channel holds the task up, and a departure is noticed. Each is a run built from an arbitrary
    one. */
module Progress {
  import opened ByteStrings
  import opened Tracker
  import opened Transparency
  import opened Bridge
  import opened BridgeInvariants
  import opened BridgeTheorems

  /** The run goes on without anything from the upstream. */
  ghost predicate Continues(env: Env, run: Run, longer: Run) {
    && IsRun(env, longer)
    && run.labels <= longer.labels && run.states <= longer.states
    && forall i :: |run.labels| <= i < |longer.labels| ==> longer.labels[i] != UpstreamReady
  }

  lemma ContinuesFurther(env: Env, a: Run, b: Run, c: Run)
    requires Continues(env, a, b) && Continues(env, b, c)
    ensures Continues(env, a, c)
  {
    forall i | |a.labels| <= i < |c.labels| ensures c.labels[i] != UpstreamReady {
      assert i < |b.labels| ==> c.labels[i] == b.labels[i];
    }
  }

  /** After a continuation of run, one more step. */
  lemma OneStep(env: Env, run: Run, so: Run, l: Label) returns (longer: Run)
    requires Continues(env, run, so) && Enabled(env, EndOf(so), l) && l != UpstreamReady
    ensures Continues(env, run, longer) && EndOf(longer) == Take(env, EndOf(so), l)
  {
    RunGrows(env, so, l);
    longer := Onward(env, so, l);
    assert Continues(env, so, longer);
    ContinuesFurther(env, run, so, longer);
  }

  lemma Stays(env: Env, run: Run)
    requires IsRun(env, run)
    ensures Continues(env, run, run)
  {
  }

  /** In a poll time can pass up to the deadline; beside a full channel, or at the end, as long as it likes. */
  predicate CanWait(s: State, t: nat) {
    if Polling(s.phase) then t <= s.deadline
    else s.phase.Writing? ==> s.alive && |s.queue| >= CAPACITY
  }

  lemma {:induction false} Wait(env: Env, run: Run, so: Run, t: nat) returns (longer: Run)
    requires Continues(env, run, so) && EndOf(so).now <= t && CanWait(EndOf(so), t)
    ensures Continues(env, run, longer) && EndOf(longer) == EndOf(so).(now := t)
    decreases t - EndOf(so).now
  {
    if EndOf(so).now == t {
      longer := so;
    } else {
      longer := OneStep(env, run, so, Tick);
      longer := Wait(env, run, longer, t);
    }
  }

  /** A pending frame is accepted at once, the client making room if it has to. */
  lemma Complete(env: Env, run: Run, so: Run) returns (longer: Run)
    requires Continues(env, run, so) && EndOf(so).phase.Writing? && EndOf(so).alive
    ensures Continues(env, run, longer)
    ensures exists q, d :: EndOf(longer) == OnWritten(env, EndOf(so).(queue := q, delivered := d))
  {
    var s := EndOf(so);
    Reachable(env, so, |so.labels|);
    longer := so;
    if |s.queue| == CAPACITY {
      longer := OneStep(env, run, so, ClientReads);
    }
    var t := EndOf(longer);
    assert t == s.(queue := t.queue, delivered := t.delivered);
    longer := OneStep(env, run, longer, WriteCompletes);
  }

  // ===== Silence =====

  /** Heartbeats at regular times. */
  function Beating(first: nat, interval: nat, n: nat): seq<Entry> {
    if n == 0 then []
    else Beating(first, interval, n - 1) + [Entry(Heartbeat, HEARTBEAT, first + (n - 1) * interval, 0)]
  }

  /** In a loop, at a boundary, with a client. */
  predicate AtEase(s: State) {
    Looping(s.phase) && s.flags.atBoundary && s.alive && s.now <= s.deadline
  }

  /** The next heartbeat. */
  lemma Beat(env: Env, run: Run, so: Run) returns (longer: Run)
    requires Continues(env, run, so) && AtEase(EndOf(so))
    ensures Continues(env, run, longer)
    ensures var s, t := EndOf(so), EndOf(longer);
      && AtEase(t) && t.phase == s.phase && t.heads == s.heads
      && t.now == s.deadline && t.deadline == s.deadline + env.interval
      && t.log == s.log + [Entry(Heartbeat, HEARTBEAT, s.deadline, 0)]
  {
    longer := Wait(env, run, so, EndOf(so).deadline);
    longer := OneStep(env, run, longer, TimerFires);
    longer := Complete(env, run, longer);
  }

  lemma OneMoreInterval(from: nat, interval: nat, n: nat)
    requires n > 0
    ensures from + n * interval == (from + (n - 1) * interval) + interval
  {
  }

  lemma {:induction false} KeepBeating(env: Env, run: Run, n: nat) returns (longer: Run)
    requires IsRun(env, run) && AtEase(EndOf(run))
    ensures Continues(env, run, longer)
    ensures var s, t := EndOf(run), EndOf(longer);
      && AtEase(t) && t.phase == s.phase && t.heads == s.heads
      && t.now == (if n == 0 then s.now else s.deadline + (n - 1) * env.interval)
      && t.deadline == s.deadline + n * env.interval
      && t.log == s.log + Beating(s.deadline, env.interval, n)
  {
    if n == 0 {
      longer := run;
      Stays(env, run);
      assert EndOf(run).log + [] == EndOf(run).log;
    } else {
      var so := KeepBeating(env, run, n - 1);
      longer := Beat(env, run, so);
      var s, d := EndOf(run), EndOf(run).deadline;
      OneMoreInterval(d, env.interval, n);
      assert s.log + Beating(d, env.interval, n)
          == (s.log + Beating(d, env.interval, n - 1)) + [Entry(Heartbeat, HEARTBEAT, d + (n - 1) * env.interval, 0)];
    }
  }

  /** At a boundary the next firing is one interval after the last write. */
  lemma OneIntervalLeft(env: Env, run: Run)
    requires IsRun(env, run)
    requires var s := EndOf(run); Looping(s.phase) && s.flags.atBoundary && s.alive
    ensures var s := EndOf(run); AtEase(s) && LastWrite(s) <= s.now && s.deadline == LastWrite(s) + env.interval
  {
    Reachable(env, run, |run.labels|);
    NothingSkipped(env, EndOf(run));
  }

  lemma Division(length: nat, interval: nat)
    requires interval > 0
    ensures var n := length / interval;
      && n * interval <= length <= n * interval + interval
      && (n > 0 ==> (n - 1) * interval + interval <= length)
  {
  }

  /** A silence at a boundary, however long: every interval since the last write brings a heartbeat, in
      every loop of the task, and nothing else is written. */
  lemma HeartbeatsGoOn(env: Env, run: Run, t: nat) returns (longer: Run)
    requires IsRun(env, run) && env.interval > 0 && EndOf(run).now <= t
    requires var s := EndOf(run); Looping(s.phase) && s.flags.atBoundary && s.alive
    ensures Continues(env, run, longer)
    ensures var s, e := EndOf(run), EndOf(longer);
      && e.now == t && e.alive && e.phase == s.phase && e.heads == s.heads
      && LastWrite(s) <= t
      && e.log == s.log + Beating(LastWrite(s) + env.interval, env.interval, (t - LastWrite(s)) / env.interval)
  {
    var s := EndOf(run);
    OneIntervalLeft(env, run);
    var n := (t - LastWrite(s)) / env.interval;
    var so := KeepBeating(env, run, n);
    Division(t - LastWrite(s), env.interval);
    longer := Wait(env, run, so, t);
  }

  /** A silence inside an event, however long: nothing is written. */
  lemma {:induction false} SilenceInsideEvent(env: Env, run: Run, t: nat) returns (longer: Run)
    requires IsRun(env, run) && env.interval > 0 && EndOf(run).now <= t
    requires var s := EndOf(run); s.phase.Relaying? && !s.flags.atBoundary
    ensures Continues(env, run, longer)
    ensures var s, e := EndOf(run), EndOf(longer);
      e.now == t && e.alive == s.alive && e.phase == s.phase && e.flags == s.flags && e.log == s.log
    decreases if t > EndOf(run).deadline then t - EndOf(run).deadline else 0
  {
    var s := EndOf(run);
    Stays(env, run);
    Reachable(env, run, |run.labels|);
    if t <= s.deadline {
      longer := Wait(env, run, run, t);
    } else {
      var so := Wait(env, run, run, s.deadline);
      so := OneStep(env, run, so, TimerFires);
      longer := SilenceInsideEvent(env, so, t);
      ContinuesFurther(env, run, so, longer);
    }
  }

  /** An upstream that does not answer: the window expires, the gateway answers itself, and heartbeats
      follow, one for every further interval. */
  lemma WindowExpires(env: Env, run: Run, t: nat) returns (longer: Run)
    requires IsRun(env, run) && env.interval > 0 && EndOf(run).phase.Racing? && EndOf(run).alive
    requires env.interval <= t
    ensures Continues(env, run, longer)
    ensures var e := EndOf(longer);
      && e.now == t && e.alive && e.phase == Awaiting && e.heads == [Head(OwnStream, 200, OWN_FIELDS)]
      && e.log == Beating(env.interval + env.interval, env.interval, (t - env.interval) / env.interval)
  {
    Reachable(env, run, |run.labels|);
    Stays(env, run);
    var so := Wait(env, run, run, env.interval);
    so := OneStep(env, run, so, TimerFires);
    assert Chunks(env)[..0] == [];
    longer := HeartbeatsGoOn(env, so, t);
    ContinuesFurther(env, run, so, longer);
    var beats := Beating(env.interval + env.interval, env.interval, (t - env.interval) / env.interval);
    assert [] + beats == beats;
  }

  /** A frame is accepted exactly while fewer than sixteen wait for the client. */
  lemma SixteenFramesFit(env: Env, run: Run)
    requires IsRun(env, run) && EndOf(run).phase.Writing? && EndOf(run).alive
    ensures var s := EndOf(run);
      && s.delivered <= s.log && |s.log| - |s.delivered| <= 16
      && (Enabled(env, s, WriteCompletes) <==> |s.log| - |s.delivered| < 16)
  {
    Reachable(env, run, |run.labels|);
    var s := EndOf(run);
    assert s.delivered <= s.delivered + s.queue;
  }

  /** A client that does not read: beside a full channel the task waits for as long as it takes. */
  lemma BackpressureHolds(env: Env, run: Run, t: nat) returns (longer: Run)
    requires IsRun(env, run) && EndOf(run).phase.Writing? && EndOf(run).alive
    requires |EndOf(run).queue| == CAPACITY && EndOf(run).now <= t
    ensures Continues(env, run, longer) && EndOf(longer) == EndOf(run).(now := t)
  {
    Stays(env, run);
    longer := Wait(env, run, run, t);
  }

  /** Only the relaying loop can be inside an event. */
  lemma AwayFromBoundary(env: Env, s: State)
    requires ControlOk(env, s) && Looping(s.phase) && !s.flags.atBoundary
    ensures s.phase.Relaying?
  {
    assert Chunks(env)[..0] == [];
  }

  /** Whatever the task is doing, time goes on without the upstream and with the client there. */
  lemma {:induction false} TimeGoesOn(env: Env, run: Run, t: nat) returns (longer: Run)
    requires IsRun(env, run) && env.interval > 0 && EndOf(run).alive && EndOf(run).now <= t
    ensures Continues(env, run, longer) && EndOf(longer).alive && EndOf(longer).now == t
    decreases Work(env, EndOf(run))
  {
    var s := EndOf(run);
    Stays(env, run);
    Reachable(env, run, |run.labels|);
    if s.phase.Writing? {
      var so := Complete(env, run, run);
      var q, d :| EndOf(so) == OnWritten(env, s.(queue := q, delivered := d));
      WritingBringsCloser(env, s.(queue := q, delivered := d));
      longer := TimeGoesOn(env, so, t);
      ContinuesFurther(env, run, so, longer);
    } else if s.phase.Done? || t <= s.deadline {
      longer := Wait(env, run, run, t);
    } else if s.phase.Racing? {
      longer := WindowExpires(env, run, t);
    } else if s.flags.atBoundary {
      longer := HeartbeatsGoOn(env, run, t);
    } else {
      AwayFromBoundary(env, s);
      longer := SilenceInsideEvent(env, run, t);
    }
  }

  // ===== Departure =====

  lemma Leave(env: Env, run: Run) returns (left: Run)
    requires IsRun(env, run) && EndOf(run).alive
    ensures Continues(env, run, left) && left.labels == run.labels + [ClientLeaves]
    ensures EndOf(left) == Take(env, EndOf(run), ClientLeaves)
  {
    RunGrows(env, run, ClientLeaves);
    left := Onward(env, run, ClientLeaves);
  }

  lemma MissedAtDeadline(env: Env, run: Run) returns (longer: Run)
    requires IsRun(env, run)
    requires var s := EndOf(run); Looping(s.phase) && s.flags.atBoundary && !s.alive && s.now <= s.deadline
    ensures Continues(env, run, longer)
    ensures var s, e := EndOf(run), EndOf(longer);
      e.phase == Done(ClientGone) && e.log == s.log && e.now == s.deadline
  {
    Stays(env, run);
    longer := Wait(env, run, run, EndOf(run).deadline);
    longer := OneStep(env, run, longer, TimerFires);
    longer := OneStep(env, run, longer, WriteFails);
  }

  /** A client that leaves at a boundary is missed at the next heartbeat, even if the upstream is silent:
      the task ends within the interval, and nothing more is written. */
  lemma DepartureIsNoticed(env: Env, run: Run) returns (longer: Run)
    requires IsRun(env, run)
    requires var s := EndOf(run); Looping(s.phase) && s.flags.atBoundary && s.alive
    ensures Continues(env, run, longer)
    ensures var s, e := EndOf(run), EndOf(longer);
      && |longer.labels| > |run.labels| && longer.labels[|run.labels|] == ClientLeaves
      && e.phase == Done(ClientGone) && e.log == s.log
      && e.now == LastWrite(s) + env.interval
  {
    var s := EndOf(run);
    OneIntervalLeft(env, run);
    var left := Leave(env, run);
    longer := MissedAtDeadline(env, left);
    assert longer.labels[|run.labels|] == left.labels[|run.labels|];
    ContinuesFurther(env, run, left, longer);
  }

  lemma LeftBehindStep(env: Env, s: State)
    requires !s.alive && !s.phase.Done?
    ensures var l := if s.phase.Writing? then WriteFails else UpstreamReady;
      Enabled(env, s, l) && Work(env, Take(env, s, l)) < Work(env, s)
  {
    if Polling(s.phase) {
      UpstreamBringsCloser(env, s);
    }
  }

  /** Without its client a task can still come to its end, and writes nothing on the way. */
  lemma {:induction false} DepartedTaskEnds(env: Env, run: Run) returns (longer: Run)
    requires IsRun(env, run) && !EndOf(run).alive
    ensures IsRun(env, longer) && run.labels <= longer.labels && run.states <= longer.states
    ensures EndOf(longer).phase.Done? && !EndOf(longer).alive && EndOf(longer).log == EndOf(run).log
    decreases Work(env, EndOf(run))
  {
    var s := EndOf(run);
    if s.phase.Done? {
      longer := run;
    } else {
      var l := if s.phase.Writing? then WriteFails else UpstreamReady;
      LeftBehindStep(env, s);
      DepartedStep(env, s, l);
      RunGrows(env, run, l);
      longer := DepartedTaskEnds(env, Onward(env, run, l));
    }
  }

  /** The client can leave at any moment; the task can end then, and what was written stays as it was. */
  lemma CanBeLeft(env: Env, run: Run) returns (longer: Run)
    requires IsRun(env, run) && EndOf(run).alive
    ensures IsRun(env, longer) && run.labels + [ClientLeaves] <= longer.labels && run.states <= longer.states
    ensures EndOf(longer).phase.Done? && EndOf(longer).log == EndOf(run).log
  {
    RunGrows(env, run, ClientLeaves);
    longer := DepartedTaskEnds(env, Onward(env, run, ClientLeaves));
  }
}
