/** Runs that show where the guarantees end: each exception that a theorem makes does occur. */
module WitnessRuns {
  import opened ByteStrings
  import opened Sse
  import opened Transparency
  import opened ByteOrderMark
  import opened Headers
  import opened Encoding
  import opened Bridge
  import opened BridgeInvariants
  import opened BridgeTheorems
  import opened Gateway

  // ===== A heartbeat in front of a byte order mark =====

  /** An interval of one, and a complete stream in one chunk. */
  predicate OneChunk(env: Env, stream: Bytes) {
    env.interval == 1 && env.upstream == Responds(200, map[], [stream], CleanEof)
  }

  /** The window expires, an interval passes, a heartbeat is written. */
  lemma BeatsFirst(env: Env, stream: Bytes) returns (run: Run)
    requires OneChunk(env, stream)
    ensures IsRun(env, run)
    ensures var beat := Entry(Heartbeat, HEARTBEAT, 2, 0); var head := Head(OwnStream, 200, OWN_FIELDS);
      EndOf(run) == State(2, 3, Awaiting, EndOf(run).flags, 0, 0, [beat], [beat], [], true, [head], 1)
  {
    run := Run([], [Initially(env)]);
    RunGrows(env, run, Tick);
    run := Onward(env, run, Tick);
    RunGrows(env, run, TimerFires);
    run := Onward(env, run, TimerFires);
    RunGrows(env, run, Tick);
    run := Onward(env, run, Tick);
    RunGrows(env, run, TimerFires);
    run := Onward(env, run, TimerFires);
    RunGrows(env, run, WriteCompletes);
    run := Onward(env, run, WriteCompletes);
    assert [] + [Entry(Heartbeat, HEARTBEAT, 2, 0)] == [Entry(Heartbeat, HEARTBEAT, 2, 0)];
  }

  /** Then the upstream answers, its chunk is passed on, and it ends. */
  lemma ThenTheStream(env: Env, stream: Bytes) returns (run: Run)
    requires OneChunk(env, stream)
    ensures IsRun(env, run)
    ensures var s := EndOf(run);
      s.phase == Done(CleanEnd) && s.alive && s.delivered == [] && s.log == Late(stream) && s.queue == Late(stream)
  {
    run := BeatsFirst(env, stream);
    RunGrows(env, run, UpstreamReady);
    run := Onward(env, run, UpstreamReady);
    RunGrows(env, run, UpstreamReady);
    run := Onward(env, run, UpstreamReady);
    RunGrows(env, run, WriteCompletes);
    run := Onward(env, run, WriteCompletes);
    RunGrows(env, run, UpstreamReady);
    run := Onward(env, run, UpstreamReady);
  }

  /** The request has ended well and the client has read everything. */
  predicate ReadToTheEnd(env: Env, run: Run, k: nat) {
    && IsRun(env, run) && k < |run.states|
    && run.states[k].phase == Done(CleanEnd) && run.states[k].alive && run.states[k].queue == []
  }

  lemma LateRun(env: Env, stream: Bytes) returns (run: Run)
    requires OneChunk(env, stream)
    ensures ReadToTheEnd(env, run, |run.labels|) && EndOf(run).delivered == Late(stream)
  {
    run := ThenTheStream(env, stream);
    RunGrows(env, run, ClientReads);
    run := Onward(env, run, ClientReads);
    RunGrows(env, run, ClientReads);
    run := Onward(env, run, ClientReads);
  }

  /** A script cannot tell what arrived from what the upstream sent. */
  ghost predicate Unnoticed(env: Env, s: State) {
    Observe(Decode(Wire(s.delivered))) == Observe(Decode(Concat(Chunks(env))))
  }

  /** The upstream begins with a mark and this first line. */
  predicate SendsMarked(env: Env, line: Bytes, newline: Byte) {
    StartsWith(Concat(Chunks(env)), BOM + line + [newline])
  }

  lemma ArrivedWhole(env: Env, run: Run, k: nat)
    requires ReadToTheEnd(env, run, k)
    ensures var d := run.states[k].delivered; Paced(d) && Payload(d) == Concat(Chunks(env))
  {
    Reachable(env, run, k);
    Conservation(env, run, k);
    Drained(env, run.states[k]);
  }

  lemma NoticedRun(env: Env, line: Bytes, newline: Byte) returns (run: Run)
    requires OneLine(line) && IsNewline(newline) && !Inert(line)
    requires OneChunk(env, Marked(line, newline))
    ensures ReadToTheEnd(env, run, |run.labels|) && SendsMarked(env, line, newline) && !Unnoticed(env, EndOf(run))
  {
    run := LateRun(env, Marked(line, newline));
    ArrivedWhole(env, run, |run.labels|);
    LateMarkIsNoticed(line, newline);
  }

  /** For an upstream that begins with a byte order mark and this first line, every run that ends well
      shows a script exactly what the upstream sent, if and only if the line is inert. */
  lemma MarkMattersInRuns(line: Bytes, newline: Byte)
    requires OneLine(line) && IsNewline(newline)
    ensures
      (forall env, run, k: nat ::
         ReadToTheEnd(env, run, k) && SendsMarked(env, line, newline) ==> Unnoticed(env, run.states[k]))
      <==> Inert(line)
  {
    if Inert(line) {
      forall env, run, k: nat | ReadToTheEnd(env, run, k) && SendsMarked(env, line, newline)
        ensures Unnoticed(env, run.states[k])
      {
        ArrivedWhole(env, run, k);
        TransparentWhenInert(run.states[k].delivered, line, newline);
      }
    } else {
      var env := Env(1, Responds(200, map[], [Marked(line, newline)], CleanEof), []);
      var run := NoticedRun(env, line, newline);
      assert ReadToTheEnd(env, run, |run.labels|);
    }
  }

  /** The shortest case: whatever the error frame, a run on an upstream with one event, in which a
      client that reads everything sees none. */
  lemma LostEvent(env: Env) returns (run: Run)
    requires OneChunk(env, MARKED_EVENT)
    ensures ReadToTheEnd(env, run, |run.labels|)
    ensures Decode(Concat(Chunks(env))).client.events == [Event("message", "x", [])]
    ensures Decode(Wire(EndOf(run).delivered)).client.events == []
  {
    run := LateRun(env, MARKED_EVENT);
    ArrivedWhole(env, run, |run.labels|);
    MarkedEventIsLost();
  }

  // ===== A Connection field that names Content-Type =====

  function Disowning(media: Bytes): Fields {
    map[CONTENT_TYPE := [media], CONNECTION := [CONTENT_TYPE]]
  }

  /** Lower-case letters and hyphens. */
  predicate PlainToken(name: Bytes) {
    0 < |name| <= MAX_NAME && forall i :: 0 <= i < |name| ==> 'a' <= name[i] <= 'z' || name[i] == '-'
  }

  lemma PlainTokenIsName(name: Bytes)
    requires PlainToken(name)
    ensures IsNameOf(name, name)
  {
    assert TOKEN_MARKS[8] == '-';
  }

  lemma NamesItself(name: Bytes)
    requires PlainToken(name)
    ensures Names(name, name)
  {
    assert name[0..|name|] == name;
    TrimmedAlready(name);
    PlainTokenIsName(name);
    assert Delimited(name, ',', 0, |name|);
  }

  lemma NamesApart()
    ensures CONTENT_TYPE != CONNECTION && CONTENT_ENCODING != CONNECTION && CONTENT_ENCODING != CONTENT_TYPE
  {
    assert CONTENT_TYPE[3] == 't' && CONTENT_ENCODING[3] == 't' && CONNECTION[3] == 'n';
    assert CONTENT_TYPE[8] == 't' && CONTENT_ENCODING[8] == 'e';
  }

  predicate PlainMediaType(media: Bytes) {
    media != [] && forall i :: 0 <= i < |media| ==> 'a' <= media[i] <= 'z' || media[i] in {'-', '/'}
  }

  lemma PlainMediaTypeReads(media: Bytes)
    requires PlainMediaType(media)
    ensures Visible(media) && Lower(Trim(media[..IndexOf(media, ';')])) == media
  {
    assert IndexOf(media, ';') == |media|;
    assert media[..|media|] == media;
    TrimmedAlready(media);
    LowerMeans(media, media);
  }

  lemma EventStreamIsPlain()
    ensures PlainMediaType(EVENT_STREAM)
  {
  }

  lemma EventStreamHead(h: Fields, media: Bytes)
    requires ValuesOf(h, CONTENT_TYPE) == [media]
    requires PlainMediaType(media) && media == EVENT_STREAM
    ensures IsEventStream(h)
  {
    PlainMediaTypeReads(media);
  }

  lemma DisowningValues(media: Bytes)
    ensures ValuesOf(Disowning(media), CONTENT_TYPE) == [media]
    ensures ValuesOf(Disowning(media), CONNECTION) == [CONTENT_TYPE]
    ensures ValuesOf(Disowning(media), CONTENT_ENCODING) == []
  {
    NamesApart();
  }

  lemma DisownedIsStream(media: Bytes)
    requires PlainMediaType(media) && media == EVENT_STREAM
    ensures IsEventStream(Disowning(media)) && ParseContentEncoding(Disowning(media)) == Some(Identity)
  {
    DisowningValues(media);
    EventStreamHead(Disowning(media), media);
  }

  lemma DisownedIsListed(media: Bytes)
    ensures CONTENT_TYPE in Listed(Disowning(media))
  {
    DisowningValues(media);
    NamesItself(CONTENT_TYPE);
    ConnectionListMeans([CONTENT_TYPE], CONTENT_TYPE);
    assert CONTENT_TYPE in [CONTENT_TYPE];
  }

  /** An event stream that arrives in time, up to its first frame. */
  lemma FirstFrame(env: Env) returns (run: Run)
    requires Decodable(env) && IsEventStream(env.upstream.fields) && env.upstream.chunks != []
    ensures IsRun(env, run) && EndOf(run).log != []
    ensures EndOf(run).heads == [Head(BridgedStream, env.upstream.status, BridgedFields(env.upstream.fields))]
  {
    run := Run([], [Initially(env)]);
    RunGrows(env, run, UpstreamReady);
    run := Onward(env, run, UpstreamReady);
    RunGrows(env, run, UpstreamReady);
    run := Onward(env, run, UpstreamReady);
    RunGrows(env, run, WriteCompletes);
    run := Onward(env, run, WriteCompletes);
  }

  /** Frames under a head that is no event stream: the upstream is one, but disowns its Content-Type. */
  lemma FramesUnderAnotherHead(env: Env, chunk: Bytes) returns (run: Run)
    requires env.upstream == Responds(200, Disowning(EVENT_STREAM), [chunk], CleanEof)
    ensures IsRun(env, run) && EndOf(run).log != []
    ensures |EndOf(run).heads| == 1 && !IsEventStream(EndOf(run).heads[0].fields)
  {
    EventStreamIsPlain();
    DisownedIsStream(EVENT_STREAM);
    DisownedIsListed(EVENT_STREAM);
    BridgedHead(Disowning(EVENT_STREAM));
    run := FirstFrame(env);
  }
}
