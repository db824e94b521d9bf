/** The one family of streams for which heartbeats are visible: an upstream that begins with a byte
    order mark, behind a heartbeat. The mark is then text of the first line, and the stream reads
    the same exactly when that line did nothing in the first place. */
module ByteOrderMark {
  import opened ByteStrings
  import opened Sse
  import opened Tracker
  import opened Transparency

  /** What a script on the page can tell. */
  datatype Observation = Observation(events: seq<Event>, lastEventId: Bytes, retry: Option<nat>)

  function Observe(p: Parser): Observation {
    Observation(p.client.events, p.client.lastEventId, p.client.retry)
  }

  /** A first line that leaves nothing behind: blank, a comment, an unknown field, or a field whose
      value is ignored or is the default. */
  predicate Inert(line: Bytes) {
    line == [] || line[0] == ':' ||
    var name, value := FieldName(line), FieldValue(line);
    && name != "data"
    && (name == "event" ==> value == [] || value == "message")
    && (name == "id" ==> value == [] || '\0' in value)
    && (name == "retry" ==> value == [] || !AllDigits(value))
  }

  /** The stream as the client reads it when its mark was displaced, and when it was not. */
  function Displaced(line: Bytes, newline: Byte, tail: Bytes): Parser {
    PushAll(PushAll(START, BOM + line + [newline]), tail)
  }

  function Intact(line: Bytes, newline: Byte, tail: Bytes): Parser {
    PushAll(PushAll(START, line + [newline]), tail)
  }

  lemma UnknownField(c: Client, name: Bytes, value: Bytes)
    requires name != [] && name[0] == BOM[0]
    ensures ProcessField(c, name, value) == c
  {
  }

  /** With the mark in front, the first line is a field of an unknown name. */
  lemma MarkedField(line: Bytes)
    requires OneLine(line)
    ensures OneLine(BOM + line) && ProcessLine(FRESH, BOM + line) == FRESH
  {
    var marked := BOM + line;
    assert OneLine(BOM);
    assert marked[0] == BOM[0];
    assert IndexOf(marked, ':') > 0;
    UnknownField(FRESH, FieldName(marked), FieldValue(marked));
  }

  lemma FirstLine(line: Bytes, newline: Byte)
    requires OneLine(line) && IsNewline(newline)
    ensures PushAll(START, line + [newline]) == Parser(ProcessLine(FRESH, line), [], newline == CR)
  {
    if line == [] {
      assert [] + [newline] == [newline];
      PushAllSnoc(START, [], newline);
    } else {
      PushTerminated(START, line, newline);
    }
  }

  lemma MarkedLine(line: Bytes, newline: Byte)
    requires OneLine(line) && IsNewline(newline)
    ensures PushAll(START, BOM + line + [newline]) == Parser(FRESH, [], newline == CR)
    ensures PushAll(START, line + [newline]) == Parser(ProcessLine(FRESH, line), [], newline == CR)
  {
    MarkedField(line);
    FirstLine(BOM + line, newline);
    FirstLine(line, newline);
  }

  /** Equal up to the two spellings of the default event type. */
  predicate SameClient(c: Client, d: Client) {
    c.(kind := []) == d.(kind := []) && KindName(c.kind) == KindName(d.kind)
  }

  lemma SameKindLine(c: Client, d: Client, line: Bytes)
    requires SameClient(c, d)
    ensures SameClient(ProcessLine(c, line), ProcessLine(d, line))
  {
  }

  predicate SameKind(p: Parser, q: Parser) {
    SameClient(p.client, q.client) && p.line == q.line && p.afterCr == q.afterCr
  }

  lemma SameKindPush(p: Parser, q: Parser, b: Byte)
    requires SameKind(p, q)
    ensures SameKind(Push(p, b), Push(q, b))
  {
    SameKindLine(p.client, q.client, p.line);
  }

  lemma {:induction false} SameKindPushAll(p: Parser, q: Parser, s: Bytes)
    requires SameKind(p, q)
    ensures SameKind(PushAll(p, s), PushAll(q, s))
  {
    if s == [] {
    } else {
      SameKindPushAll(p, q, s[..|s| - 1]);
      SameKindPush(PushAll(p, s[..|s| - 1]), PushAll(q, s[..|s| - 1]), s[|s| - 1]);
    }
  }

  const BARE_DATA: Bytes := "data"
  const EMPTY_EVENT: Bytes := BARE_DATA + [LF] + [LF]

  /** A continuation that makes the loss of a line visible. */
  function Witness(line: Bytes): Bytes {
    if FieldName(line) == "event" then EMPTY_EVENT else if FieldName(line) == "retry" then [] else [CR]
  }

  lemma PushBlank(c: Client, afterCr: bool)
    ensures PushAll(Parser(c, [], afterCr), [CR]) == Parser(Dispatch(c), [], true)
  {
    PushAllSnoc(Parser(c, [], afterCr), [], CR);
    assert [] + [CR] == [CR];
  }

  lemma BareData(c: Client)
    requires c.data == []
    ensures ProcessLine(c, BARE_DATA) == c.(data := [LF])
  {
    assert BARE_DATA[0] != ':' && BARE_DATA[1] != ':' && BARE_DATA[2] != ':' && BARE_DATA[3] != ':';
    assert IndexOf(BARE_DATA, ':') == 4;
    assert BARE_DATA[..4] == BARE_DATA;
  }

  lemma BareEvent(c: Client)
    requires c.data == [LF]
    ensures Dispatch(c).events == c.events + [Event(KindName(c.kind), [], c.id)]
  {
    assert [LF][..0] == [];
  }

  lemma EmptyDataEvent(c: Client, afterCr: bool)
    requires c.data == []
    ensures PushAll(Parser(c, [], afterCr), EMPTY_EVENT).client.events
         == c.events + [Event(KindName(c.kind), [], c.id)]
  {
    var p := Parser(c, [], afterCr);
    assert OneLine(BARE_DATA);
    PushLine(p, BARE_DATA);
    BareData(c);
    PushAllSnoc(p, BARE_DATA + [LF], LF);
    BareEvent(c.(data := [LF]));
  }

  lemma LossIsVisible(line: Bytes, newline: Byte)
    requires OneLine(line) && IsNewline(newline) && !Inert(line)
    ensures Observe(Displaced(line, newline, Witness(line))) != Observe(Intact(line, newline, Witness(line)))
  {
    MarkedLine(line, newline);
    var c := ProcessLine(FRESH, line);
    if FieldName(line) == "event" {
      EmptyDataEvent(FRESH, newline == CR);
      EmptyDataEvent(c, newline == CR);
      assert (FRESH.events + [Event(KindName(FRESH.kind), [], FRESH.id)])[0].kind == "message";
      assert (c.events + [Event(KindName(c.kind), [], c.id)])[0].kind == KindName(c.kind);
    } else {
      PushBlank(FRESH, newline == CR);
      PushBlank(c, newline == CR);
    }
  }

  lemma NoLoss(line: Bytes, newline: Byte, tail: Bytes)
    requires OneLine(line) && IsNewline(newline) && Inert(line)
    ensures Observe(Displaced(line, newline, tail)) == Observe(Intact(line, newline, tail))
  {
    MarkedLine(line, newline);
    SameKindPushAll(Parser(FRESH, [], newline == CR), Parser(ProcessLine(FRESH, line), [], newline == CR), tail);
  }

  lemma ReadsDisplacedMark(stream: Bytes, head: Bytes, tail: Bytes)
    requires stream == head + tail
    ensures PushAll(START, stream) == PushAll(PushAll(START, head), tail)
  {
    PushAllConcat(START, head, tail);
  }

  lemma ReadsLeadingMark(stream: Bytes, first: Bytes, tail: Bytes)
    requires stream == BOM + (first + tail)
    ensures Decode(stream) == PushAll(PushAll(START, first), tail)
  {
    assert StartsWith(stream, BOM) && stream[3..] == first + tail;
    PushAllConcat(START, first, tail);
  }

  /** A displaced mark is read as text of the first line. */
  lemma DisplacedMark(log: seq<Entry>, line: Bytes, newline: Byte, tail: Bytes)
    requires Paced(log) && HeartbeatFirst(log)
    requires Payload(log) == BOM + line + [newline] + tail
    ensures Decode(Wire(log)).client == Displaced(line, newline, tail).client
    ensures Decode(Payload(log)).client == Intact(line, newline, tail).client
  {
    ReadsDisplacedMark(Payload(log), BOM + line + [newline], tail);
    Rejoin(BOM, line, [newline]);
    Rejoin(BOM, line + [newline], tail);
    ReadsLeadingMark(Payload(log), line + [newline], tail);
    Led(log);
    RawTransparency(log);
  }

  // ===== The exact condition =====

  predicate Transparent(log: seq<Entry>) {
    Observe(Decode(Wire(log))) == Observe(Decode(Payload(log)))
  }

  /** The upstream begins with a mark and this first line. */
  predicate Opens(log: seq<Entry>, line: Bytes, newline: Byte) {
    StartsWith(Payload(log), BOM + line + [newline])
  }

  lemma TransparentWhenInert(log: seq<Entry>, line: Bytes, newline: Byte)
    requires OneLine(line) && IsNewline(newline) && Inert(line)
    requires Paced(log) && Opens(log, line, newline)
    ensures Transparent(log)
  {
    if HeartbeatFirst(log) {
      var head := BOM + line + [newline];
      var tail := Payload(log)[|head|..];
      assert Payload(log) == head + tail;
      DisplacedMark(log, line, newline, tail);
      NoLoss(line, newline, tail);
    } else {
      HeartbeatTransparency(log);
    }
  }

  /** One heartbeat, then the whole stream. */
  function Late(stream: Bytes): seq<Entry> {
    [Entry(Heartbeat, HEARTBEAT, 2, 0), Entry(Data, stream, 2, 0)]
  }

  lemma LateIsPaced(stream: Bytes)
    ensures var log := Late(stream); Paced(log) && HeartbeatFirst(log) && Payload(log) == stream
  {
    var log := Late(stream);
    LogSnoc([], log[0]);
    LogSnoc([log[0]], log[1]);
    assert [] + [log[0]] == [log[0]] && [log[0]] + [log[1]] == log;
    assert log[..1] == [log[0]] && [log[0]][..0] == [];
    assert HeartbeatFirst([log[0]]);
    assert [] + log[1].bytes == log[1].bytes;
  }

  /** A marked stream whose continuation makes the loss of its first line visible. */
  function Marked(line: Bytes, newline: Byte): Bytes {
    BOM + line + [newline] + Witness(line)
  }

  lemma LateMarkIsNoticed(line: Bytes, newline: Byte)
    requires OneLine(line) && IsNewline(newline) && !Inert(line)
    ensures Opens(Late(Marked(line, newline)), line, newline) && !Transparent(Late(Marked(line, newline)))
  {
    LateIsPaced(Marked(line, newline));
    DisplacedMark(Late(Marked(line, newline)), line, newline, Witness(line));
    LossIsVisible(line, newline);
  }

  /** Heartbeats in front of a byte order mark go unnoticed, for every chunking, schedule and
      continuation, exactly if the first line is inert. (Without a mark, or with nothing in front of
      it, `HeartbeatTransparency` applies unconditionally.) */
  lemma MarkMattersExactly(line: Bytes, newline: Byte)
    requires OneLine(line) && IsNewline(newline)
    ensures (forall log :: Paced(log) && Opens(log, line, newline) ==> Transparent(log)) <==> Inert(line)
  {
    if Inert(line) {
      forall log | Paced(log) && Opens(log, line, newline) ensures Transparent(log) {
        TransparentWhenInert(log, line, newline);
      }
    } else {
      LateIsPaced(Marked(line, newline));
      LateMarkIsNoticed(line, newline);
    }
  }

  /** A first line that is never ended does nothing, marked or not. */
  lemma UnendedFirstLine(log: seq<Entry>)
    requires Paced(log) && StartsWith(Payload(log), BOM) && OneLine(Payload(log))
    ensures Transparent(log)
  {
    if HeartbeatFirst(log) {
      var u := Payload(log);
      Led(log);
      RawTransparency(log);
      PushOneLine(START, u);
      if u[3..] != [] {
        assert forall i :: 0 <= i < |u[3..]| ==> u[3..][i] == u[i + 3];
        PushOneLine(START, u[3..]);
      }
    } else {
      HeartbeatTransparency(log);
    }
  }

  /** What the upstream can be checked for: no mark, or a first line that is inert or never ended. */
  predicate MarkHarmless(u: Bytes) {
    StartsWith(u, BOM) ==>
      var i := FindNewline(u[3..]);
      i == |u[3..]| || Inert(u[3..][..i])
  }

  lemma MarkedText(u: Bytes, i: nat)
    requires StartsWith(u, BOM) && i <= |u| - 3 && OneLine(u[3..][..i])
    ensures i == |u| - 3 ==> OneLine(u)
    ensures i < |u| - 3 ==> StartsWith(u, BOM + u[3..][..i] + [u[3..][i]])
  {
    var line := u[3..][..i];
    assert forall j :: 3 <= j < i + 3 ==> u[j] == line[j - 3];
    assert u[0] == BOM[0] && u[1] == BOM[1] && u[2] == BOM[2];
    if i < |u| - 3 {
      assert BOM + line + [u[3..][i]] == u[..i + 4];
    }
  }

  /** Transparency for every paced log but those that lose a live first line. */
  lemma ObservedTransparency(log: seq<Entry>)
    requires Paced(log) && (HeartbeatFirst(log) ==> MarkHarmless(Payload(log)))
    ensures Transparent(log)
  {
    var u := Payload(log);
    if StartsWith(u, BOM) && HeartbeatFirst(log) {
      var i := FindNewline(u[3..]);
      MarkedText(u, i);
      if i == |u| - 3 {
        UnendedFirstLine(log);
      } else {
        TransparentWhenInert(log, u[3..][..i], u[3..][i]);
      }
    } else {
      HeartbeatTransparency(log);
    }
  }

  // ===== One event that is lost =====

  const EVENT_LINE: Bytes := "data: x"
  const MARKED_EVENT: Bytes := BOM + EVENT_LINE + [LF] + [LF]

  lemma ReadsIntact()
    ensures Intact(EVENT_LINE, LF, [LF]) == Parser(Received(FRESH, "x"), [], false)
  {
    var value: Bytes := "x";
    assert DATA_PREFIX + value == EVENT_LINE;
    DataEvent(START, value);
    PushAllConcat(START, EVENT_LINE + [LF], [LF]);
  }

  lemma BlankLineAlone(p: Parser)
    requires p == Parser(FRESH, [], false)
    ensures PushAll(p, [LF]).client == FRESH
  {
    PushAllSnoc(p, [], LF);
    assert [] + [LF] == [LF];
    assert Push(p, LF).client == Dispatch(FRESH);
  }

  lemma NothingDisplaced(line: Bytes)
    requires OneLine(line)
    ensures Displaced(line, LF, [LF]).client == FRESH
  {
    MarkedLine(line, LF);
    BlankLineAlone(PushAll(START, BOM + line + [LF]));
  }

  lemma EventLineIsOneLine()
    ensures OneLine(EVENT_LINE)
  {
  }

  /** One heartbeat, then one marked event, which the client never sees. */
  lemma MarkedEventIsLost()
    ensures var log := Late(MARKED_EVENT);
      && Decode(Payload(log)).client.events == [Event("message", "x", [])]
      && Decode(Wire(log)).client.events == []
  {
    LateIsPaced(MARKED_EVENT);
    DisplacedMark(Late(MARKED_EVENT), EVENT_LINE, LF, [LF]);
    ReadsIntact();
    EventLineIsOneLine();
    NothingDisplaced(EVENT_LINE);
  }
}
