/** The client's side of the wire: sections 9.2.5 (parsing) and 9.2.6 (interpretation) of the
    WHATWG HTML Living Standard, written over octets. `Interpret` is the batch reading of the
    standard; `Push` consumes one octet at a time. */
module Sse {
  import opened ByteStrings

  // ===== 9.2.5: lines end in CRLF, in LF, or in CR =====

  datatype Split = Split(lines: seq<Bytes>, rest: Bytes)

  function FindNewline(s: Bytes): (i: nat)
    ensures i <= |s|
    ensures i < |s| ==> IsNewline(s[i])
    ensures forall j :: 0 <= j < i ==> !IsNewline(s[j])
  {
    if s == [] || IsNewline(s[0]) then 0 else 1 + FindNewline(s[1..])
  }

  lemma {:induction false} FindNewlineIs(s: Bytes, i: nat)
    requires i <= |s| && OneLine(s[..i])
    requires i < |s| ==> IsNewline(s[i])
    ensures FindNewline(s) == i
  {
    if i == 0 {
    } else {
      assert s[0] == s[..i][0];
      assert s[1..][..i - 1] == s[..i][1..];
      FindNewlineIs(s[1..], i - 1);
    }
  }

  /** Past the terminator at i, which a line feed after a carriage return belongs to. */
  function AfterNewline(s: Bytes, i: nat): (next: nat)
    requires i < |s|
    ensures i < next <= |s|
  {
    if s[i] == CR && i + 1 < |s| && s[i + 1] == LF then i + 2 else i + 1
  }

  /** Complete lines, and the unterminated text after the last terminator. */
  function SplitLines(s: Bytes): Split
    decreases |s|
  {
    var i := FindNewline(s);
    if i == |s| then
      Split([], s)
    else
      var tail := SplitLines(s[AfterNewline(s, i)..]);
      Split([s[..i]] + tail.lines, tail.rest)
  }

  /** One more octet: the second half of a CRLF changes nothing, any other newline completes the
      unterminated line, and everything else extends it. */
  function Extend(t: Split, afterCr: bool, b: Byte): Split {
    if b == LF && afterCr then t
    else if IsNewline(b) then Split(t.lines + [t.rest], [])
    else Split(t.lines, t.rest + [b])
  }

  lemma SplitLinesAt(s: Bytes, i: nat)
    requires i < |s| && OneLine(s[..i]) && IsNewline(s[i])
    ensures var next := AfterNewline(s, i);
      var tail := SplitLines(s[next..]);
      SplitLines(s) == Split([s[..i]] + tail.lines, tail.rest)
  {
    FindNewlineIs(s, i);
  }

  lemma SplitOneLine(s: Bytes)
    requires OneLine(s)
    ensures SplitLines(s) == Split([], s)
  {
    assert s[..|s|] == s;
    FindNewlineIs(s, |s|);
  }

  lemma SplitLinesSnocFirst(s: Bytes, b: Byte)
    requires OneLine(s)
    ensures SplitLines(s + [b]) == Extend(Split([], s), false, b)
  {
    var t := s + [b];
    assert t[..|s|] == s;
    if IsNewline(b) {
      SplitLinesAt(t, |s|);
      assert t[|s| + 1..] == [];
      SplitOneLine([]);
      assert [s] + [] == [s] && [] + [s] == [s];
    } else {
      SplitOneLine(t);
    }
  }

  lemma ExtendBehind(line: Bytes, tail: Split, afterCr: bool, b: Byte)
    ensures var e := Extend(tail, afterCr, b);
      Extend(Split([line] + tail.lines, tail.rest), afterCr, b) == Split([line] + e.lines, e.rest)
  {
    assert ([line] + tail.lines) + [tail.rest] == [line] + (tail.lines + [tail.rest]);
  }

  /** A new octet moves the start of the next line only when it completes a CRLF. */
  lemma AfterNewlineSnoc(s: Bytes, i: nat, b: Byte)
    requires i < |s| && IsNewline(s[i])
    ensures var n, m := AfterNewline(s, i), AfterNewline(s + [b], i);
      if m == n then EndsInCr(s[n..]) == EndsInCr(s) || b != LF
      else n == |s| && m == |s + [b]| && b == LF && EndsInCr(s)
  {
    var n, t := AfterNewline(s, i), s + [b];
    assert t[i] == s[i];
    if n < |s| {
      assert t[i + 1] == s[i + 1];
      assert s[n..][|s| - n - 1] == s[|s| - 1];
    }
  }

  /** The octet that completes a CRLF at the end of the stream. */
  lemma SplitLinesPair(s: Bytes, i: nat, b: Byte)
    requires i < |s| && IsNewline(s[i]) && OneLine(s[..i])
    requires AfterNewline(s + [b], i) != AfterNewline(s, i)
    ensures SplitLines(s + [b]) == SplitLines(s) && EndsInCr(s) && b == LF
  {
    var t := s + [b];
    AfterNewlineSnoc(s, i, b);
    assert t[..i] == s[..i];
    SplitLinesAt(s, i);
    SplitLinesAt(t, i);
    assert t[AfterNewline(t, i)..] == [] && s[AfterNewline(s, i)..] == [];
  }

  lemma {:induction false} SplitLinesSnoc(s: Bytes, b: Byte)
    ensures SplitLines(s + [b]) == Extend(SplitLines(s), EndsInCr(s), b)
    decreases |s|
  {
    var i := FindNewline(s);
    if i == |s| {
      SplitOneLine(s);
      SplitLinesSnocFirst(s, b);
    } else if AfterNewline(s + [b], i) != AfterNewline(s, i) {
      SplitLinesPair(s, i, b);
    } else {
      var t, n := s + [b], AfterNewline(s, i);
      assert t[..i] == s[..i] && t[n..] == s[n..] + [b];
      AfterNewlineSnoc(s, i, b);
      SplitLinesAt(s, i);
      SplitLinesAt(t, i);
      SplitLinesSnoc(s[n..], b);
      ExtendBehind(s[..i], SplitLines(s[n..]), EndsInCr(s[n..]), b);
    }
  }

  // ===== 9.2.6: fields, buffers and dispatch =====

  datatype Event = Event(kind: Bytes, data: Bytes, lastEventId: Bytes)

  /** The data, event type and last event ID buffers, plus what a script can observe. */
  datatype Client = Client(
    data: Bytes,
    kind: Bytes,
    id: Bytes,
    lastEventId: Bytes,
    retry: Option<nat>,
    events: seq<Event>)

  const FRESH := Client([], [], [], [], None, [])

  predicate Idle(c: Client) {
    c.data == [] && c.kind == [] && c.id == c.lastEventId
  }

  predicate AllDigits(s: Bytes) {
    forall i :: 0 <= i < |s| ==> '0' <= s[i] <= '9'
  }

  function DecimalValue(s: Bytes): nat
    requires AllDigits(s)
  {
    if s == [] then 0
    else DecimalValue(s[..|s| - 1]) * 10 + (s[|s| - 1] as int - '0' as int)
  }

  /** An empty event type buffer stands for the type "message". */
  function KindName(kind: Bytes): Bytes {
    if kind == [] then "message" else kind
  }

  function WithoutFinalLf(data: Bytes): Bytes {
    if data != [] && data[|data| - 1] == LF then data[..|data| - 1] else data
  }

  function Dispatch(c: Client): Client {
    var c' := c.(data := [], kind := [], lastEventId := c.id);
    if c.data == [] then c'
    else c'.(events := c.events + [Event(KindName(c.kind), WithoutFinalLf(c.data), c.id)])
  }

  function ProcessField(c: Client, name: Bytes, value: Bytes): Client {
    if name == "event" then c.(kind := value)
    else if name == "data" then c.(data := c.data + value + [LF])
    else if name == "id" then (if '\0' in value then c else c.(id := value))
    else if name == "retry" && value != [] && AllDigits(value) then c.(retry := Some(DecimalValue(value)))
    else c
  }

  function FieldName(line: Bytes): Bytes {
    line[..IndexOf(line, ':')]
  }

  function FieldValue(line: Bytes): Bytes {
    var k := IndexOf(line, ':');
    if k == |line| then []
    else if k + 1 < |line| && line[k + 1] == ' ' then line[k + 2..]
    else line[k + 1..]
  }

  function ProcessLine(c: Client, line: Bytes): Client {
    if line == [] then Dispatch(c)
    else if line[0] == ':' then c
    else ProcessField(c, FieldName(line), FieldValue(line))
  }

  function ProcessLines(c: Client, lines: seq<Bytes>): Client {
    if lines == [] then c
    else ProcessLine(ProcessLines(c, lines[..|lines| - 1]), lines[|lines| - 1])
  }

  /** The batch reading of a finished stream: unterminated text and pending buffers dispatch nothing. */
  function Interpret(s: Bytes): Client {
    ProcessLines(FRESH, SplitLines(s).lines)
  }

  // ===== The incremental reading =====

  datatype Parser = Parser(client: Client, line: Bytes, afterCr: bool)

  const START := Parser(FRESH, [], false)

  function Push(p: Parser, b: Byte): Parser {
    if b == LF && p.afterCr then p.(afterCr := false)
    else if IsNewline(b) then Parser(ProcessLine(p.client, p.line), [], b == CR)
    else p.(line := p.line + [b], afterCr := false)
  }

  function PushAll(p: Parser, s: Bytes): Parser {
    if s == [] then p else Push(PushAll(p, s[..|s| - 1]), s[|s| - 1])
  }

  lemma PushAllSnoc(p: Parser, s: Bytes, b: Byte)
    ensures PushAll(p, s + [b]) == Push(PushAll(p, s), b)
  {
    assert (s + [b])[..|s|] == s;
  }

  lemma {:induction false} PushAllConcat(p: Parser, a: Bytes, b: Bytes)
    ensures PushAll(p, a + b) == PushAll(PushAll(p, a), b)
  {
    if b == [] {
      assert a + b == a;
    } else {
      var n := |b| - 1;
      PushAllConcat(p, a, b[..n]);
      assert a + b == (a + b[..n]) + [b[n]];
      PushAllSnoc(p, a + b[..n], b[n]);
    }
  }

  /** The parser that has read the lines of t. */
  function Having(t: Split, afterCr: bool): Parser {
    Parser(ProcessLines(FRESH, t.lines), t.rest, afterCr)
  }

  lemma PushExtends(t: Split, afterCr: bool, b: Byte)
    ensures Push(Having(t, afterCr), b) == Having(Extend(t, afterCr, b), b == CR)
  {
    assert (t.lines + [t.rest])[..|t.lines|] == t.lines;
  }

  /** The octet-at-a-time reading of any stream is the batch reading: same client, same
      unterminated line, and the carriage-return flag says whether the stream ends in one. */
  lemma {:induction false} IncrementalIsBatch(s: Bytes)
    ensures PushAll(START, s) == Parser(Interpret(s), SplitLines(s).rest, EndsInCr(s))
  {
    if s == [] {
      SplitOneLine(s);
    } else {
      var init, b := s[..|s| - 1], s[|s| - 1];
      assert s == init + [b];
      IncrementalIsBatch(init);
      SplitLinesSnoc(init, b);
      PushExtends(SplitLines(init), EndsInCr(init), b);
    }
  }

  // ===== Reading whole lines =====

  lemma {:induction false} PushOneLine(p: Parser, s: Bytes)
    requires OneLine(s) && s != []
    ensures PushAll(p, s) == p.(line := p.line + s, afterCr := false)
  {
    var n := |s| - 1;
    if n == 0 {
      assert s == [] + [s[0]];
      PushAllSnoc(p, [], s[0]);
    } else {
      PushOneLine(p, s[..n]);
      assert s == s[..n] + [s[n]];
    }
  }

  lemma PushTerminated(p: Parser, s: Bytes, newline: Byte)
    requires OneLine(s) && s != [] && p.line == [] && IsNewline(newline)
    ensures PushAll(p, s + [newline]) == Parser(ProcessLine(p.client, s), [], newline == CR)
  {
    PushOneLine(p, s);
    PushAllSnoc(p, s, newline);
    assert [] + s == s;
  }

  lemma PushLine(p: Parser, s: Bytes)
    requires OneLine(s) && s != [] && p.line == []
    ensures PushAll(p, s + [LF]) == Parser(ProcessLine(p.client, s), [], false)
  {
    PushTerminated(p, s, LF);
  }

  const COLON_SPACE: Bytes := ": "
  const DATA_PREFIX: Bytes := "data: "

  /** A field line "name: value" sets exactly that field. */
  lemma FieldLine(c: Client, name: Bytes, value: Bytes)
    requires name != [] && ':' !in name
    ensures ProcessLine(c, name + COLON_SPACE + value) == ProcessField(c, name, value)
  {
    var line := name + COLON_SPACE + value;
    assert line[|name|] == ':' && line[|name| + 1] == ' ';
    assert forall j :: 0 <= j < |name| ==> line[j] == name[j];
    IndexOfIs(line, ':', |name|);
    assert line[..|name|] == name;
    assert line[|name| + 2..] == value;
  }

  lemma DataLine(c: Client, value: Bytes)
    requires c.data == []
    ensures ProcessLine(c, DATA_PREFIX + value) == c.(data := value + [LF])
  {
    var name: Bytes := "data";
    assert name + COLON_SPACE == DATA_PREFIX;
    FieldLine(c, name, value);
    assert [] + value + [LF] == value + [LF];
  }

  /** The client after an event with this data, in the type its buffer holds. */
  function Received(c: Client, data: Bytes): Client {
    c.(data := [], kind := [], lastEventId := c.id, events := c.events + [Event(KindName(c.kind), data, c.id)])
  }

  /** A one-line data field and a blank line make one event with exactly that data. */
  lemma DataEvent(p: Parser, value: Bytes)
    requires p.line == [] && p.client.data == [] && OneLine(value)
    ensures PushAll(p, DATA_PREFIX + value + [LF] + [LF]) == Parser(Received(p.client, value), [], false)
  {
    var line := DATA_PREFIX + value;
    PushLine(p, line);
    PushAllSnoc(p, line + [LF], LF);
    DataLine(p.client, value);
    assert WithoutFinalLf(value + [LF]) == value;
  }

  // ===== Writing events, and reading them back =====

  const DATA: Bytes := "data"
  const EVENT: Bytes := "event"
  const ID: Bytes := "id"

  function FieldText(name: Bytes, value: Bytes): Bytes {
    name + COLON_SPACE + value + [LF]
  }

  function DataFields(lines: seq<Bytes>): Bytes {
    if lines == [] then [] else DataFields(lines[..|lines| - 1]) + FieldText(DATA, lines[|lines| - 1])
  }

  /** The lines, each ended by a line feed. */
  function EachEnded(lines: seq<Bytes>): Bytes {
    if lines == [] then [] else EachEnded(lines[..|lines| - 1]) + lines[|lines| - 1] + [LF]
  }

  /** An event with type, ID and data of one or more lines. */
  function EventText(kind: Bytes, id: Bytes, lines: seq<Bytes>): Bytes {
    FieldText(EVENT, kind) + FieldText(ID, id) + DataFields(lines) + [LF]
  }

  lemma PushField(p: Parser, name: Bytes, value: Bytes)
    requires p.line == [] && name != [] && ':' !in name && OneLine(name) && OneLine(value)
    ensures PushAll(p, FieldText(name, value)) == Parser(ProcessField(p.client, name, value), [], false)
  {
    var line := name + COLON_SPACE + value;
    FieldLine(p.client, name, value);
    PushLine(p, line);
  }

  predicate AllOneLine(lines: seq<Bytes>) {
    forall i :: 0 <= i < |lines| ==> OneLine(lines[i])
  }

  lemma FieldNames()
    ensures ':' !in DATA && ':' !in EVENT && ':' !in ID && OneLine(DATA) && OneLine(EVENT) && OneLine(ID)
    ensures DATA != [] && EVENT != [] && ID != []
  {
  }

  lemma {:induction false} DataFieldsRead(p: Parser, lines: seq<Bytes>)
    requires p.line == [] && AllOneLine(lines)
    ensures var q := PushAll(p, DataFields(lines));
      && q.client == p.client.(data := p.client.data + EachEnded(lines)) && q.line == []
      && (lines != [] ==> !q.afterCr)
  {
    if lines == [] {
      assert p.client.data + [] == p.client.data;
    } else {
      var init, last := lines[..|lines| - 1], lines[|lines| - 1];
      DataFieldsRead(p, init);
      PushAllConcat(p, DataFields(init), FieldText(DATA, last));
      FieldNames();
      PushField(PushAll(p, DataFields(init)), DATA, last);
      assert p.client.data + EachEnded(init) + last + [LF] == p.client.data + (EachEnded(init) + last + [LF]);
    }
  }

  lemma HeadRead(p: Parser, kind: Bytes, id: Bytes)
    requires p.line == [] && OneLine(kind) && OneLine(id) && '\0' !in id
    ensures PushAll(p, FieldText(EVENT, kind) + FieldText(ID, id))
         == Parser(p.client.(kind := kind, id := id), [], false)
  {
    FieldNames();
    PushAllConcat(p, FieldText(EVENT, kind), FieldText(ID, id));
    PushField(p, EVENT, kind);
    PushField(PushAll(p, FieldText(EVENT, kind)), ID, id);
  }

  /** An event, written down, is read back: its type, its data with the lines in order, its ID. */
  lemma EventReadsBack(p: Parser, kind: Bytes, id: Bytes, lines: seq<Bytes>)
    requires p.line == [] && Idle(p.client)
    requires OneLine(kind) && OneLine(id) && '\0' !in id && lines != [] && AllOneLine(lines)
    ensures var c, text := p.client, EachEnded(lines);
      PushAll(p, EventText(kind, id, lines))
      == Parser(Client([], [], id, id, c.retry,
                       c.events + [Event(if kind == [] then "message" else kind, text[..|text| - 1], id)]), [], false)
  {
    var head := FieldText(EVENT, kind) + FieldText(ID, id);
    HeadRead(p, kind, id);
    PushAllConcat(p, head, DataFields(lines));
    DataFieldsRead(PushAll(p, head), lines);
    PushAllSnoc(p, head + DataFields(lines), LF);
    assert [] + EachEnded(lines) == EachEnded(lines);
  }

  /** Events are only ever appended. */
  lemma {:induction false} EventsGrow(p: Parser, s: Bytes)
    ensures p.client.events <= PushAll(p, s).client.events
  {
    if s == [] {
    } else {
      EventsGrow(p, s[..|s| - 1]);
    }
  }

  // ===== The byte order mark =====

  const BOM: Bytes := ['\U{EF}', '\U{BB}', '\U{BF}']

  function WithoutBom(s: Bytes): Bytes {
    if StartsWith(s, BOM) then s[3..] else s
  }

  /** What a client has made of the octets it received so far. A leading byte order mark is
      dropped by the UTF-8 decoder, nowhere else. */
  function Decode(s: Bytes): Parser {
    PushAll(START, WithoutBom(s))
  }
}
