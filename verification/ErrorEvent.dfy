/** Error events for the four endpoint kinds (error_event.rs): an upstream error body that already has
    the shape of the API's own errors is embedded, anything else is wrapped. */
module ErrorEvent {
  import opened ByteStrings
  import opened Json
  import opened Sse
  import opened Tracker
  import Transparency
  import Utf8

  datatype Kind = ChatCompletions | Responses | AnthropicMessages | GeminiStream

  /** A status code with its canonical reason phrase, if it has one. */
  datatype Status = Status(code: nat, reason: Option<Bytes>)

  const BAD_GATEWAY_PHRASE: Bytes := "Bad Gateway"
  const BAD_GATEWAY := Status(502, Some(BAD_GATEWAY_PHRASE))
  const MAX_MSG := 4096

  // ===== The message text =====

  function Decimal(n: nat): Bytes {
    if n < 10 then [(n + '0' as int) as char] else Decimal(n / 10) + [(n % 10 + '0' as int) as char]
  }

  function Phrase(status: Status): Bytes {
    if status.reason.Some? then status.reason.value else BAD_GATEWAY_PHRASE
  }

  function StatusFallback(status: Status): Bytes {
    Decimal(status.code) + [' '] + Phrase(status)
  }

  const FAILED: Bytes := "upstream request failed: "

  /** The readable text of an error body: valid UTF-8 that is not just white space. */
  function BodyText(body: Option<Bytes>): Option<Bytes> {
    if body.Some? && Utf8.Valid(body.value) && Utf8.Trim(body.value) != [] then Some(Utf8.Trim(body.value)) else None
  }

  function Shortened(text: Bytes): Bytes {
    if |text| <= MAX_MSG then text else text[..Utf8.CutAt(text, MAX_MSG)]
  }

  function MessageText(body: Option<Bytes>, reason: Option<Bytes>, status: Status): Bytes {
    if reason.Some? then FAILED + reason.value
    else if BodyText(body).Some? then Shortened(BodyText(body).value)
    else StatusFallback(status)
  }

  method Message(body: Option<Bytes>, reason: Option<Bytes>, status: Status) returns (text: Bytes)
    ensures text == MessageText(body, reason, status)
  {
    if reason.Some? {
      return FAILED + reason.value;
    }
    if body.Some? && body.value != [] {
      if !Utf8.Valid(body.value) {
        return StatusFallback(status);
      }
      var trimmed := Utf8.Trim(body.value);
      if trimmed == [] {
        return StatusFallback(status);
      }
      if |trimmed| <= MAX_MSG {
        return trimmed;
      }
      var end := MAX_MSG;
      while end > 0 && !Utf8.IsCharBoundary(trimmed, end)
        invariant 0 <= end <= MAX_MSG
        invariant Utf8.CutAt(trimmed, end) == Utf8.CutAt(trimmed, MAX_MSG)
      {
        end := end - 1;
      }
      return trimmed[..end];
    }
    return StatusFallback(status);
  }

  predicate Ascii(s: Bytes) {
    forall i :: 0 <= i < |s| ==> s[i] as int < 0x80
  }

  lemma {:induction false} AsciiIsValid(s: Bytes)
    requires Ascii(s)
    ensures Utf8.Valid(s)
  {
    if s == [] {
    } else {
      AsciiIsValid(s[1..]);
    }
  }

  lemma {:induction false} DecimalIsAscii(n: nat)
    ensures Ascii(Decimal(n))
  {
    if n < 10 {
    } else {
      DecimalIsAscii(n / 10);
    }
  }

  lemma AsciiConcat(a: Bytes, b: Bytes)
    requires Ascii(a) && Ascii(b)
    ensures Ascii(a + b)
  {
  }

  lemma PhraseIsAscii(status: Status)
    requires status.reason.Some? ==> Ascii(status.reason.value)
    ensures Ascii(Phrase(status))
  {
  }

  lemma FallbackIsValid(status: Status)
    requires status.reason.Some? ==> Ascii(status.reason.value)
    ensures Utf8.Valid(StatusFallback(status))
  {
    DecimalIsAscii(status.code);
    PhraseIsAscii(status);
    AsciiConcat(Decimal(status.code), [' ']);
    AsciiConcat(Decimal(status.code) + [' '], Phrase(status));
    AsciiIsValid(StatusFallback(status));
  }

  /** m is t, or the longest valid prefix of t within the limit, at most three octets short of it. */
  ghost predicate IsExcerpt(m: Bytes, t: Bytes) {
    && Utf8.Valid(m) && m <= t && |m| <= 4096
    && (|t| <= 4096 ==> m == t)
    && (|t| > 4096 ==> 4093 <= |m| && forall i :: |m| < i <= 4096 ==> !Utf8.Valid(t[..i]))
  }

  lemma ShortenedMeans(t: Bytes)
    requires Utf8.Valid(t)
    ensures IsExcerpt(Shortened(t), t)
  {
    if |t| > MAX_MSG {
      Utf8.CutIsTight(t, MAX_MSG);
    }
  }

  /** For a body of valid UTF-8 the message is valid UTF-8. A text of at most 4096 octets is kept
      whole; a longer one is cut to its longest valid prefix within 4096, at most three octets short. */
  lemma MessageIsBounded(body: Bytes, status: Status)
    requires Utf8.Valid(body)
    requires status.reason.Some? ==> Ascii(status.reason.value)
    ensures var m, t := MessageText(Some(body), None, status), Utf8.Trim(body);
      && Utf8.Valid(m)
      && (t != [] ==> IsExcerpt(m, t))
  {
    var t := Utf8.Trim(body);
    if t == [] {
      FallbackIsValid(status);
    } else {
      Utf8.TrimMeans(body);
      ShortenedMeans(t);
    }
  }

  // ===== The payload =====

  const ERROR: Bytes := "error"
  const MESSAGE: Bytes := "message"
  const TYPE: Bytes := "type"
  const PARAM: Bytes := "param"
  const CODE: Bytes := "code"
  const STATUS: Bytes := "status"
  const SEQUENCE_NUMBER: Bytes := "sequence_number"

  predicate IsClientError(code: nat) {
    400 <= code < 500
  }

  function ChatErrorType(status: Status): Bytes {
    if status.code == 429 then "rate_limit_error"
    else if IsClientError(status.code) then "invalid_request_error"
    else "server_error"
  }

  function ResponsesCode(status: Status): Bytes {
    if status.code == 429 then "rate_limit_exceeded"
    else if 500 <= status.code < 600 || status.code == 502 then "server_error"
    else "invalid_request_error"
  }

  function AnthropicErrorType(status: Status): Bytes {
    match status.code
    case 400 => "invalid_request_error"
    case 401 => "authentication_error"
    case 403 => "permission_error"
    case 404 => "not_found_error"
    case 413 => "request_too_large"
    case 429 => "rate_limit_error"
    case 529 => "overloaded_error"
    case _ => "api_error"
  }

  function GeminiStatus(status: Status): Bytes {
    match status.code
    case 400 => "INVALID_ARGUMENT"
    case 401 => "UNAUTHENTICATED"
    case 403 => "PERMISSION_DENIED"
    case 404 => "NOT_FOUND"
    case 429 => "RESOURCE_EXHAUSTED"
    case 500 => "INTERNAL"
    case 503 => "UNAVAILABLE"
    case 504 => "DEADLINE_EXCEEDED"
    case _ => "UNKNOWN"
  }

  lemma {:induction false} DecimalIsNumber(n: nat)
    ensures Decimal(n) != [] && forall i :: 0 <= i < |Decimal(n)| ==> Decimal(n)[i] in NUMBER_BYTES
  {
    forall b: Byte | '0' <= b <= '9' ensures b in NUMBER_BYTES {
      assert NUMBER_BYTES[b as int - '0' as int] == b;
    }
    if n < 10 {
    } else {
      DecimalIsNumber(n / 10);
    }
  }

  function Integer(n: nat): Value {
    DecimalIsNumber(n);
    Number(Decimal(n))
  }

  /** What the gateway is told about a failure. `parsed` is the body as JSON, if it is JSON. */
  datatype Failure = Failure(status: Option<Status>, body: Option<Bytes>, parsed: Option<Value>, reason: Option<Bytes>)

  function StatusOf(f: Failure): Status {
    if f.status.Some? then f.status.value else BAD_GATEWAY
  }

  /** The body as JSON, if there is a body. */
  function ParsedBody(f: Failure): Option<Value> {
    if f.body.Some? && f.body.value != [] then f.parsed else None
  }

  function ParseTopLevelError(v: Option<Value>): Option<Value> {
    if v.Some? && Get(v.value, ERROR).Some? then v else None
  }

  function ParseAnthropicError(v: Option<Value>): Option<Value> {
    if v.Some? && AsText(Get(v.value, TYPE)) == Some(ERROR) && Get(v.value, ERROR).Some? then v else None
  }

  datatype Fields = Fields(code: Bytes, message: Bytes, param: Value)

  function ParseResponsesError(v: Option<Value>): Option<Fields> {
    if v.Some? && Get(v.value, ERROR).Some? then
      var e := Get(v.value, ERROR).value;
      var code, message := AsText(Get(e, CODE)), AsText(Get(e, MESSAGE));
      if code.Some? && message.Some? then
        Some(Fields(code.value, message.value, if Get(e, PARAM).Some? then Get(e, PARAM).value else Null))
      else None
    else None
  }

  /** An object built member by member. */
  function Put(v: Value, key: Bytes, value: Value): Value
    requires v.Object?
    ensures Put(v, key, value).Object?
  {
    Object(Insert(v.members, key, value))
  }

  const EMPTY := Object([])

  function ChatPayload(status: Status, message: Bytes): Value {
    Put(EMPTY, ERROR,
        Put(Put(Put(Put(EMPTY, MESSAGE, Text(message)), TYPE, Text(ChatErrorType(status))), PARAM, Null), CODE, Null))
  }

  function ResponsesPayload(fields: Fields): Value {
    Put(Put(Put(Put(Put(EMPTY, TYPE, Text(ERROR)), CODE, Text(fields.code)), MESSAGE, Text(fields.message)),
            PARAM, fields.param), SEQUENCE_NUMBER, Integer(0))
  }

  function AnthropicPayload(status: Status, message: Bytes): Value {
    Put(Put(EMPTY, TYPE, Text(ERROR)), ERROR,
        Put(Put(EMPTY, TYPE, Text(AnthropicErrorType(status))), MESSAGE, Text(message)))
  }

  function GeminiPayload(status: Status, message: Bytes): Value {
    Put(EMPTY, ERROR,
        Put(Put(Put(EMPTY, CODE, Integer(status.code)), MESSAGE, Text(message)), STATUS, Text(GeminiStatus(status))))
  }

  /** The JSON value the client is to receive. */
  function Payload(kind: Kind, f: Failure): Value {
    var status, v := StatusOf(f), ParsedBody(f);
    var message := MessageText(f.body, f.reason, status);
    match kind
    case ChatCompletions =>
      if ParseTopLevelError(v).Some? then v.value else ChatPayload(status, message)
    case Responses =>
      ResponsesPayload(
        if ParseResponsesError(v).Some? then ParseResponsesError(v).value
        else Fields(ResponsesCode(status), message, Null))
    case AnthropicMessages =>
      if ParseAnthropicError(v).Some? then v.value else AnthropicPayload(status, message)
    case GeminiStream =>
      if ParseTopLevelError(v).Some? then v.value else GeminiPayload(status, message)
  }

  // ===== The frame =====

  const EVENT_LINE: Bytes := "event: error"
  const DONE_MARK: Bytes := "[DONE]"

  function DataFrame(data: Bytes): Bytes {
    DATA_PREFIX + data + [LF] + [LF]
  }

  function Frame(kind: Kind, payload: Value): Bytes {
    match kind
    case ChatCompletions => DataFrame(Print(payload)) + DataFrame(DONE_MARK)
    case GeminiStream => DataFrame(Print(payload))
    case _ => EVENT_LINE + [LF] + DataFrame(Print(payload))
  }

  const DONE_FRAME: Bytes := "\n\ndata: [DONE]\n\n"
  const ERROR_HEAD: Bytes := "event: error\ndata: "

  lemma PushedData(data: Bytes)
    ensures DATA_PREFIX + data + BLANK_LINES == DataFrame(data)
    ensures DATA_PREFIX + data + DONE_FRAME == DataFrame(data) + DataFrame(DONE_MARK)
  {
    assert BLANK_LINES == [LF] + [LF];
    assert DONE_FRAME == [LF] + [LF] + DataFrame(DONE_MARK);
  }

  lemma PushedError(data: Bytes)
    ensures ERROR_HEAD + data + BLANK_LINES == EVENT_LINE + [LF] + DataFrame(data)
  {
    assert BLANK_LINES == [LF] + [LF];
    assert ERROR_HEAD == EVENT_LINE + [LF] + DATA_PREFIX;
  }

  method BuildChat(f: Failure) returns (s: Bytes)
    ensures s == Frame(ChatCompletions, Payload(ChatCompletions, f))
  {
    s := DATA_PREFIX;
    PushedData(Print(Payload(ChatCompletions, f)));
    var value := ParseTopLevelError(ParsedBody(f));
    if value.Some? {
      s := s + Print(value.value);
      s := s + DONE_FRAME;
      return;
    }
    var message := Message(f.body, f.reason, StatusOf(f));
    s := s + Print(ChatPayload(StatusOf(f), message));
    s := s + DONE_FRAME;
  }

  method BuildResponses(f: Failure) returns (s: Bytes)
    ensures s == Frame(Responses, Payload(Responses, f))
  {
    var fields := ParseResponsesError(ParsedBody(f));
    var used;
    if fields.Some? {
      used := fields.value;
    } else {
      var message := Message(f.body, f.reason, StatusOf(f));
      used := Fields(ResponsesCode(StatusOf(f)), message, Null);
    }
    PushedError(Print(ResponsesPayload(used)));
    s := ERROR_HEAD;
    s := s + Print(ResponsesPayload(used));
    s := s + BLANK_LINES;
  }

  method BuildAnthropic(f: Failure) returns (s: Bytes)
    ensures s == Frame(AnthropicMessages, Payload(AnthropicMessages, f))
  {
    s := ERROR_HEAD;
    PushedError(Print(Payload(AnthropicMessages, f)));
    var value := ParseAnthropicError(ParsedBody(f));
    if value.Some? {
      s := s + Print(value.value);
      s := s + BLANK_LINES;
      return;
    }
    var message := Message(f.body, f.reason, StatusOf(f));
    s := s + Print(AnthropicPayload(StatusOf(f), message));
    s := s + BLANK_LINES;
  }

  method BuildGemini(f: Failure) returns (s: Bytes)
    ensures s == Frame(GeminiStream, Payload(GeminiStream, f))
  {
    s := DATA_PREFIX;
    PushedData(Print(Payload(GeminiStream, f)));
    var value := ParseTopLevelError(ParsedBody(f));
    if value.Some? {
      s := s + Print(value.value);
      s := s + BLANK_LINES;
      return;
    }
    var message := Message(f.body, f.reason, StatusOf(f));
    s := s + Print(GeminiPayload(StatusOf(f), message));
    s := s + BLANK_LINES;
  }

  /** The whole error frame. */
  method Build(kind: Kind, f: Failure) returns (frame: Bytes)
    ensures frame == Frame(kind, Payload(kind, f))
  {
    match kind
    case ChatCompletions => frame := BuildChat(f);
    case Responses => frame := BuildResponses(f);
    case AnthropicMessages => frame := BuildAnthropic(f);
    case GeminiStream => frame := BuildGemini(f);
  }

  // ===== What the client makes of it =====

  function EventKind(kind: Kind): Bytes {
    if kind.Responses? || kind.AnthropicMessages? then ERROR else MESSAGE
  }

  function ErrorEvents(kind: Kind, payload: Value, id: Bytes): seq<Event> {
    [Event(EventKind(kind), Print(payload), id)]
    + if kind.ChatCompletions? then [Event(MESSAGE, DONE_MARK, id)] else []
  }

  lemma EventField(c: Client)
    ensures ProcessLine(c, EVENT_LINE) == c.(kind := ERROR)
  {
    var name: Bytes := "event";
    assert name + COLON_SPACE + ERROR == EVENT_LINE;
    FieldLine(c, name, ERROR);
  }

  lemma EventLineIsOneLine()
    ensures OneLine(EVENT_LINE) && EVENT_LINE != []
  {
  }

  lemma EventLine(p: Parser)
    requires Transparency.AtRest(p)
    ensures PushAll(p, EVENT_LINE + [LF]) == Parser(p.client.(kind := ERROR), [], false)
  {
    EventLineIsOneLine();
    EventField(p.client);
    PushLine(p, EVENT_LINE);
  }

  lemma NamedFrame(p: Parser, data: Bytes)
    requires Transparency.AtRest(p) && OneLine(data)
    ensures PushAll(p, EVENT_LINE + [LF] + DataFrame(data))
         == Parser(p.client.(events := p.client.events + [Event(ERROR, data, p.client.id)]), [], false)
  {
    EventLine(p);
    PushAllConcat(p, EVENT_LINE + [LF], DataFrame(data));
    DataEvent(Parser(p.client.(kind := ERROR), [], false), data);
  }

  lemma PlainFrame(p: Parser, data: Bytes)
    requires Transparency.AtRest(p) && OneLine(data)
    ensures PushAll(p, DataFrame(data))
         == Parser(p.client.(events := p.client.events + [Event(MESSAGE, data, p.client.id)]), [], false)
  {
    DataEvent(p, data);
  }

  lemma DoneFrame(p: Parser, data: Bytes)
    requires Transparency.AtRest(p) && OneLine(data)
    ensures PushAll(p, DataFrame(data) + DataFrame(DONE_MARK))
         == Parser(p.client.(events := p.client.events
                              + [Event(MESSAGE, data, p.client.id), Event(MESSAGE, DONE_MARK, p.client.id)]), [], false)
  {
    PlainFrame(p, data);
    var q := PushAll(p, DataFrame(data));
    PlainFrame(q, DONE_MARK);
    PushAllConcat(p, DataFrame(data), DataFrame(DONE_MARK));
    var a, b := Event(MESSAGE, data, p.client.id), Event(MESSAGE, DONE_MARK, p.client.id);
    assert p.client.events + [a] + [b] == p.client.events + [a, b];
  }

  /** From rest, an error frame makes exactly the events of its kind, in the type of its kind, with the
      compact JSON as data; the JSON reads back as the payload, and the client is at rest again. */
  lemma FrameDecodes(kind: Kind, payload: Value, p: Parser)
    requires Transparency.AtRest(p)
    ensures PushAll(p, Frame(kind, payload))
         == Parser(p.client.(events := p.client.events + ErrorEvents(kind, payload, p.client.id)), [], false)
    ensures ReadValue(ErrorEvents(kind, payload, p.client.id)[0].data) == Found(payload, [])
    ensures var id, added := p.client.id, ErrorEvents(kind, payload, p.client.id);
      match kind
      case ChatCompletions => added == [Event("message", Print(payload), id), Event("message", "[DONE]", id)]
      case GeminiStream => added == [Event("message", Print(payload), id)]
      case _ => added == [Event("error", Print(payload), id)]
  {
    PrintIsOneLine(payload);
    ReadsBack(payload, []);
    assert Print(payload) + [] == Print(payload);
    var a := Event(EventKind(kind), Print(payload), p.client.id);
    assert [a] + [] == [a];
    match kind
    case ChatCompletions =>
      DoneFrame(p, Print(payload));
      assert [a] + [Event(MESSAGE, DONE_MARK, p.client.id)] == [a, Event(MESSAGE, DONE_MARK, p.client.id)];
    case GeminiStream => PlainFrame(p, Print(payload));
    case _ => NamedFrame(p, Print(payload));
  }

  /** An error frame cannot be taken for the rest of a byte order mark. */
  lemma FrameBegins(kind: Kind, payload: Value)
    ensures Frame(kind, payload) != [] && Frame(kind, payload)[0] !in BOM
  {
    assert DATA_PREFIX[0] == 'd' && EVENT_LINE[0] == 'e';
  }

  // ===== What the payload says =====

  lemma ErrorNamesDiffer()
    ensures MESSAGE != TYPE && MESSAGE != PARAM && MESSAGE != CODE && MESSAGE != STATUS
    ensures TYPE != PARAM && TYPE != CODE && TYPE != STATUS && TYPE != ERROR && TYPE != SEQUENCE_NUMBER
    ensures PARAM != CODE && PARAM != SEQUENCE_NUMBER && CODE != STATUS
    ensures CODE != SEQUENCE_NUMBER && MESSAGE != SEQUENCE_NUMBER
  {
    assert MESSAGE[0] == 'm' && TYPE[0] == 't' && PARAM[0] == 'p' && CODE[0] == 'c' && STATUS[0] == 's';
    assert ERROR[0] == 'e' && SEQUENCE_NUMBER[0] == 's';
  }

  lemma GetPut(v: Value, key: Bytes, value: Value)
    requires v.Object?
    ensures forall other :: Get(Put(v, key, value), other) == if other == key then Some(value) else Get(v, other)
  {
    forall other ensures Get(Put(v, key, value), other) == if other == key then Some(value) else Get(v, other) {
      FindInserted(v.members, key, value, other);
    }
  }

  /** The upstream's error body is this JSON value. */
  predicate Says(f: Failure, v: Value) {
    f.body.Some? && f.body.value != [] && f.parsed == Some(v)
  }

  /** v is an error of the Responses API: its `error` e has a code and a message that are texts. */
  predicate IsResponsesError(v: Value, e: Value, code: Bytes, message: Bytes) {
    Get(v, ERROR) == Some(e) && Get(e, CODE) == Some(Text(code)) && Get(e, MESSAGE) == Some(Text(message))
  }

  predicate IsAnthropicError(v: Value) {
    Get(v, TYPE) == Some(Text(ERROR)) && Get(v, ERROR).Some?
  }

  /** v is an error as the endpoint's own API would put it. */
  ghost predicate Recognised(kind: Kind, v: Value) {
    match kind
    case Responses => exists e, code, message :: IsResponsesError(v, e, code, message)
    case AnthropicMessages => IsAnthropicError(v)
    case _ => Get(v, ERROR).Some?
  }

  /** No error of the endpoint's API came from the upstream. */
  ghost predicate NothingRecognised(kind: Kind, f: Failure) {
    forall v :: Says(f, v) ==> !Recognised(kind, v)
  }

  lemma ChatObject(status: Status, message: Bytes)
    ensures var p := ChatPayload(status, message);
      var e := Get(p, ERROR);
      && e.Some? && (forall k :: Get(p, k).Some? ==> k == ERROR)
      && Get(e.value, MESSAGE) == Some(Text(message)) && Get(e.value, TYPE) == Some(Text(ChatErrorType(status)))
      && Get(e.value, PARAM) == Some(Null) && Get(e.value, CODE) == Some(Null)
      && (forall k :: Get(e.value, k).Some? ==> k == MESSAGE || k == TYPE || k == PARAM || k == CODE)
  {
    var m, t := Text(message), Text(ChatErrorType(status));
    var e1 := Put(EMPTY, MESSAGE, m);
    var e2 := Put(e1, TYPE, t);
    var e3 := Put(e2, PARAM, Null);
    var e4 := Put(e3, CODE, Null);
    ErrorNamesDiffer();
    GetPut(EMPTY, ERROR, e4);
    GetPut(EMPTY, MESSAGE, m);
    GetPut(e1, TYPE, t);
    GetPut(e2, PARAM, Null);
    GetPut(e3, CODE, Null);
  }

  lemma ResponsesObject(fields: Fields)
    ensures var p := ResponsesPayload(fields);
      && Get(p, TYPE) == Some(Text(ERROR)) && Get(p, SEQUENCE_NUMBER) == Some(Integer(0))
      && Get(p, CODE) == Some(Text(fields.code)) && Get(p, MESSAGE) == Some(Text(fields.message))
      && Get(p, PARAM) == Some(fields.param)
      && (forall k :: Get(p, k).Some? ==>
            k == TYPE || k == CODE || k == MESSAGE || k == PARAM || k == SEQUENCE_NUMBER)
  {
    var e1 := Put(EMPTY, TYPE, Text(ERROR));
    var e2 := Put(e1, CODE, Text(fields.code));
    var e3 := Put(e2, MESSAGE, Text(fields.message));
    var e4 := Put(e3, PARAM, fields.param);
    ErrorNamesDiffer();
    GetPut(EMPTY, TYPE, Text(ERROR));
    GetPut(e1, CODE, Text(fields.code));
    GetPut(e2, MESSAGE, Text(fields.message));
    GetPut(e3, PARAM, fields.param);
    GetPut(e4, SEQUENCE_NUMBER, Integer(0));
  }

  lemma AnthropicObject(status: Status, message: Bytes)
    ensures var p := AnthropicPayload(status, message);
      var e := Get(p, ERROR);
      && Get(p, TYPE) == Some(Text(ERROR)) && e.Some?
      && (forall k :: Get(p, k).Some? ==> k == TYPE || k == ERROR)
      && Get(e.value, TYPE) == Some(Text(AnthropicErrorType(status))) && Get(e.value, MESSAGE) == Some(Text(message))
      && (forall k :: Get(e.value, k).Some? ==> k == TYPE || k == MESSAGE)
  {
    var m, t := Text(message), Text(AnthropicErrorType(status));
    var e1 := Put(EMPTY, TYPE, t);
    var e2 := Put(e1, MESSAGE, m);
    var p1 := Put(EMPTY, TYPE, Text(ERROR));
    ErrorNamesDiffer();
    GetPut(EMPTY, TYPE, t);
    GetPut(e1, MESSAGE, m);
    GetPut(EMPTY, TYPE, Text(ERROR));
    GetPut(p1, ERROR, e2);
  }

  lemma GeminiObject(status: Status, message: Bytes)
    ensures var p := GeminiPayload(status, message);
      var e := Get(p, ERROR);
      && e.Some? && (forall k :: Get(p, k).Some? ==> k == ERROR)
      && Get(e.value, CODE) == Some(Integer(status.code)) && Get(e.value, MESSAGE) == Some(Text(message))
      && Get(e.value, STATUS) == Some(Text(GeminiStatus(status)))
      && (forall k :: Get(e.value, k).Some? ==> k == CODE || k == MESSAGE || k == STATUS)
  {
    var m, t := Text(message), Text(GeminiStatus(status));
    var e1 := Put(EMPTY, CODE, Integer(status.code));
    var e2 := Put(e1, MESSAGE, m);
    var e3 := Put(e2, STATUS, t);
    ErrorNamesDiffer();
    GetPut(EMPTY, ERROR, e3);
    GetPut(EMPTY, CODE, Integer(status.code));
    GetPut(e1, MESSAGE, m);
    GetPut(e2, STATUS, t);
  }

  /** A JSON value from the upstream is passed on unchanged if and only if it has a top-level error;
      otherwise an error object carries the message text and a type taken from the status, and no more. */
  lemma ChatPayloadMeans(f: Failure)
    ensures var p := Payload(ChatCompletions, f);
      var e := Get(p, ERROR);
      && e.Some?
      && (forall v :: Says(f, v) ==> (p == v <==> Get(v, ERROR).Some?))
      && (NothingRecognised(ChatCompletions, f) ==>
            && Get(e.value, MESSAGE) == Some(Text(MessageText(f.body, f.reason, StatusOf(f))))
            && Get(e.value, TYPE) == Some(Text(ChatErrorType(StatusOf(f))))
            && Get(e.value, PARAM) == Some(Null) && Get(e.value, CODE) == Some(Null)
            && (forall k :: Get(p, k).Some? ==> k == ERROR)
            && (forall k :: Get(e.value, k).Some? ==> k == MESSAGE || k == TYPE || k == PARAM || k == CODE))
  {
    ChatObject(StatusOf(f), MessageText(f.body, f.reason, StatusOf(f)));
    if f.parsed.Some? && f.body.Some? && f.body.value != [] {
      assert Says(f, f.parsed.value);
    }
  }

  /** Code, message and param of an upstream error of this API; otherwise a code by status, the message
      text and null. */
  lemma ResponsesPayloadMeans(f: Failure)
    ensures var p := Payload(Responses, f);
      && Get(p, TYPE) == Some(Text(ERROR))
      && Get(p, SEQUENCE_NUMBER) == Some(Integer(0))
      && (forall v, e, code, message :: Says(f, v) && IsResponsesError(v, e, code, message) ==>
            && Get(p, CODE) == Some(Text(code)) && Get(p, MESSAGE) == Some(Text(message))
            && Get(p, PARAM) == Some(if Get(e, PARAM).Some? then Get(e, PARAM).value else Null))
      && (NothingRecognised(Responses, f) ==>
            && Get(p, CODE) == Some(Text(ResponsesCode(StatusOf(f))))
            && Get(p, MESSAGE) == Some(Text(MessageText(f.body, f.reason, StatusOf(f))))
            && Get(p, PARAM) == Some(Null))
      && (forall k :: Get(p, k).Some? ==>
            k == TYPE || k == CODE || k == MESSAGE || k == PARAM || k == SEQUENCE_NUMBER)
  {
    var known := ParseResponsesError(ParsedBody(f));
    ResponsesObject(
      if known.Some? then known.value
      else Fields(ResponsesCode(StatusOf(f)), MessageText(f.body, f.reason, StatusOf(f)), Null));
    if known.Some? {
      var v := f.parsed.value;
      assert Says(f, v) && IsResponsesError(v, Get(v, ERROR).value, known.value.code, known.value.message);
    }
  }

  /** A JSON value from the upstream is passed on unchanged if and only if it has the type "error" and an
      error; otherwise such an object carries a type by status and the message text, and no more. */
  lemma AnthropicPayloadMeans(f: Failure)
    ensures var p := Payload(AnthropicMessages, f);
      var e := Get(p, ERROR);
      && Get(p, TYPE) == Some(Text(ERROR)) && e.Some?
      && (forall v :: Says(f, v) ==> (p == v <==> Get(v, TYPE) == Some(Text(ERROR)) && Get(v, ERROR).Some?))
      && (NothingRecognised(AnthropicMessages, f) ==>
            && Get(e.value, TYPE) == Some(Text(AnthropicErrorType(StatusOf(f))))
            && Get(e.value, MESSAGE) == Some(Text(MessageText(f.body, f.reason, StatusOf(f))))
            && (forall k :: Get(p, k).Some? ==> k == TYPE || k == ERROR)
            && (forall k :: Get(e.value, k).Some? ==> k == TYPE || k == MESSAGE))
  {
    AnthropicObject(StatusOf(f), MessageText(f.body, f.reason, StatusOf(f)));
    if f.parsed.Some? && f.body.Some? && f.body.value != [] {
      assert Says(f, f.parsed.value);
    }
  }

  /** A JSON value from the upstream is passed on unchanged if and only if it has a top-level error;
      otherwise an error object carries code and name of the status and the message text, and no more. */
  lemma GeminiPayloadMeans(f: Failure)
    ensures var p := Payload(GeminiStream, f);
      var e := Get(p, ERROR);
      && e.Some?
      && (forall v :: Says(f, v) ==> (p == v <==> Get(v, ERROR).Some?))
      && (NothingRecognised(GeminiStream, f) ==>
            && Get(e.value, CODE) == Some(Integer(StatusOf(f).code))
            && Get(e.value, MESSAGE) == Some(Text(MessageText(f.body, f.reason, StatusOf(f))))
            && Get(e.value, STATUS) == Some(Text(GeminiStatus(StatusOf(f))))
            && (forall k :: Get(p, k).Some? ==> k == ERROR)
            && (forall k :: Get(e.value, k).Some? ==> k == CODE || k == MESSAGE || k == STATUS))
  {
    GeminiObject(StatusOf(f), MessageText(f.body, f.reason, StatusOf(f)));
    if f.parsed.Some? && f.body.Some? && f.body.value != [] {
      assert Says(f, f.parsed.value);
    }
  }

  // ===== What the message says =====

  /** With a reason, the reason; without one, the readable text of the body; failing that, the status
      line. */
  lemma MessageMeans(body: Option<Bytes>, reason: Option<Bytes>, status: Status)
    ensures reason.Some? ==> MessageText(body, reason, status) == "upstream request failed: " + reason.value
    ensures reason.None? && body.Some? && Utf8.Valid(body.value) && Utf8.Trim(body.value) != [] ==>
      IsExcerpt(MessageText(body, reason, status), Utf8.Trim(body.value))
    ensures reason.None? && (body.None? || !Utf8.Valid(body.value) || Utf8.Trim(body.value) == []) ==>
      MessageText(body, reason, status) == Decimal(status.code) + " " + Phrase(status)
  {
    if reason.None? && body.Some? && Utf8.Valid(body.value) && Utf8.Trim(body.value) != [] {
      Utf8.TrimMeans(body.value);
      ShortenedMeans(Utf8.Trim(body.value));
    }
  }

  /** A number is written in decimal: digits that read back as the number. */
  lemma {:induction false} DecimalReadsBack(n: nat)
    ensures AllDigits(Decimal(n)) && DecimalValue(Decimal(n)) == n
    ensures Decimal(n)[0] == '0' ==> n == 0
  {
    if n < 10 {
      assert Decimal(n)[..0] == [];
    } else {
      DecimalReadsBack(n / 10);
      assert Decimal(n)[..|Decimal(n)| - 1] == Decimal(n / 10);
    }
  }
}
