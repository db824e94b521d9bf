/** One request, with everything about it that is decided elsewhere, and the error event it would end
    in: handle_error's reading of the upstream's error body, and which failure is reported. */
module Requests {
  import opened ByteStrings
  import opened Headers
  import opened Encoding
  import opened Bridge
  import E = ErrorEvent
  import Json
  import Utf8

  const MAX_ERROR_BODY := 1048576
  const UNSUPPORTED: Bytes := "unsupported upstream content-encoding"

  /** The endpoint, the upstream it meets, and what the parts outside the model make of it. `reason` is
      the text of a connection or stream error, `phrase` the canonical reason phrase of the status,
      `raw` and `rawFails` the undecoded body of an error response, `decoder` the codecs and `parser`
      the JSON parser. */
  datatype Request = Request(
    kind: E.Kind,
    interval: nat,
    upstream: Upstream,
    reason: Bytes,
    phrase: Option<Bytes>,
    raw: Bytes,
    rawFails: bool,
    decoder: (Coding, Bytes) -> Decoding,
    parser: Bytes -> Option<Json.Value>)

  // ===== The error body =====

  /** The error body as collected: nothing, if it is too large or breaks off. */
  function Collected(r: Request): Bytes {
    if r.rawFails || |r.raw| > MAX_ERROR_BODY then [] else r.raw
  }

  /** The collected body with its coding undone. */
  function Decompressed(r: Request, coding: Coding): DecodeResult {
    var decoding := r.decoder(coding, Collected(r));
    Bounded(Concat(decoding.pieces), decoding.fails, MAX_ERROR_BODY)
  }

  /** Decoded if it can be, within the bound; as collected otherwise. */
  function ErrorBody(r: Request): Bytes
    requires r.upstream.Responds?
  {
    match ParseContentEncoding(r.upstream.fields)
    case None => Collected(r)
    case Some(Identity) => Collected(r)
    case Some(coding) => if Decompressed(r, coding).Decoded? then Decompressed(r, coding).out else Collected(r)
  }

  method ReadErrorBody(r: Request) returns (body: Bytes)
    requires r.upstream.Responds?
    ensures body == ErrorBody(r)
  {
    var collected := Collected(r);
    match ParseContentEncoding(r.upstream.fields)
    case None => return collected;
    case Some(Identity) => return collected;
    case Some(coding) =>
      var result := DecodeBytes(coding, collected, r.decoder(coding, collected), MAX_ERROR_BODY);
      return if result.Decoded? then result.out else collected;
  }

  /** The error body arrived, and within a mebibyte. */
  predicate ArrivedWhole(r: Request) {
    !r.rawFails && |r.raw| <= 1048576
  }

  /** The upstream's error body stands for this text: undoing the coding that the response announces,
      in whatever pieces, gives the text; a body without a coding, or with one that is not known, is
      the text itself. */
  predicate Carries(r: Request, text: Bytes)
    requires r.upstream.Responds?
  {
    match ParseContentEncoding(r.upstream.fields)
    case Some(coding) =>
      if coding == Identity then r.raw == text
      else !r.decoder(coding, r.raw).fails && Concat(r.decoder(coding, r.raw).pieces) == text
    case None => r.raw == text
  }

  /** The body that is reported never exceeds the bound. It is the text the upstream meant, if that is
      within the bound; what cannot be decoded is reported as it came, and of what did not arrive there
      is nothing but what the decoder makes of no input. */
  lemma ErrorBodyMeans(r: Request)
    requires r.upstream.Responds?
    ensures |ErrorBody(r)| <= 1048576
    ensures forall text :: ArrivedWhole(r) && Carries(r, text) && |text| <= 1048576 ==> ErrorBody(r) == text
    ensures ArrivedWhole(r) && (forall text :: Carries(r, text) ==> |text| > 1048576) ==> ErrorBody(r) == r.raw
    ensures !ArrivedWhole(r) ==>
      || ErrorBody(r) == []
      || exists coding ::
           && ParseContentEncoding(r.upstream.fields) == Some(coding) && coding != Identity
           && ErrorBody(r) == Concat(r.decoder(coding, []).pieces)
  {
    var coding := ParseContentEncoding(r.upstream.fields);
    if coding.Some? && coding.value != Identity {
      if ArrivedWhole(r) && !r.decoder(coding.value, r.raw).fails {
        assert Carries(r, Concat(r.decoder(coding.value, r.raw).pieces));
      }
    } else {
      assert Carries(r, r.raw);
    }
  }

  // ===== The error event =====

  function FailureOf(r: Request): E.Failure {
    match r.upstream
    case Unreachable => E.Failure(None, None, None, Some(r.reason))
    case Responds(status, fields, _, _) =>
      if !IsSuccess(status) then
        E.Failure(Some(E.Status(status, r.phrase)), Some(ErrorBody(r)), r.parser(ErrorBody(r)), None)
      else if ParseContentEncoding(fields).None? then E.Failure(None, None, None, Some(UNSUPPORTED))
      else E.Failure(None, None, None, Some(r.reason))
  }

  function ErrorPayload(r: Request): Json.Value {
    E.Payload(r.kind, FailureOf(r))
  }

  ghost function EnvOf(r: Request): Env {
    Env(r.interval, r.upstream, E.Frame(r.kind, ErrorPayload(r)))
  }

  /** The error event this request would end in. */
  ghost predicate Reports(r: Request, frame: Bytes) {
    frame == E.Frame(r.kind, ErrorPayload(r))
  }

  // ===== What is reported =====

  /** The readable part of an error payload. */
  function MessageOf(kind: E.Kind, payload: Json.Value): Option<Json.Value> {
    if kind.Responses? then Json.Get(payload, E.MESSAGE)
    else
      match Json.Get(payload, E.ERROR)
      case None => None
      case Some(error) => Json.Get(error, E.MESSAGE)
  }

  /** The members that depend on the status say what this status is. */
  predicate Classified(kind: E.Kind, payload: Json.Value, status: E.Status) {
    var error := Json.Get(payload, E.ERROR);
    match kind
    case ChatCompletions => error.Some? && Json.Get(error.value, E.TYPE) == Some(Json.Text(E.ChatErrorType(status)))
    case Responses => Json.Get(payload, E.CODE) == Some(Json.Text(E.ResponsesCode(status)))
    case AnthropicMessages =>
      error.Some? && Json.Get(error.value, E.TYPE) == Some(Json.Text(E.AnthropicErrorType(status)))
    case GeminiStream =>
      && error.Some?
      && Json.Get(error.value, E.CODE) == Some(E.Integer(status.code))
      && Json.Get(error.value, E.STATUS) == Some(Json.Text(E.GeminiStatus(status)))
  }

  /** Without a recognised error from the upstream, the event reports the message text and the status. */
  lemma Synthesized(kind: E.Kind, f: E.Failure)
    requires E.NothingRecognised(kind, f)
    ensures MessageOf(kind, E.Payload(kind, f)) == Some(Json.Text(E.MessageText(f.body, f.reason, E.StatusOf(f))))
    ensures Classified(kind, E.Payload(kind, f), E.StatusOf(f))
  {
    match kind
    case ChatCompletions => E.ChatPayloadMeans(f);
    case Responses => E.ResponsesPayloadMeans(f);
    case AnthropicMessages => E.AnthropicPayloadMeans(f);
    case GeminiStream => E.GeminiPayloadMeans(f);
  }

  const SELF_REPORTED := E.Status(502, Some("Bad Gateway"))

  /** The gateway's own failures, by what the upstream did: one that cannot be reached, and a stream that
      can be decoded but breaks off, are reported with the text of that error; a 2xx response whose
      coding is not known, with the text that says so. All of them count as a bad gateway. */
  lemma OwnFailureReported(r: Request)
    requires r.upstream.Responds? ==> 200 <= r.upstream.status < 300
    ensures var payload := ErrorPayload(r);
      && (r.upstream.Unreachable? || ParseContentEncoding(r.upstream.fields).Some? ==>
            MessageOf(r.kind, payload) == Some(Json.Text("upstream request failed: " + r.reason)))
      && (r.upstream.Responds? && ParseContentEncoding(r.upstream.fields).None? ==>
            MessageOf(r.kind, payload)
            == Some(Json.Text("upstream request failed: " + "unsupported upstream content-encoding")))
      && Classified(r.kind, payload, SELF_REPORTED)
  {
    var f := FailureOf(r);
    Synthesized(r.kind, f);
    E.MessageMeans(f.body, f.reason, E.StatusOf(f));
  }

  /** The status of the upstream's error response. */
  function UpstreamStatus(r: Request): E.Status
    requires r.upstream.Responds?
  {
    E.Status(r.upstream.status, r.phrase)
  }

  /** The error body is, as JSON, v. */
  predicate BodySays(r: Request, v: Json.Value)
    requires r.upstream.Responds?
  {
    ErrorBody(r) != [] && r.parser(ErrorBody(r)) == Some(v)
  }

  /** The upstream's own failures: an error as the endpoint's API puts it arrives as it was; anything
      else is reported under the upstream's status, with the text of its body, or with the status line
      if that is not a text. */
  lemma UpstreamFailureReported(r: Request)
    requires r.upstream.Responds? && !(200 <= r.upstream.status < 300)
    ensures var payload := ErrorPayload(r);
      && (forall v :: BodySays(r, v) && E.Recognised(r.kind, v) && !r.kind.Responses? ==> payload == v)
      && (forall v, e, code, message ::
            r.kind.Responses? && BodySays(r, v) && E.IsResponsesError(v, e, code, message) ==>
            && Json.Get(payload, E.CODE) == Some(Json.Text(code))
            && Json.Get(payload, E.MESSAGE) == Some(Json.Text(message))
            && Json.Get(payload, E.PARAM)
               == Some(if Json.Get(e, E.PARAM).Some? then Json.Get(e, E.PARAM).value else Json.Null))
      && ((forall v :: BodySays(r, v) ==> !E.Recognised(r.kind, v)) ==>
            && Classified(r.kind, payload, UpstreamStatus(r))
            && MessageOf(r.kind, payload)
               == Some(Json.Text(E.MessageText(Some(ErrorBody(r)), None, UpstreamStatus(r)))))
  {
    var f := FailureOf(r);
    assert forall v :: E.Says(f, v) <==> BodySays(r, v);
    match r.kind {
      case ChatCompletions => E.ChatPayloadMeans(f);
      case Responses => E.ResponsesPayloadMeans(f);
      case AnthropicMessages => E.AnthropicPayloadMeans(f);
      case GeminiStream => E.GeminiPayloadMeans(f);
    }
    if E.NothingRecognised(r.kind, f) {
      Synthesized(r.kind, f);
    }
  }

  /** The upstream's error page, as text, is not an error of the endpoint's API. */
  ghost predicate Unrecognised(r: Request, text: Bytes) {
    r.parser(text).Some? ==> !E.Recognised(r.kind, r.parser(text).value)
  }

  /** From the upstream's error page to the message the user reads: whatever its coding, a text that
      is not an error of the API comes out trimmed, whole up to 4096 octets, cut between two characters
      beyond that; what is not a text, or only blank, comes out as the status line. */
  lemma ErrorTextArrives(r: Request, text: Bytes)
    requires r.upstream.Responds? && !(200 <= r.upstream.status < 300)
    requires ArrivedWhole(r) && Carries(r, text) && |text| <= 1048576 && Unrecognised(r, text)
    ensures var message := MessageOf(r.kind, ErrorPayload(r));
      && message.Some? && message.value.Text?
      && if Utf8.Valid(text) && Utf8.Trim(text) != [] then E.IsExcerpt(message.value.chars, Utf8.Trim(text))
         else message.value.chars == E.Decimal(r.upstream.status) + " " + E.Phrase(UpstreamStatus(r))
  {
    ErrorBodyMeans(r);
    UpstreamFailureReported(r);
    E.MessageMeans(Some(text), None, UpstreamStatus(r));
  }

  /** And an error of the API arrives as it was, whatever its coding. */
  lemma ErrorJsonArrives(r: Request, text: Bytes, v: Json.Value)
    requires r.upstream.Responds? && !(200 <= r.upstream.status < 300) && !r.kind.Responses?
    requires ArrivedWhole(r) && Carries(r, text) && 0 < |text| <= 1048576
    requires r.parser(text) == Some(v) && E.Recognised(r.kind, v)
    ensures ErrorPayload(r) == v
  {
    ErrorBodyMeans(r);
    UpstreamFailureReported(r);
    assert BodySays(r, v);
  }
}
