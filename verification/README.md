# keep-sse: a verified model of the event-stream gateway

keep-sse forwards the event streams of language-model APIs and writes the comment `:\n\n` into them
whenever the line has been idle for one interval, without buffering the stream. This project models the
code that does so and proves what its users rely on: **the client decodes exactly the events the upstream
sent**, for every way the stream is cut into chunks, every timing, and every moment at which the upstream
fails or the client leaves; and a failure reaches the client as exactly the error event of its API.

`dafny verify dfyconfig.toml` checks everything.

## How the pieces fit

| file | what it holds |
|---|---|
| `Bytes.dfy` | octets and searches over them |
| `Sse.dfy` | the client: sections 9.2.5 and 9.2.6 of the WHATWG HTML Living Standard, once over a finished stream and once octet by octet, proved equal |
| `Tracker.dfy` | `EventBoundaryTracker` with its skip-scan loop, against an octet-at-a-time machine, against the standard's lines |
| `Transparency.dfy` | the simulation between the parser of the upstream octets and the parser of the wire |
| `ByteOrderMark.dfy` | the one family of streams on which heartbeats are visible, delimited exactly |
| `Headers.dfy`, `Encoding.dfy` | `proxy.rs` header stripping and `encoding.rs` content codings and bounded decoding |
| `Utf8.dfy`, `Json.dfy`, `ErrorEvent.dfy` | `error_event.rs`: message text, payload, frame, and what the client makes of the frame |
| `Bridge.dfy` | the protocol of `sse.rs` as a labelled transition system: commit race, three select loops, timer, bounded channel, vanishing client |
| `BridgeInvariants.dfy`, `BridgeTheorems.dfy` | what every step keeps, and what follows for every run |
| `Progress.dfy` | runs that go on: time, heartbeats through a silence, a full channel, a departure |
| `Request.dfy` | one request with its codecs and its parser: the error body it reports, the failure, the event it would end in |
| `Session.dfy` | `handle_stream`, `bridge`, `handle_success` and `handle_error` as loops over a real tracker object and channel, error bodies read and error events built on the way, proved to end exactly where `Bridge` leads under the same schedule |
| `Gateway.dfy` | whole requests, end to end |
| `WitnessRuns.dfy` | runs of the protocol in which the exceptions that the theorems make do occur |

The tracker is fed the upstream octets only, never the heartbeats it permits, so its state and the state
of the client's parser drift apart: a heartbeat between the CR and the LF of one CRLF makes the client's
parser forget the CR. `Transparency.Related` says how far they can drift (one flag, at rest only), and every
octet and every heartbeat keeps it. `Bridge` shows that all logs the protocol can produce are `Paced`, which
is all the simulation needs; `Gateway` puts the two together over the frames actually delivered.

Modelling decisions:

- Octets are characters up to U+00FF. Lines and fields are ASCII-delimited, so reading octets and reading
  the decoded text agree; a leading byte order mark is dropped, as the standard's UTF-8 decode does. A
  `retry` field counts only with at least one digit.
- A `select!` is a choice among its ready branches; a branch body runs to the end of its awaited write before
  the next poll, so a pending write is a phase. Time is discrete and does not pass while an expired timer
  is being polled or a frame could be accepted; `Progress` shows that it can always go on.
- Which labels occur when is arbitrary: the theorems quantify over all runs, and `Session` over all schedules.
- The codecs and the JSON parser are arbitrary functions; connection error texts and canonical reason phrases are inputs.
- A heartbeat interval of zero is not excluded by the configuration; only `HeartbeatCount`, which divides by
  it, asks for a positive one.

## What turned out false, and when it is true

Transparency fails for an upstream that begins with a byte order mark if a heartbeat was written before its
first octet (`WitnessRuns.LostEvent` is such a run of the protocol: the only event is lost).
`WitnessRuns.MarkMattersInRuns` gives the exact condition over all runs: heartbeats go unnoticed if and only
if the first line is inert, which can be read off that line. Without a mark, or without an early heartbeat,
transparency is unconditional.

Frames are written under a head that announces an event stream, except when the upstream's `Connection` field names
`Content-Type`; `BridgeTheorems.FramesUnderEventStream` has the equivalence, `WitnessRuns.FramesUnderAnotherHead`
a run in which it happens.

## Where the code and its documentation differ

- `README.md` and the API notes print the error objects with `message` or `type` first. The code builds them in
  an ordered map, so the keys come out sorted; the model follows the code (`Json.Insert`).
- The older design notes send the 200 head at once. The code waits for one interval first; the model follows the code.
- Upstream error JSON is embedded as a value, not as the upstream's text: whitespace and key order change, fields
  do not (`Json.ReadsBack`).
- After the window has expired a 2xx response is bridged whatever its `Content-Type`; only within the window is it required
  to be an event stream.

## Model

| member | source | states |
|---|---|---|
| Tracker.EventBoundaryTracker.constructor | src/sse.rs:37-43 | a new tracker is at a boundary, on an empty line, not behind a CR |
| Tracker.EventBoundaryTracker.Feed | src/sse.rs:46-96 | the skip-scan loop, from any state and for any octets, ends in the state reached by stepping through every octet; it terminates and never enters its unreachable arm |
| Tracker.Memchr2 | src/sse.rs:49 | finds the first of two octets, or that neither occurs |
| Tracker.FlagMeaning | src/sse.rs:29-34 | after any stream: `line_empty` iff the unterminated line is empty, `prev_cr` iff the stream ends in CR, `at_boundary` iff moreover the last complete line is absent or empty |
| Tracker.ChunkingIndependence | src/sse.rs:330-331 | feeding two chunks is feeding their concatenation, wherever the cut falls |
| Tracker.ReachableFlags | src/sse.rs:69-91 | of the eight flag combinations exactly the five coherent ones are reached by some stream |
| Tracker.ClosedByBlankLines | src/sse.rs:339-341 | from every coherent non-boundary state two line feeds reach the initial state; one reaches a boundary iff the line is empty and did not end in CR |
| Sse.IncrementalIsBatch | src/sse.rs:45 | the reference parser, octet by octet, reads any stream as the batch definition does, CRLF counting once |
| Sse.EventReadsBack | src/sse.rs:45 | the reference parser reads an event that is written down as type, ID and data lines back as that event |
| Transparency.HeartbeatTransparency | src/sse.rs:318-336 | for every log of heartbeats at tracker boundaries and data in any chunks, with no displaced byte order mark: the client of the wire is the client of the upstream octets |
| Transparency.HeartbeatsAreInvisible | src/sse.rs:316-353 | the same with no condition, a displaced mark being read as text |
| Transparency.ShadowTracker | src/sse.rs:318-336 | a tracker fed the whole wire agrees with the real one on `at_boundary` and `line_empty`, and can differ on `prev_cr` only at a boundary |
| Transparency.CutOffStream | src/sse.rs:337-341 | a stream cut off at any octet and closed as the code does leaves the client at rest, with the complete events and at most one more |
| WitnessRuns.MarkMattersInRuns | src/sse.rs:182-189 | for a marked stream with a given first line: all runs that end well show a script exactly what the upstream sent iff that line is inert |
| ByteOrderMark.ObservedTransparency | src/sse.rs:182-189 | transparency for every paced log whose upstream has no mark, an inert or unended first line, or no early heartbeat |
| WitnessRuns.LostEvent | src/sse.rs:182-189 | a run with one heartbeat before a marked event: the upstream has one event, a client that read everything none |
| BridgeInvariants.Reachable | src/sse.rs:171-396 | every state of every run satisfies the control, log, channel, time, head and rhythm invariants |
| BridgeTheorems.Conservation | src/encoding.rs:141-151 | delivered plus queued octets are those written, at most 16 frames are queued, erasing the gateway's own frames leaves a prefix of the decoded upstream, all of it at a clean end |
| BridgeTheorems.NothingAfterDeparture | src/sse.rs:328-334 | once the client has left, no frame is written or delivered any more |
| BridgeTheorems.ShapeOfRun | src/sse.rs:289-396 | heartbeats at boundaries and data, then nothing, or a terminator exactly if the stream stopped inside an event, and the one error event; a clean end adds nothing |
| BridgeTheorems.IdleBound | src/sse.rs:316-335 | while polling, now <= deadline = last write + (skipped firings + 1) intervals, and nothing was skipped at a boundary; kept through the hand-over of the timer |
| BridgeTheorems.IdleBoundWhenRead | src/sse.rs:178-194 | with a client that keeps reading the bound holds in every state, pending writes included |
| BridgeTheorems.HeartbeatCount | src/sse.rs:318-326 | a silence has seen floor(L / interval) firings, or one fewer at an exact multiple; each wrote a heartbeat at a boundary, none did inside an event |
| Progress.HeartbeatsGoOn | src/sse.rs:178-194 | from every run in any loop at a boundary, for every later time: without the upstream, the run goes on to that time, and exactly floor((t - last write) / interval) heartbeats follow, one per interval, and nothing else |
| Progress.SilenceInsideEvent | src/sse.rs:318-326 | from every run inside an event, for every later time: the run goes on to that time and nothing is written |
| Progress.WindowExpires | src/sse.rs:145-166 | an upstream that does not answer: the own head at the end of the window, then one heartbeat per interval, for every later time |
| Progress.TimeGoesOn | src/sse.rs:171-396 | whatever the task is doing, time can reach every later moment without the upstream and with the client there |
| Progress.SixteenFramesFit | src/sse.rs:100-107 | a frame is accepted exactly while fewer than 16 wait for the client |
| Progress.BackpressureHolds | src/encoding.rs:141-146 | beside a full channel the task waits for as long as the client does not read |
| Progress.DepartureIsNoticed | src/sse.rs:318-326 | a client that leaves at a boundary is missed at the next heartbeat: the task ends one interval after the last write, with nothing more written |
| Progress.CanBeLeft | src/sse.rs:171-396 | the client can leave at any moment, and the task can end then without writing any more |
| BridgeTheorems.CommitRace | src/sse.rs:125-167 | exactly one head unless the client left before it; the own 200 exactly at the end of the window; after it every failure ends in its error event and every success in the whole stream |
| BridgeTheorems.CanAlwaysFinish | src/sse.rs:171-396 | from every reachable state with the client there, a finite continuation without further waiting ends the task with everything read |
| BridgeTheorems.CanConclude | src/sse.rs:125-167 | that end is the one the commit race promises: handed over, or the error event read after a failure, or the whole stream read |
| BridgeTheorems.FramesUnderEventStream | src/sse.rs:252-268 | frames are written only under a head without Content-Encoding and Content-Length, an event stream iff it is the own head or Connection did not name Content-Type |
| BridgeTheorems.HeadSays | src/sse.rs:125-165 | which head is sent to whom, and its status and every field: own, bridged (all but length and coding kept, buffering off), passed through, 502 |
| WitnessRuns.FramesUnderAnotherHead | src/proxy.rs:41-58 | a run whose frames go out under a head that is no event stream, because the upstream's Connection names Content-Type |
| Bridge.RunIsPerformed | src/sse.rs:112-233 | every run of a task is reached by some schedule, namely its own labels |
| Sessions.Session.HandleStream | src/sse.rs:112-168 | under every schedule the race and all that follows it end in exactly the protocol state that the schedule leads to, fields, log, heads and tracker included |
| Sessions.Session.BridgeTask | src/sse.rs:171-233 | the phase-1 loop and its three outcomes carry out exactly the protocol's steps under the schedule, to the end of the task or of the schedule |
| Sessions.Session.HandleSuccess | src/sse.rs:289-354 | the streaming loop with the real tracker carries out exactly the protocol's steps under the schedule |
| Sessions.Session.HandleError | src/sse.rs:357-396 | the collecting loop carries out exactly the protocol's steps under the schedule |
| Sessions.Session.ReportError | src/sse.rs:387-395 | the collected body, read and built into a frame, is the very error event the protocol writes (what it says: `Requests.UpstreamFailureReported`) |
| Sessions.Session.FailStream | src/sse.rs:300-311 | a cut-off event is closed, and the frame built from the failure is the very error event the protocol writes (what it says: `Requests.OwnFailureReported`) |
| Sessions.Session.PassthroughSse | src/sse.rs:252-286 | commits the stripped upstream head and goes on as the protocol does |
| Sessions.Session.WriteEvent | src/encoding.rs:141-146 | the awaited send ends with exactly its frame written, with the news that the client is gone, or still pending; only then is anything written |
| Gateway.ClientSeesAPrefix | src/sse.rs:297-353 | at every moment before a failure the client has decoded exactly the events of the upstream octets delivered, a prefix of those of the whole upstream |
| Gateway.CleanEndIsTransparent | src/sse.rs:346-349 | after a clean end, all read: the client of the delivered octets is the client of the upstream octets |
| Gateway.ErrorIsIsolated | src/sse.rs:337-345 | after a failure, all read: the upstream's events, at most one for the cut-off tail, then exactly the error event(s) of the endpoint |
| Gateway.NothingIsTakenBack | src/sse.rs:328-345 | at every moment, closing frames half read or not, the decoded events are a prefix of those of every later log, which after a failure is the isolated error |
| Gateway.TrackerSeesTheWire | src/sse.rs:318-336 | in every polling state of every run the tracker agrees with one fed the wire, up to `prev_cr` at a boundary |
| Requests.ErrorBodyMeans | src/sse.rs:366-392 | the reported body is at most 1 MiB; for every announced coding it is what the decoder of that coding makes of a body that arrived whole, if within the bound, and the body itself without a known coding; what cannot be decoded is reported as it came; of what did not arrive there is nothing, or what the decoder makes of no input |
| Requests.ErrorTextArrives | src/sse.rs:387-395 | an error page of a non-2xx response, undone from its announced coding and no error of the API, reaches the message of the event trimmed, whole up to 4096 octets, cut to its longest valid prefix beyond that; what is no text comes out as the status line |
| Requests.ErrorJsonArrives | src/error_event.rs:6 | an error that the endpoint's API recognises arrives as the value it was, whatever the coding |
| Requests.OwnFailureReported | src/sse.rs:300-343 | an unreachable upstream and a decodable stream that breaks are reported with the text of their own error, a 2xx response in an unknown coding with the text that says so, all under status 502 |
| Requests.UpstreamFailureReported | src/sse.rs:394 | a non-2xx response is reported by its own body, status and phrase: a recognised error unchanged, anything else under its status |
| Gateway.Serve | src/sse.rs:112-168 | a served request stands in exactly the state its protocol reaches under the schedule; that state ends a run and satisfies all invariants |
| ErrorEvent.Message | src/error_event.rs:31-56 | the message text with its back-off loop equals the longest-prefix definition |
| ErrorEvent.MessageIsBounded | src/error_event.rs:36-53 | for valid UTF-8 the message is valid UTF-8, whole up to 4096 octets, otherwise the longest valid prefix within 4096, at most three octets short |
| ErrorEvent.MessageMeans | src/error_event.rs:31-64 | with a reason the reason, without one the readable text of the body, failing that the status line |
| ErrorEvent.DecimalReadsBack | src/error_event.rs:58-64 | a status is written in decimal digits that read back as the number, without leading zeros |
| Utf8.CutIsTight | src/error_event.rs:48-52 | backing off to a character boundary gives valid text, loses at most three octets, and no longer prefix within the limit is valid |
| Utf8.CutIsValid | src/error_event.rs:49-52 | in valid UTF-8, cutting where one octet marks a boundary leaves valid text on both sides |
| Utf8.TrimMeans | src/error_event.rs:40 | trimming removes the white space characters at both ends, all of them and nothing else, and keeps the text valid |
| Utf8.ValidMeans | src/error_event.rs:37 | a text is valid iff it encodes some code points, surrogates excluded |
| Utf8.WhiteSpaceMeans | src/error_event.rs:40 | the trimmed characters are exactly the encodings of the white space code points |
| ErrorEvent.Build | src/error_event.rs:16-29 | the frame of the kind around the payload of the failure |
| ErrorEvent.BuildChat | src/error_event.rs:95-117 | the pushed pieces make the chat frame of the chosen payload, `[DONE]` included |
| ErrorEvent.BuildResponses | src/error_event.rs:131-160 | the pushed pieces make the Responses frame of the chosen payload |
| ErrorEvent.BuildAnthropic | src/error_event.rs:174-195 | the pushed pieces make the Anthropic frame of the chosen payload |
| ErrorEvent.BuildGemini | src/error_event.rs:212-234 | the pushed pieces make the Gemini frame of the chosen payload |
| ErrorEvent.FrameDecodes | src/error_event.rs:95-234 | from rest, a frame dispatches one event, of type `error` for Responses and Anthropic and `message` for Gemini, and two for chat, the second `[DONE]`, with the compact JSON as data, which reads back as the payload, and leaves the client at rest |
| ErrorEvent.ChatPayloadMeans | src/error_event.rs:97-113 | an upstream JSON body is embedded unchanged iff it has a top-level error; without one, an error object of message, type, null param and null code, and nothing else |
| ErrorEvent.ResponsesPayloadMeans | src/error_event.rs:75-82 | for an upstream error with a code and a message that are texts: that code, that message, and its param or null; otherwise a code by status, the message text and null; type `error`, sequence number 0, nothing else |
| ErrorEvent.AnthropicPayloadMeans | src/error_event.rs:84-91 | an upstream JSON body is embedded unchanged iff its type is `error` and it has an error; otherwise type and message by status, and nothing else |
| ErrorEvent.GeminiPayloadMeans | src/error_event.rs:212-230 | an upstream JSON body is embedded unchanged iff it has a top-level error; without one, code, message and status name, and nothing else |
| Json.PrintIsOneLine | src/error_event.rs:99 | the compact form of any nested value holds no CR and no LF |
| Json.ReadsBack | src/error_event.rs:6 | the compact form of any value reads back as that value: nothing is rewritten |
| Json.PrintIsInjective | src/error_event.rs:6 | different values have different compact forms |
| Json.FindInserted | src/error_event.rs:149-155 | a member put into an object is found under its name, and no other member changes |
| Json.InsertKeepsOrder | src/error_event.rs:105-113 | however an object is built, its members come out in the order of their keys |
| Json.LessMeans | src/error_event.rs:105-113 | that order: a proper prefix, or the smaller octet at the first difference |
| Encoding.DecodeAsync | src/encoding.rs:82-95 | whatever the pieces, the whole output iff the decoder ends well and the total is within the limit, never holding more than limit + 1 octets |
| Encoding.DecodeBytes | src/encoding.rs:64-80 | the same bound for every coding, identity included |
| Encoding.ContentEncodingMeans | src/encoding.rs:43-61 | a coding is recognised iff there is no such field and it is the identity, or the one readable value has exactly one non-blank piece between commas and that is a name of it in whatever letter case |
| Encoding.ParseCodingMeans | src/encoding.rs:26-38 | the codings are known by their six names, ignoring letter case, and by nothing else |
| Encoding.LimitedReader.Read | src/encoding.rs:85-87 | one read through the limit: a non-empty next part, the end, or the decoder's failure |
| Headers.StripHopByHop | src/proxy.rs:41-58 | the two removal loops leave exactly the end-to-end fields |
| Headers.StrippedMeans | src/proxy.rs:41-58 | no Connection, no name it lists in whatever letter case, no fixed hop-by-hop name; every other name with its values in order; stripping twice is stripping once |
| Headers.FixedNamesAreStripped | src/proxy.rs:30-38 | none of the seven fixed names is left |
| Headers.ConnectionListMeans | src/proxy.rs:43-50 | a name is collected iff some readable Connection value holds it between commas, blanks and letter case aside |
| Headers.ParseNameMeans | src/proxy.rs:49 | a text is taken for a field name iff it is a token of at most 65535 octets; the name is its small form |
| Headers.TokenMeans | src/proxy.rs:49 | tokens are made of the visible characters that are no delimiters |
| Headers.LowerMeans | src/proxy.rs:49 | the small form is the one text without capitals that is the same ignoring case |
| Headers.TrimMeans | src/proxy.rs:47 | trimming removes the blanks at both ends, all of them and nothing else |
| Headers.IsEventStreamMeans | src/sse.rs:236-249 | a response is an event stream iff its first Content-Type value is readable and names the media type before any semicolon, blanks and letter case aside |
| Headers.SplitOnMeans | src/proxy.rs:47 | the pieces of a split are exactly the maximal separator-free stretches |

## Left out

- hyper, tokio and the channel's internals, sockets, task spawning and connection pooling: steps of the protocol and a bounded FIFO stand for them.
- Scheduler lag: an expired timer that is polled fires before time passes, so the idle bound is the protocol's, not the machine's.
- Compression formats: a decoder is an arbitrary function of its input to pieces that end or fail; in the streaming path its output is the list of chunks.
- JSON parsing of upstream bodies: the parser is an arbitrary function. The reader in `Json.dfy` inverts the compact form and accepts little else.
- How numbers are printed: a number is its text, except for integers the gateway itself writes.
- src/detect.rs and the dispatch in src/lib.rs: suffix tests and a short decision chain.
- src/server.rs, src/config.rs, src/main.rs, src/pprof.rs, URI rewriting, logging and the JSON bodies of the 4xx and 502 answers.
- The request half of the proxy: only the header stripping it shares with responses is modelled.
- Gateway.Serve: a session stops with its task; frames still queued then are delivered in `Bridge` only.
- Headers.StripHopByHop: names are a map to value lists, so the order between different names, which the header library does not keep either, is not modelled.
