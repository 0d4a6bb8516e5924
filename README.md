# DashScope realtime TTS client — a Dafny model

This project models the core of a small Rust client for Alibaba Cloud
DashScope. It has two parts:

- **The realtime text-to-speech session** (`src/qwen_tts_realtime.rs`).
  - The websocket handshake request: the target address and the headers.
  - The three outbound JSON envelopes: `session.update`,
    `input_text_buffer.append` and `session.finish`.
  - The session object, whose writer half receives those envelopes.
  - The reader task, which hands inbound frames to a callback until the
    callback aborts, the server closes, a read fails or the stream ends.
- **The command-line demo** (`src/main.rs`) and **the one-shot generation
  request** (`src/dashscope_rs.rs`).
  - The demo's callback appends decoded audio to a file and raises a flag
    at the end of the reader. The demo issues one `update_session`, one
    `append_text` per text, then `finish`.
  - The generation request is built from headers and a JSON body.

Files and modules:

| file | module | what it holds |
|---|---|---|
| `wrappers.dfy` | `Wrappers` | `Option` and `Result` |
| `json_value.dfy` | `JsonValue` | JSON values, and `get` / `as_str` |
| `decimal.dfy` | `Decimal` | how `format!("{}", n)` writes a natural number |
| `rust_ints.dfy` | `RustInts` | `u8` and `u32` as bounded integers |
| `http_header.dfy` | `HttpHeader` | which strings the HTTP library accepts as header values |
| `realtime.dfy` | `Realtime` | the session client |
| `demo.dfy` | `Demo` | the demo callback and the demo's command order |
| `generation.dfy` | `Generation` | the generation request's headers and body |

How the network and the host are modelled:

- **The network is a set of inputs.**
  - A `Link` says whether the address parses, whether the server accepts
    the handshake, and which frames the server then sends.
  - Each send takes a `delivered` flag: whether the transport accepted
    that frame.
  - What the client writes is the sequence `written` of JSON envelopes.
- **The callback's answer to each event** is a function `abort` from
  message to verdict. The reader produces the sequence of callback
  invocations it makes: `on_open`, then `on_event` and `on_close` calls,
  then `on_finish`.
- **Host facts are inputs.** These are the compiler version, the operating
  system, the CPU architecture, the Windows version and the `cpuid`
  answers.
- **Random UUIDs are inputs.**
- **Panics.** Every `unwrap`/`expect` in `QwenTtsRealtime::new` becomes a
  `ConnectError`. The panics in the demo callback (a message that is not
  JSON, a delta that is not Base64) become preconditions of `OnEvent`.

The model follows the code as written:

- **No lifecycle state.** The session object keeps no lifecycle state.
  - Every send is attempted, whatever happened before.
  - A second `finish` sends a second `session.finish` frame.
  - Nothing stops sends after a close.
- **Malformed inbound messages are not tolerated.** A text frame that is
  not JSON makes the demo callback panic; it is not skipped.
- **The realtime user agent has no separators.** Rust's `\` line
  continuation drops the line break and the indentation after it, so the
  value is `dashscope/1.18.0; rust/<version>;platform/<os>processor/<arch>`.
  There is no separator between the operating system and `processor`.
- **Two spellings of the authorization scheme.** The realtime request uses
  `bearer` in lower case; the generation request uses `Bearer`.

## Model

| member | source | states |
|---|---|---|
| `JsonValue.Get` | src/main.rs:55 | looking up a key yields a value exactly when the value is an object holding that key, and the value is that member |
| `JsonValue.GetStr` | src/main.rs:55-56 | a string is returned exactly when the member exists and is a string, and it is that string |
| `Decimal.ToDecimal` | src/dashscope_rs.rs:63 | the decimal form of a number is non-empty, all digits, with no leading zero |
| `Decimal.ValueOfToDecimal` | src/dashscope_rs.rs:63 | reading the decimal form back gives the number |
| `Decimal.ToDecimalInjective` | src/dashscope_rs.rs:63 | different numbers are written differently |
| `HttpHeader.ValidConcat` | src/qwen_tts_realtime.rs:87-95 | a header value built from two pieces is accepted exactly when both pieces are |
| `HttpHeader.ValidAfterPrefix` | src/qwen_tts_realtime.rs:88-91 | behind a valid prefix, a value is accepted exactly when the appended part is |
| `Realtime.Bearer` | src/qwen_tts_realtime.rs:88-91 | the realtime authorization value is `bearer ` followed by the API key, and it is refused exactly when the API key holds a character no header value may contain |
| `Realtime.TargetUrl` | src/qwen_tts_realtime.rs:67-74 | the handshake address is the endpoint (the given one, else the default `wss://…/realtime`), then `?model=`, then the model name |
| `Realtime.ModelParam` | src/qwen_tts_realtime.rs:67-74 | whatever model name is read back from an address, the address is the endpoint, `?model=` and that name |
| `Realtime.ModelParamOfTarget` | src/qwen_tts_realtime.rs:67-74 | the model name is always read back from the address built for it |
| `Realtime.TargetUrlInjective` | src/qwen_tts_realtime.rs:67-74 | two model names never share a handshake address on the same endpoint |
| `Realtime.UserAgent` | src/qwen_tts_realtime.rs:75-82 | the realtime user agent starts with `dashscope/1.18.0; rust/` and the compiler version, or `Unknown Rustc Version` when none was captured |
| `Realtime.HandshakeRequest` | src/qwen_tts_realtime.rs:67-96 | the request succeeds iff the address parses, the user agent is a valid header value, the API key holds no character a header value may not contain, and the workspace (when given) is a valid header value. Each failure is reported at the first check that fails, in source order. On success the request goes to the target address, and the headers the client inserts are exactly `user-agent`, `Authorization: bearer <key>` and, iff a workspace is given, `X-DashScope-WorkSpace` |
| `Realtime.EventId` | src/qwen_tts_realtime.rs:151-153 | an event id is `event_` followed by the UUID |
| `Realtime.EventIdInjective` | src/qwen_tts_realtime.rs:151-153 | distinct UUIDs give distinct event ids |
| `Realtime.DecodeSessionUpdate` | src/qwen_tts_realtime.rs:162-172 | the `session.update` envelope decodes to its id, voice, mode, the short format name (`format`, not `format_str`) and the sample rate, with no other key |
| `Realtime.DecodeAppendText` | src/qwen_tts_realtime.rs:181-185 | the `input_text_buffer.append` envelope decodes to its id and text |
| `Realtime.DecodeFinish` | src/qwen_tts_realtime.rs:193-196 | the `session.finish` envelope decodes to its id alone |
| `Realtime.EnvelopesDistinct` | src/qwen_tts_realtime.rs:180-196 | append envelopes with a different id or a different text differ, and an append envelope is never a finish envelope |
| `Realtime.Consumed` | src/qwen_tts_realtime.rs:109-138 | the reader reads up to and including the first frame that stops it (a close, a read error, or an event the callback aborts on), or the whole stream; no earlier frame stops it |
| `Realtime.ConsumedUnique` | src/qwen_tts_realtime.rs:109-138 | exactly one count of read frames meets that description |
| `Realtime.ReactionsAppend` | src/qwen_tts_realtime.rs:109-138 | the calls made for two runs of frames are the first run's calls followed by the second's |
| `Realtime.ReactionsKinds` | src/qwen_tts_realtime.rs:109-138 | frames produce only `on_event` and `on_close` calls |
| `Realtime.ReaderLoop` | src/qwen_tts_realtime.rs:105-146 | the reader task's calls are `on_open`, one `on_event` per text frame and one `on_close("Connection closed by server")` per close frame among the frames read, then `on_finish("reader task ended")` |
| `Realtime.OpenFirstFinishLast` | src/qwen_tts_realtime.rs:106-145 | `on_open` comes first and `on_finish` last, each exactly once; every call between them is `on_event` or `on_close` |
| `Realtime.NothingAfterStop` | src/qwen_tts_realtime.rs:119-137 | once a frame stops the reader, the frames after it produce no call |
| `Realtime.AbortStops` | src/qwen_tts_realtime.rs:114-121 | an event the callback answers with true is the last event; only `on_finish` follows |
| `Realtime.CloseStops` | src/qwen_tts_realtime.rs:122-129 | a close frame produces one `on_close` with the fixed reason, then `on_finish` |
| `Realtime.ErrorStops` | src/qwen_tts_realtime.rs:134-137 | a read error ends the reader without `on_close` |
| `Realtime.ExhaustedStream` | src/qwen_tts_realtime.rs:109-145 | when nothing stops the reader, every frame is read and `on_finish` follows the end of the stream |
| `Realtime.ReactionsSkipOther` | src/qwen_tts_realtime.rs:130-132 | a frame that is neither text nor close adds no call |
| `Realtime.OtherIgnoredBeforeStop` | src/qwen_tts_realtime.rs:130-132 | an ignored frame before the stopping frame changes no call |
| `Realtime.OtherIgnoredNoStop` | src/qwen_tts_realtime.rs:130-132 | an ignored frame in a stream with no stopping frame changes no call |
| `Realtime.OtherIgnoredAfter` | src/qwen_tts_realtime.rs:130-132 | an ignored frame placed after frames that do not stop the reader changes no call |
| `Realtime.OtherIgnored` | src/qwen_tts_realtime.rs:109-145 | removing a binary, ping or pong frame from anywhere in the stream changes no callback call |
| `Realtime.QwenTtsRealtime.New` | src/qwen_tts_realtime.rs:60-149 | construction fails iff the handshake request cannot be built or the connection is refused, and then nothing is called. A request failure is reported as that failure; a refused connection as `ConnectFailed`. On success no frame has been written yet; with a callback the reader's calls are `ReaderTrace`, without one nothing is called |
| `Realtime.QwenTtsRealtime.UpdateSession` | src/qwen_tts_realtime.rs:156-178 | succeeds iff the frame is delivered; the session-update envelope is appended to the written frames exactly then |
| `Realtime.QwenTtsRealtime.AppendTextMessage` | src/qwen_tts_realtime.rs:180-190 | succeeds iff the frame is delivered; the append envelope is appended exactly then |
| `Realtime.QwenTtsRealtime.Finish` | src/qwen_tts_realtime.rs:192-201 | succeeds iff the frame is delivered; the finish envelope is appended exactly then, however often finish is called |
| `Realtime.QwenTtsRealtime.Send` | src/qwen_tts_realtime.rs:173-175 | a write succeeds iff the frame is delivered, and a failed write leaves the written frames as they were |
| `Demo.MyCallback.constructor` | src/main.rs:19-35 | the callback starts with the file's existing contents, because the file is opened for appending |
| `Demo.MyCallback.OnOpen` | src/main.rs:39-41 | `on_open` changes nothing |
| `Demo.MyCallback.OnClose` | src/main.rs:43-45 | `on_close` changes nothing |
| `Demo.MyCallback.OnFinish` | src/main.rs:47-50 | `on_finish` raises the session-finished flag and leaves the file untouched |
| `Demo.MyCallback.OnEvent` | src/main.rs:52-86 | `on_event` asks to abort iff the message's `type` is `session.finished`. The file grows by the decoded `delta` of a `response.audio.delta` message with a string delta, and by nothing otherwise. The flag is untouched |
| `Demo.SessionAudioAppend` | src/main.rs:61-71 | audio reaches the file in call order: two runs of calls write the first run's audio and then the second's |
| `Demo.OnlyDeltasWrite` | src/main.rs:55-82 | a message that is not a `response.audio.delta` with a string delta writes nothing |
| `Demo.FramesAudioIsSessionAudio` | src/main.rs:61-71 | the calls made for a stream carry exactly the audio of its text frames, in order |
| `Demo.TraceAudio` | src/main.rs:61-71 | the audio of a reader trace is the audio of the frames read, followed by that of the trailing calls |
| `Demo.DemoSessionAudio` | src/main.rs:52-86 | with the demo callback's verdicts, a stream whose first stopping frame is a `session.finished` message yields `on_open`, the calls for the frames before it, that `on_event` and `on_finish`; those calls carry the audio of the text frames before it, in order |
| `Demo.SilentCall` | src/main.rs:39-50 | `on_open`, `on_close` and `on_finish` write no audio |
| `Demo.OpenedAudio` | src/main.rs:39-41 | `on_open` adds no audio in front of the calls that follow it |
| `Demo.FinishedTraceAudio` | src/main.rs:61-71 | a trace from `on_open` to `on_finish` carries exactly the audio of the text frames read, in order |
| `Demo.Respond` | src/main.rs:37-87 | one call on the callback object: the answer is true exactly for an `on_event` whose message is a `session.finished` message; the file grows by that call's audio; the flag is raised by `on_finish` and otherwise kept |
| `Demo.Deliver` | src/main.rs:37-87 | a sequence of calls delivered in order: each answer is the one `Respond` gives, the file grows by the calls' audio in call order, and the flag ends raised exactly when it already was or an `on_finish` was among the calls |
| `Demo.ReactionsHandled` | src/main.rs:52-86 | when `on_event` can handle every text frame read, it can handle every `on_event` call the reader makes |
| `Demo.RunSession` | src/main.rs:88-125 | a whole session: the reader's calls are `ReaderTrace` driven by the callback's own answers, the answers the callback gives are those verdicts, the file ends with the audio of the text frames read, in order, and the session-finished flag is raised |
| `Demo.AppendEvents` | src/main.rs:112-114 | one append envelope per text |
| `Demo.AppendEventAt` | src/main.rs:112-114 | the i-th append envelope carries the i-th text and the i-th UUID's event id |
| `Demo.Planned` | src/main.rs:105-115 | the program plans two more messages than it has texts |
| `Demo.Kept` | src/main.rs:105-115 | no more messages are written than were attempted |
| `Demo.PlannedEnds` | src/main.rs:105-115 | the first planned message configures the session and the last finishes it |
| `Demo.PlannedAt` | src/main.rs:112-114 | the planned message after the configuration at position i appends the i-th text |
| `Demo.PlannedDecodes` | src/main.rs:105-115 | the planned messages decode to: the configuration with voice `Cherry`, mode `server_commit`, format `pcm` and rate 24000; then the texts in array order; then finish |
| `Demo.PlannedEventId` | src/main.rs:105-115 | every planned message carries the id made from its own UUID |
| `Demo.PlannedIdsDistinct` | src/main.rs:105-115 | distinct UUIDs give every planned message its own event id |
| `Demo.Accepted` | src/main.rs:105-115 | no more sends are accepted than were attempted |
| `Demo.KeptPositions` | src/main.rs:105-115 | the written messages are exactly the accepted ones, in plan order: one per accepted send, and an accepted planned message sits right after those of the accepted sends before it |
| `Demo.KeptAll` | src/main.rs:105-115 | when every send succeeds, every planned message is written |
| `Demo.IssueCommands` | src/main.rs:105-115 | the session's written frames grow by exactly the planned messages whose sends were delivered, in plan order; send results are ignored |
| `Generation.OsName` | src/dashscope_rs.rs:65-66 | the product name is `Windows-11` exactly from build 22000 on, and `Windows-10` below it |
| `Generation.Platform` | src/dashscope_rs.rs:59-68 | the platform field is the product name, a dash, `major.minor.build`, then `-SP0` |
| `Generation.FirstNonDigit` | src/dashscope_rs.rs:63 | after a run of digits, the first character that is not a digit is the separator that follows the run |
| `Generation.SplitAfterNumber` | src/dashscope_rs.rs:63 | a number, a separator that starts with a non-digit, and a rest split back uniquely into the number and the rest |
| `Generation.FullVersionInjective` | src/dashscope_rs.rs:63 | the dotted version identifies the Windows version |
| `Generation.PlatformIdentifiesVersion` | src/dashscope_rs.rs:59-68 | two hosts with the same platform field run the same Windows version |
| `Generation.ProcessorInfo` | src/dashscope_rs.rs:70-88 | the processor field is `Unknown Processor` exactly when `cpuid` reports no feature information; otherwise it is the architecture, ` Family `, then family, ` Model `, model, ` Stepping `, stepping, and it ends with `, ` and the vendor name or `Unknown` |
| `Generation.CpuFieldsIdentifyCpu` | src/dashscope_rs.rs:78-85 | the text after the family label identifies the family, model and stepping |
| `Generation.ProcessorInfoIdentifiesCpu` | src/dashscope_rs.rs:70-88 | on one architecture, the processor field identifies the family, model and stepping `cpuid` reported |
| `Generation.IncrementalToFull` | src/dashscope_rs.rs:98 | the `incremental_to_full` flag is 1 exactly for a stream without incremental output |
| `Generation.UserAgent` | src/dashscope_rs.rs:90-101 | the generation user agent is `dashscope/0.1.0;rust/`, then the compiler version, `;platform/` and the platform field, `;processor/` and the processor field (`HostFields`), then `;incremental_to_full/` and one digit whose value is the flag |
| `Generation.Bearer` | src/dashscope_rs.rs:55 | the generation authorization value is `Bearer ` followed by the API key, and it is refused exactly when the API key holds a character no header value may contain |
| `Generation.BuildRequestHeader` | src/dashscope_rs.rs:42-104 | the headers are built iff the API key holds no character a header value may not contain and the user agent is a valid header value; the authorization failure is reported first. On success the headers are exactly: `Accept` (`text/event-stream` when streaming, else `application/json`); `X-DashScope-SSE: enable`, present iff streaming; `Authorization: Bearer <key>`; `Content-Type: application/json`; and the user agent |
| `Generation.BuildRequestJson` | src/dashscope_rs.rs:106-129 | the body has exactly `model`, `input` and `parameters`. `input.messages` is the messages unchanged. `parameters` is `{stream: true, incremental_output: true}` for an incremental stream and empty otherwise |
| `Generation.PrepareCall` | src/dashscope_rs.rs:26-40 | a request is prepared iff its headers can be built, with the same failures in the same order; it goes to the given address, with the built body and exactly the built headers: `Accept`, `X-DashScope-SSE: enable` iff streaming, `Authorization: Bearer <key>`, `Content-Type: application/json` and the user agent |

## Left out

- Network I/O is not modelled: the TCP/TLS connection, the websocket
  protocol, HTTP responses and the POST in `Generation::call`. Their
  outcomes are the inputs `Link`, `delivered` and `urlParses`.
- Concurrency is not modelled: the spawned reader task, the `Mutex`
  around the callback, the `Arc<AtomicBool>` flag, and the main program's
  100 ms polling loop (src/main.rs:116-125). The reader's calls are a
  sequence, and the flag is a field.
- Logging (`log::info!`, `println!`) and `init_logger` are not modelled,
  and neither is `src/logging.rs`.
- `src/odps_rs.rs` is not part of this model.
- `prepare_qwen_tts_realtime` is not part of this model. It reads the API
  key from the environment and calls `new` with fixed arguments.
- UUID generation (`Uuid::new_v4`) is not modelled. Each operation takes
  the UUID as a parameter, and `PlannedIdsDistinct` assumes the UUIDs
  differ.
- JSON parsing and serialisation (`serde_json`), Base64 decoding and the
  `Message::text` encoding are not modelled. The callback holds the parser
  and the decoder as function parameters, and outbound frames are JSON
  values rather than their text.
- `MyCallback::new`'s directory creation and file opening, partial writes
  and I/O errors on `file.write` are not modelled. The file is an
  append-only byte sequence.
- The host probes are not modelled: `option_env!("RUSTC_VERSION")`,
  `rustc_version::version()` (including its `unwrap` panic),
  `windows_version::OsVersion::current()`, `CpuId`, and
  `std::env::consts`. Their answers are fields of `Host`.
- Header-name case normalisation is not modelled. Names are kept as
  written in the source. `HeaderValue` validity is modelled per
  character.
- `Realtime.UserAgent`: the contract states the prefix only. The rest of
  the value is given by its definition.
- `Realtime.QwenTtsRealtime.New`: the reader's calls are derived from a
  verdict function fixed per message. A callback whose answer depends on
  earlier events is not covered.
- `Demo.MyCallback.OnEvent`: a message that is not JSON, or a delta the
  decoder rejects, makes the source panic. Both are excluded by
  preconditions and not modelled as a crash.
- `Demo.Verdict`: for a text frame that is not JSON the model's verdict is
  false and the reader reads on. In the source `on_event` panics there
  (src/main.rs:54): the reader task dies without calling `on_finish`, and
  the main program's polling loop never ends. `RunSession` requires every
  text frame read to be handled, so it does not cover that case.
- `Realtime.HandshakeRequest`: only the headers the client inserts are
  modelled. The websocket library adds `Host`, `Connection`, `Upgrade`,
  `Sec-WebSocket-Version` and `Sec-WebSocket-Key`, which the model leaves
  out. The input `urlParses` also covers the library's refusal of an
  address without a host.
- `Generation.UserAgent`: the middle of the value is `HostFields`, given by
  its definition. Its platform and processor parts carry their own
  contracts (`Platform`, `ProcessorInfo`).
- `Demo.IssueCommands`: the texts are a parameter rather than the six
  literal strings of the source's array.
- `Demo.DemoSessionAudio`: the lemma covers streams that end with a
  `session.finished` message read before any close or read error. Streams
  that end otherwise are covered by `ExhaustedStream`, `CloseStops` and
  `ErrorStops` together with `FramesAudioIsSessionAudio`.
- `GenerationError`'s variants for network, HTTP-builder and JSON errors
  are not modelled. They arise only from the unmodelled network call.
- The constant header values (`text/event-stream`, `enable`,
  `application/json`) always parse. The model gives them no failure path.
