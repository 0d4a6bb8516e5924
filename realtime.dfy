/**
 * The realtime text-to-speech session client: the handshake request
 * (target address and headers), the three outbound JSON envelopes, the
 * session object whose writer half receives them, and the reader loop
 * that dispatches inbound frames to the callback.
 *
 * The network is abstracted: what the websocket library decides about a
 * request, and the frames the server sends, are inputs (`Link`); what the
 * client writes is the sequence `written` of JSON envelopes.
 */
module Realtime {
  import opened Wrappers
  import opened JsonValue
  import opened RustInts
  import opened HttpHeader

  /* ---------------------------------------------------------------------
     Audio format
     --------------------------------------------------------------------- */

  datatype AudioFormat = AudioFormat(
    format: string,
    sampleRate: u32,
    channels: string,
    bitRate: string,
    formatStr: string)

  /** The one predefined format: 24 kHz mono 16-bit PCM. */
  const Pcm24000HzMono16Bit: AudioFormat :=
    AudioFormat("pcm", 24000, "mono", "16bit", "pcm16")

  /* ---------------------------------------------------------------------
     Handshake request
     --------------------------------------------------------------------- */

  const DefaultEndpoint := "wss://dashscope.aliyuncs.com/api-ws/v1/realtime"
  const ModelQuery := "?model="

  /** The endpoint the session talks to: the explicit one, else the default. */
  function Endpoint(url: Option<string>): string {
    if url.Some? then url.value else DefaultEndpoint
  }

  /** The address of the handshake: the endpoint with the model name
      appended as the `model` query parameter. */
  function TargetUrl(modelName: string, url: Option<string>): (r: string)
    ensures |r| == |Endpoint(url)| + |ModelQuery| + |modelName|
    ensures r[..|Endpoint(url)|] == Endpoint(url)
    ensures r[|Endpoint(url)|..|Endpoint(url)| + |ModelQuery|] == ModelQuery
    ensures r[|Endpoint(url)| + |ModelQuery|..] == modelName
  {
    Endpoint(url) + ModelQuery + modelName
  }

  /** Reads the model name back from a target address built on `endpoint`. */
  function ModelParam(target: string, endpoint: string): (r: Option<string>)
    ensures r.Some? ==> target == endpoint + ModelQuery + r.value
  {
    var n := |endpoint| + |ModelQuery|;
    if n <= |target| && target[..n] == endpoint + ModelQuery then
      assert target == target[..n] + target[n..];
      Some(target[n..])
    else None
  }

  /** The model name can always be read back from the target address, so
      two models never share an address on the same endpoint. */
  lemma ModelParamOfTarget(modelName: string, url: Option<string>)
    ensures ModelParam(TargetUrl(modelName, url), Endpoint(url)) == Some(modelName)
  {
    var t := TargetUrl(modelName, url);
    var n := |Endpoint(url)| + |ModelQuery|;
    assert t[..n] == Endpoint(url) + ModelQuery;
  }

  lemma TargetUrlInjective(m1: string, m2: string, url: Option<string>)
    requires TargetUrl(m1, url) == TargetUrl(m2, url)
    ensures m1 == m2
  {
    ModelParamOfTarget(m1, url);
    ModelParamOfTarget(m2, url);
  }

  /** What the host tells the client about itself: the compiler version
      captured at build time (if any), the operating system and the CPU
      architecture. */
  datatype Host = Host(rustcVersion: Option<string>, os: string, arch: string)

  const ClientIdentity := "dashscope/1.18.0; rust/"
  const UnknownRustc := "Unknown Rustc Version"

  function RustcOrUnknown(host: Host): string {
    if host.rustcVersion.Some? then host.rustcVersion.value else UnknownRustc
  }

  /** The `user-agent` header value. The source's line continuations drop
      the line break and the indentation that follows it, so nothing
      separates the operating system from the word `processor`. */
  function UserAgent(host: Host): (ua: string)
    ensures |ua| > |ClientIdentity| + |RustcOrUnknown(host)|
    ensures ua[..|ClientIdentity| + |RustcOrUnknown(host)|] == ClientIdentity + RustcOrUnknown(host)
  {
    ClientIdentity + RustcOrUnknown(host) + ";platform/" + host.os + "processor/" + host.arch
  }

  /** Why a session could not be created. In the source each of these is a
      panic (`unwrap`, `expect`) inside the constructor. */
  datatype ConnectError = InvalidUrl | InvalidHeader(name: string) | ConnectFailed

  datatype Request = Request(url: string, headers: map<string, string>)

  const UserAgentHeader := "user-agent"
  const AuthorizationHeader := "Authorization"
  const WorkspaceHeader := "X-DashScope-WorkSpace"

  /** The authorization value, with the scheme in lower case. It is a
      valid header value exactly when the API key is. */
  function Bearer(apiKey: string): (b: string)
    ensures |b| == 7 + |apiKey| && b[..7] == "bearer " && b[7..] == apiKey
    ensures ValidHeaderValue(b) <==> ValidHeaderValue(apiKey)
  {
    ValidAfterPrefix("bearer ", apiKey);
    "bearer " + apiKey
  }

  /** The handshake request, or the first step at which building it fails:
      the address (whose syntax the websocket library judges, `urlParses`),
      then each header value in the order the source inserts them. */
  function HandshakeRequest(
    modelName: string, apiKey: string, url: Option<string>, workspace: Option<string>,
    host: Host, urlParses: bool): (r: Result<Request, ConnectError>)
    ensures r.Success? <==>
      && urlParses
      && ValidHeaderValue(UserAgent(host))
      && ValidHeaderValue(apiKey)
      && (workspace.Some? ==> ValidHeaderValue(workspace.value))
    ensures !urlParses ==> r == Failure(InvalidUrl)
    ensures urlParses && !ValidHeaderValue(UserAgent(host)) ==> r == Failure(InvalidHeader(UserAgentHeader))
    ensures urlParses && ValidHeaderValue(UserAgent(host)) && !ValidHeaderValue(apiKey) ==>
              r == Failure(InvalidHeader(AuthorizationHeader))
    ensures urlParses && ValidHeaderValue(UserAgent(host)) && ValidHeaderValue(apiKey)
              && workspace.Some? && !ValidHeaderValue(workspace.value) ==>
              r == Failure(InvalidHeader(WorkspaceHeader))
    ensures r.Success? ==> r.value.url == TargetUrl(modelName, url)
    ensures r.Success? ==>
      r.value.headers.Keys == {UserAgentHeader, AuthorizationHeader} + (if workspace.Some? then {WorkspaceHeader} else {})
    ensures r.Success? ==> r.value.headers[UserAgentHeader] == UserAgent(host)
    ensures r.Success? ==> r.value.headers[AuthorizationHeader] == Bearer(apiKey)
    ensures r.Success? && workspace.Some? ==> r.value.headers[WorkspaceHeader] == workspace.value
  {
    if !urlParses then Failure(InvalidUrl)
    else if !ValidHeaderValue(UserAgent(host)) then Failure(InvalidHeader(UserAgentHeader))
    else if !ValidHeaderValue(Bearer(apiKey)) then Failure(InvalidHeader(AuthorizationHeader))
    else if workspace.Some? && !ValidHeaderValue(workspace.value) then Failure(InvalidHeader(WorkspaceHeader))
    else
      var headers := map[UserAgentHeader := UserAgent(host), AuthorizationHeader := Bearer(apiKey)];
      Success(Request(
        TargetUrl(modelName, url),
        if workspace.Some? then headers[WorkspaceHeader := workspace.value] else headers))
  }

  /* ---------------------------------------------------------------------
     Outbound envelopes
     --------------------------------------------------------------------- */

  const EventIdPrefix := "event_"

  /** An event id: the prefix `event_` followed by a fresh UUID, which is
      supplied by the caller here. */
  function EventId(uuid: string): (id: string)
    ensures |id| == |EventIdPrefix| + |uuid|
    ensures id[..|EventIdPrefix|] == EventIdPrefix
    ensures id[|EventIdPrefix|..] == uuid
  {
    EventIdPrefix + uuid
  }

  /** Ids are as distinct as the UUIDs they are made from. */
  lemma EventIdInjective(u1: string, u2: string)
    requires u1 != u2
    ensures EventId(u1) != EventId(u2)
  {
    assert EventId(u1)[|EventIdPrefix|..] == u1;
    assert EventId(u2)[|EventIdPrefix|..] == u2;
  }

  /** The content of an outbound message, once decoded. */
  datatype Command =
    | SessionUpdate(voice: string, mode: string, responseFormat: string, sampleRate: u32)
    | AppendText(text: string)
    | SessionFinish

  datatype Outbound = Outbound(eventId: string, command: Command)

  const SessionUpdateType := "session.update"
  const AppendTextType := "input_text_buffer.append"
  const SessionFinishType := "session.finish"

  /** The message `update_session` sends. The format field is the short
      encoding name (`format`), not `format_str`. */
  function SessionUpdateEvent(eventId: string, voice: string, responseFormat: AudioFormat, mode: string): Json {
    JObj(map[
      "event_id" := JStr(eventId),
      "type" := JStr(SessionUpdateType),
      "session" := JObj(map[
        "voice" := JStr(voice),
        "mode" := JStr(mode),
        "response_format" := JStr(responseFormat.format),
        "sample_rate" := JNum(responseFormat.sampleRate)])])
  }

  /** The message `append_text` sends. */
  function AppendTextEvent(eventId: string, text: string): Json {
    JObj(map[
      "event_id" := JStr(eventId),
      "type" := JStr(AppendTextType),
      "text" := JStr(text)])
  }

  /** The message `finish` sends. */
  function FinishEvent(eventId: string): Json {
    JObj(map[
      "event_id" := JStr(eventId),
      "type" := JStr(SessionFinishType)])
  }

  /** A reader of outbound messages, as the server would parse them: an
      object with exactly the keys of one of the three envelopes, each of
      the expected kind. It is the partner the three envelope builders are
      checked against. */
  function Decode(m: Json): Option<Outbound> {
    match (GetStr(m, "event_id"), GetStr(m, "type"))
    case (Some(id), Some(t)) =>
      if t == SessionUpdateType && m.fields.Keys == {"event_id", "type", "session"} then
        var s := m.fields["session"];
        match (GetStr(s, "voice"), GetStr(s, "mode"), GetStr(s, "response_format"), Get(s, "sample_rate"))
        case (Some(voice), Some(mode), Some(format), Some(JNum(rate))) =>
          if s.fields.Keys == {"voice", "mode", "response_format", "sample_rate"} && 0 <= rate < 0x1_0000_0000 then
            Some(Outbound(id, SessionUpdate(voice, mode, format, rate)))
          else None
        case _ => None
      else if t == AppendTextType && m.fields.Keys == {"event_id", "type", "text"} then
        match GetStr(m, "text")
        case Some(text) => Some(Outbound(id, AppendText(text)))
        case None => None
      else if t == SessionFinishType && m.fields.Keys == {"event_id", "type"} then
        Some(Outbound(id, SessionFinish))
      else None
    case _ => None
  }

  /** `session.update` carries the id, the voice, the mode, the short
      format name and the sample rate, and nothing else. */
  lemma DecodeSessionUpdate(eventId: string, voice: string, responseFormat: AudioFormat, mode: string)
    ensures Decode(SessionUpdateEvent(eventId, voice, responseFormat, mode))
         == Some(Outbound(eventId, SessionUpdate(voice, mode, responseFormat.format, responseFormat.sampleRate)))
  {
  }

  /** `input_text_buffer.append` carries the id and the text. */
  lemma DecodeAppendText(eventId: string, text: string)
    ensures Decode(AppendTextEvent(eventId, text)) == Some(Outbound(eventId, AppendText(text)))
  {
  }

  /** `session.finish` carries only the id. */
  lemma DecodeFinish(eventId: string)
    ensures Decode(FinishEvent(eventId)) == Some(Outbound(eventId, SessionFinish))
  {
  }

  /** Append envelopes with a different id or a different text are
      different messages, and none of them is a finish envelope. */
  lemma EnvelopesDistinct(id1: string, text1: string, id2: string, text2: string)
    requires id1 != id2 || text1 != text2
    ensures AppendTextEvent(id1, text1) != AppendTextEvent(id2, text2)
    ensures AppendTextEvent(id1, text1) != FinishEvent(id2)
  {
    DecodeAppendText(id1, text1);
    DecodeAppendText(id2, text2);
    DecodeFinish(id2);
  }

  /* ---------------------------------------------------------------------
     Reader loop
     --------------------------------------------------------------------- */

  /** What one read from the websocket yields: a text frame, a close
      frame, any other frame (binary, ping, pong), or a read error. */
  datatype Frame = Text(text: string) | Close | Other | ReadError

  /** A call the reader makes into the callback. */
  datatype Call = OnOpen | OnEvent(message: string) | OnClose(reason: string) | OnFinish(reason: string)

  const ClosedByServer := "Connection closed by server"
  const ReaderEnded := "reader task ended"

  /** Whether reading stops after this frame: a close frame, a read
      error, or a text frame for which the callback's `on_event` answers
      true (`abort` stands for that answer). */
  predicate Stops(f: Frame, abort: string -> bool) {
    match f
    case Text(s) => abort(s)
    case Close => true
    case Other => false
    case ReadError => true
  }

  /** How many frames the reader takes from the stream: up to and
      including the first one that stops it, or all of them. */
  function Consumed(frames: seq<Frame>, abort: string -> bool): (n: nat)
    ensures n <= |frames|
    ensures n == 0 <==> frames == []
    ensures forall j :: 0 <= j < n - 1 ==> !Stops(frames[j], abort)
    ensures 0 < n < |frames| ==> Stops(frames[n - 1], abort)
  {
    if frames == [] then 0
    else if Stops(frames[0], abort) then 1
    else 1 + Consumed(frames[1..], abort)
  }

  /** The count `Consumed` promises is the only one: the first stopping
      frame ends the read, and without one every frame is read. */
  lemma {:induction false} ConsumedUnique(frames: seq<Frame>, abort: string -> bool, n: nat)
    requires n <= |frames|
    requires n == 0 <==> frames == []
    requires forall j :: 0 <= j < n - 1 ==> !Stops(frames[j], abort)
    requires 0 < n < |frames| ==> Stops(frames[n - 1], abort)
    ensures Consumed(frames, abort) == n
  {
  }

  /** The callback calls a frame produces when it is read. */
  function Reaction(f: Frame): seq<Call> {
    match f
    case Text(s) => [OnEvent(s)]
    case Close => [OnClose(ClosedByServer)]
    case Other => []
    case ReadError => []
  }

  function Reactions(frames: seq<Frame>): seq<Call> {
    if frames == [] then []
    else Reactions(frames[..|frames| - 1]) + Reaction(frames[|frames| - 1])
  }

  lemma {:induction false} ReactionsAppend(a: seq<Frame>, b: seq<Frame>)
    ensures Reactions(a + b) == Reactions(a) + Reactions(b)
    decreases |b|
  {
    if b == [] {
      assert a + b == a;
    } else {
      var b' := b[..|b| - 1];
      assert (a + b)[..|a + b| - 1] == a + b';
      ReactionsAppend(a, b');
    }
  }

  /** Every call a frame produces is an `on_event` or an `on_close`. */
  lemma {:induction false} ReactionsKinds(frames: seq<Frame>)
    ensures forall k :: 0 <= k < |Reactions(frames)| ==>
      Reactions(frames)[k].OnEvent? || Reactions(frames)[k].OnClose?
    decreases |frames|
  {
    if frames != [] {
      ReactionsKinds(frames[..|frames| - 1]);
    }
  }

  /** The calls the reader task makes, from `on_open` to `on_finish`,
      when the callback answers `abort` to each event. */
  function ReaderTrace(frames: seq<Frame>, abort: string -> bool): seq<Call> {
    [OnOpen] + Reactions(frames[..Consumed(frames, abort)]) + [OnFinish(ReaderEnded)]
  }

  /** The reader task: `on_open`, then one read after another until the
      stream is exhausted, the callback asks to abort, the server closes
      or a read fails; then `on_finish`. The result is the sequence of
      callback invocations. */
  method ReaderLoop(frames: seq<Frame>, abort: string -> bool) returns (trace: seq<Call>)
    ensures trace == ReaderTrace(frames, abort)
  {
    trace := [OnOpen];
    var i := 0;
    while i < |frames|
      invariant i <= |frames|
      invariant forall j :: 0 <= j < i ==> !Stops(frames[j], abort)
      invariant trace == [OnOpen] + Reactions(frames[..i])
    {
      var frame := frames[i];
      i := i + 1;
      assert frames[..i][..i - 1] == frames[..i - 1];
      match frame {
        case Text(s) =>
          trace := trace + [OnEvent(s)];
          if abort(s) {
            break;
          }
        case Close =>
          trace := trace + [OnClose(ClosedByServer)];
          break;
        case Other =>
        case ReadError =>
          break;
      }
    }
    ConsumedUnique(frames, abort, i);
    trace := trace + [OnFinish(ReaderEnded)];
  }

  /** `on_open` is the first call and is never repeated; `on_finish` is the
      last call and is never repeated; everything between them is an
      `on_event` or an `on_close`. */
  lemma {:induction false} OpenFirstFinishLast(frames: seq<Frame>, abort: string -> bool)
    ensures var t := ReaderTrace(frames, abort);
      && |t| >= 2
      && t[0] == OnOpen
      && t[|t| - 1] == OnFinish(ReaderEnded)
      && forall k :: 0 < k < |t| - 1 ==> t[k].OnEvent? || t[k].OnClose?
  {
    var r := Reactions(frames[..Consumed(frames, abort)]);
    ReactionsKinds(frames[..Consumed(frames, abort)]);
    var t := ReaderTrace(frames, abort);
    assert forall k :: 0 < k < |t| - 1 ==> t[k] == r[k - 1];
  }

  /** A stopping frame ends the read: whatever follows it in the stream
      produces no call at all. */
  lemma {:induction false} NothingAfterStop(prefix: seq<Frame>, f: Frame, rest: seq<Frame>, abort: string -> bool)
    requires forall j :: 0 <= j < |prefix| ==> !Stops(prefix[j], abort)
    requires Stops(f, abort)
    ensures ReaderTrace(prefix + [f] + rest, abort)
         == [OnOpen] + Reactions(prefix) + Reaction(f) + [OnFinish(ReaderEnded)]
  {
    var frames := prefix + [f] + rest;
    ConsumedUnique(frames, abort, |prefix| + 1);
    assert frames[..|prefix| + 1] == prefix + [f];
    ReactionsAppend(prefix, [f]);
    assert Reactions([f]) == Reaction(f) by {
      assert [f][..0] == [];
    }
  }

  /** An `on_event` answered with true is the last event: the reader
      then calls only `on_finish`. */
  lemma {:induction false} AbortStops(prefix: seq<Frame>, s: string, rest: seq<Frame>, abort: string -> bool)
    requires forall j :: 0 <= j < |prefix| ==> !Stops(prefix[j], abort)
    requires abort(s)
    ensures ReaderTrace(prefix + [Text(s)] + rest, abort)
         == [OnOpen] + Reactions(prefix) + [OnEvent(s), OnFinish(ReaderEnded)]
  {
    NothingAfterStop(prefix, Text(s), rest, abort);
  }

  /** A close frame produces one `on_close` with the fixed reason, then
      the reader finishes. */
  lemma {:induction false} CloseStops(prefix: seq<Frame>, rest: seq<Frame>, abort: string -> bool)
    requires forall j :: 0 <= j < |prefix| ==> !Stops(prefix[j], abort)
    ensures ReaderTrace(prefix + [Close] + rest, abort)
         == [OnOpen] + Reactions(prefix) + [OnClose(ClosedByServer), OnFinish(ReaderEnded)]
  {
    NothingAfterStop(prefix, Close, rest, abort);
  }

  /** A read error ends the reader without `on_close`. */
  lemma {:induction false} ErrorStops(prefix: seq<Frame>, rest: seq<Frame>, abort: string -> bool)
    requires forall j :: 0 <= j < |prefix| ==> !Stops(prefix[j], abort)
    ensures ReaderTrace(prefix + [ReadError] + rest, abort)
         == [OnOpen] + Reactions(prefix) + [OnFinish(ReaderEnded)]
  {
    NothingAfterStop(prefix, ReadError, rest, abort);
  }

  /** When nothing stops the reader, every frame is read and the stream's
      end is followed by `on_finish`. */
  lemma {:induction false} ExhaustedStream(frames: seq<Frame>, abort: string -> bool)
    requires forall j :: 0 <= j < |frames| ==> !Stops(frames[j], abort)
    ensures ReaderTrace(frames, abort) == [OnOpen] + Reactions(frames) + [OnFinish(ReaderEnded)]
  {
    ConsumedUnique(frames, abort, |frames|);
    assert frames[..|frames|] == frames;
  }

  lemma {:induction false} ReactionsSkipOther(a: seq<Frame>, b: seq<Frame>)
    ensures Reactions(a + [Other] + b) == Reactions(a + b)
  {
    var ao := a + [Other];
    ReactionsAppend(ao, b);
    assert ao[..|ao| - 1] == a;
    assert Reactions(ao) == Reactions(a);
    ReactionsAppend(a, b);
  }

  /** With `a` free of stopping frames and `b` stopping at `f`, an ignored
      frame between them changes no call. */
  lemma {:induction false} OtherIgnoredBeforeStop(
    a: seq<Frame>, pre: seq<Frame>, f: Frame, rest: seq<Frame>, abort: string -> bool)
    requires forall j :: 0 <= j < |a| ==> !Stops(a[j], abort)
    requires forall j :: 0 <= j < |pre| ==> !Stops(pre[j], abort)
    requires Stops(f, abort)
    ensures ReaderTrace(a + [Other] + (pre + [f] + rest), abort) == ReaderTrace(a + (pre + [f] + rest), abort)
  {
    assert a + [Other] + (pre + [f] + rest) == (a + [Other] + pre) + [f] + rest;
    assert a + (pre + [f] + rest) == (a + pre) + [f] + rest;
    NothingAfterStop(a + [Other] + pre, f, rest, abort);
    NothingAfterStop(a + pre, f, rest, abort);
    ReactionsSkipOther(a, pre);
  }

  /** With no stopping frame at all, an ignored frame changes no call. */
  lemma {:induction false} OtherIgnoredNoStop(a: seq<Frame>, b: seq<Frame>, abort: string -> bool)
    requires forall j :: 0 <= j < |a| ==> !Stops(a[j], abort)
    requires forall j :: 0 <= j < |b| ==> !Stops(b[j], abort)
    ensures ReaderTrace(a + [Other] + b, abort) == ReaderTrace(a + b, abort)
  {
    ExhaustedStream(a + [Other] + b, abort);
    ExhaustedStream(a + b, abort);
    ReactionsSkipOther(a, b);
  }

  /** With `a` free of stopping frames, an ignored frame after it changes
      no call. */
  lemma {:induction false} OtherIgnoredAfter(a: seq<Frame>, b: seq<Frame>, abort: string -> bool)
    requires forall j :: 0 <= j < |a| ==> !Stops(a[j], abort)
    ensures ReaderTrace(a + [Other] + b, abort) == ReaderTrace(a + b, abort)
  {
    var c := Consumed(b, abort);
    if c > 0 && Stops(b[c - 1], abort) {
      var k := c - 1;
      assert b == b[..k] + [b[k]] + b[k + 1..];
      OtherIgnoredBeforeStop(a, b[..k], b[k], b[k + 1..], abort);
    } else {
      OtherIgnoredNoStop(a, b, abort);
    }
  }

  /** Frames other than text and close are ignored: removing one from the
      stream changes no callback call. */
  lemma {:induction false} OtherIgnored(a: seq<Frame>, b: seq<Frame>, abort: string -> bool)
    ensures ReaderTrace(a + [Other] + b, abort) == ReaderTrace(a + b, abort)
  {
    var c := Consumed(a, abort);
    if c > 0 && Stops(a[c - 1], abort) {
      // The reader stops inside `a`, before reaching the ignored frame.
      var k := c - 1;
      var pre := a[..k];
      var rest := a[k + 1..];
      assert a == pre + [a[k]] + rest;
      assert a + [Other] + b == pre + [a[k]] + (rest + [Other] + b);
      assert a + b == pre + [a[k]] + (rest + b);
      NothingAfterStop(pre, a[k], rest + [Other] + b, abort);
      NothingAfterStop(pre, a[k], rest + b, abort);
    } else {
      OtherIgnoredAfter(a, b, abort);
    }
  }

  /* ---------------------------------------------------------------------
     Session
     --------------------------------------------------------------------- */

  /** What the websocket library and the server decide: whether the
      target address parses, whether the handshake succeeds, and the
      frames the server then sends. */
  datatype Link = Link(urlParses: bool, accepts: bool, inbound: seq<Frame>)

  /** A failed write on the websocket. */
  datatype SendError = SendError

  /** A live session; `written` is every text frame sent through the
      writer half, in order. */
  class QwenTtsRealtime {
    var written: seq<Json>

    constructor Opened()
      ensures written == []
    {
      written := [];
    }

    /** `QwenTtsRealtime::new`: build the request, connect, call `on_open`
        and run the reader over the server's frames when there is a
        callback (`callback` is its answer to each event). Without a
        callback no reader runs and nothing is called. */
    static method New(
      modelName: string, apiKey: string, url: Option<string>, workspace: Option<string>,
      callback: Option<string -> bool>, host: Host, link: Link)
      returns (r: Result<QwenTtsRealtime, ConnectError>, trace: seq<Call>)
      ensures r.Failure? <==>
        HandshakeRequest(modelName, apiKey, url, workspace, host, link.urlParses).Failure? || !link.accepts
      ensures r.Failure? ==> trace == []
      ensures r.Failure? && HandshakeRequest(modelName, apiKey, url, workspace, host, link.urlParses).Failure? ==>
        r.error == HandshakeRequest(modelName, apiKey, url, workspace, host, link.urlParses).error
      ensures r.Failure? && HandshakeRequest(modelName, apiKey, url, workspace, host, link.urlParses).Success? ==>
        r.error == ConnectFailed
      ensures r.Success? ==> fresh(r.value) && r.value.written == []
      ensures r.Success? ==> trace == if callback.None? then [] else ReaderTrace(link.inbound, callback.value)
    {
      var request := HandshakeRequest(modelName, apiKey, url, workspace, host, link.urlParses);
      if request.Failure? {
        return Failure(request.error), [];
      }
      if !link.accepts {
        return Failure(ConnectFailed), [];
      }
      var session := new QwenTtsRealtime.Opened();
      trace := [];
      if callback.Some? {
        trace := ReaderLoop(link.inbound, callback.value);
      }
      r := Success(session);
    }

    /** `update_session`: one `session.update` frame, written when the
        transport accepts it (`delivered`). */
    method UpdateSession(voice: string, responseFormat: AudioFormat, mode: string, uuid: string, delivered: bool)
      returns (r: Result<(), SendError>)
      modifies this
      ensures r.Success? <==> delivered
      ensures written == old(written) +
        (if delivered then [SessionUpdateEvent(EventId(uuid), voice, responseFormat, mode)] else [])
    {
      var msg := SessionUpdateEvent(EventId(uuid), voice, responseFormat, mode);
      r := Send(msg, delivered);
    }

    /** `append_text`: one `input_text_buffer.append` frame. */
    method AppendTextMessage(text: string, uuid: string, delivered: bool) returns (r: Result<(), SendError>)
      modifies this
      ensures r.Success? <==> delivered
      ensures written == old(written) + (if delivered then [AppendTextEvent(EventId(uuid), text)] else [])
    {
      var msg := AppendTextEvent(EventId(uuid), text);
      r := Send(msg, delivered);
    }

    /** `finish`: one `session.finish` frame. Nothing prevents a second
        call; it sends a second frame. */
    method Finish(uuid: string, delivered: bool) returns (r: Result<(), SendError>)
      modifies this
      ensures r.Success? <==> delivered
      ensures written == old(written) + (if delivered then [FinishEvent(EventId(uuid))] else [])
    {
      var msg := FinishEvent(EventId(uuid));
      r := Send(msg, delivered);
    }

    /** One text frame through the writer half; a failed write is reported
        and leaves the written frames as they were. */
    method Send(msg: Json, delivered: bool) returns (r: Result<(), SendError>)
      modifies this
      ensures r.Success? <==> delivered
      ensures written == old(written) + (if delivered then [msg] else [])
    {
      if delivered {
        written := written + [msg];
        r := Success(());
      } else {
        r := Failure(SendError);
      }
    }
  }
}
