/**
 * The command-line demo: a callback that appends the synthesized audio
 * to a file and raises a flag when the session is over, and the order in
 * which the program issues its commands.
 *
 * The file is an append-only byte sequence. JSON parsing and Base64
 * decoding are library calls whose inner workings are not modelled: the
 * callback holds them as the functions `parse` and `decode`.
 */
module Demo {
  import opened Wrappers
  import opened JsonValue
  import opened Realtime

  type byte = bv8

  const SessionCreatedType := "session.created"
  const AudioDeltaType := "response.audio.delta"
  const ResponseDoneType := "response.done"
  const SessionFinishedType := "session.finished"

  /** The audio an inbound message carries: the decoded `delta` of a
      `response.audio.delta` message whose `delta` is a string, and
      nothing for every other message. (A delta the decoder rejects makes
      the source panic; it counts as no audio here, and the callback's
      contract excludes it.) */
  function Audio(v: Json, decode: string -> Option<seq<byte>>): seq<byte> {
    if GetStr(v, "type") == Some(AudioDeltaType) && GetStr(v, "delta").Some?
       && decode(GetStr(v, "delta").value).Some? then
      decode(GetStr(v, "delta").value).value
    else []
  }

  /** The Base64 decoder accepts the message's audio, if it has any; the
      source panics otherwise. */
  predicate DeltaDecodes(v: Json, decode: string -> Option<seq<byte>>) {
    GetStr(v, "type") == Some(AudioDeltaType) && GetStr(v, "delta").Some? ==>
      decode(GetStr(v, "delta").value).Some?
  }

  /** Whether the message ends the session for this callback: its `type`
      is the string `session.finished`. */
  predicate EndsSession(v: Json) {
    GetStr(v, "type") == Some(SessionFinishedType)
  }

  class MyCallback {
    /** The output file, opened for appending. */
    var file: seq<byte>
    /** The flag the main program polls. */
    var sessionFinished: bool
    /** `serde_json::from_str`. */
    const parse: string -> Option<Json>
    /** The standard Base64 decoder. */
    const decode: string -> Option<seq<byte>>

    /** The file keeps what it held before: it is opened in append mode. */
    constructor (existing: seq<byte>, finished: bool,
                 parse: string -> Option<Json>, decode: string -> Option<seq<byte>>)
      ensures file == existing && sessionFinished == finished
      ensures this.parse == parse && this.decode == decode
    {
      file := existing;
      sessionFinished := finished;
      this.parse := parse;
      this.decode := decode;
    }

    /** Only logs. */
    method OnOpen()
      ensures unchanged(this)
    {
    }

    /** Only logs. */
    method OnClose(closeMsg: string)
      ensures unchanged(this)
    {
    }

    /** Raises the flag; the file is untouched. */
    method OnFinish(closeMsg: string)
      modifies this`sessionFinished
      ensures sessionFinished
      ensures file == old(file)
    {
      sessionFinished := true;
    }

    /** Classifies the message by its `type` and reacts: audio deltas are
        decoded and appended to the file, `session.finished` asks the
        reader to stop, everything else is only logged. A message that is
        not JSON, or a delta that is not Base64, makes the source panic;
        both are excluded here. */
    method OnEvent(message: string) returns (abort: bool)
      requires parse(message).Some?
      requires DeltaDecodes(parse(message).value, decode)
      modifies this`file
      ensures abort <==> EndsSession(parse(message).value)
      ensures file == old(file) + Audio(parse(message).value, decode)
      ensures sessionFinished == old(sessionFinished)
    {
      var v := parse(message).value;
      match Get(v, "type") {
        case Some(JStr(eventType)) =>
          if eventType == SessionCreatedType {
          } else if eventType == AudioDeltaType {
            match Get(v, "delta") {
              case Some(JStr(recvAudio)) =>
                var audioBytes := decode(recvAudio).value;
                file := file + audioBytes;
              case _ =>
            }
          } else if eventType == ResponseDoneType {
          } else if eventType == SessionFinishedType {
            return true;
          }
        case _ =>
      }
      abort := false;
    }
  }

  /** The message is JSON whose `type` is `session.finished`. */
  predicate Aborts(message: string, parse: string -> Option<Json>) {
    parse(message).Some? && EndsSession(parse(message).value)
  }

  /** The answer `on_event` gives to a raw message, as the reader loop sees
      it; `RunSession` shows that it is what `MyCallback.OnEvent` returns. */
  function Verdict(parse: string -> Option<Json>): string -> bool {
    m => Aborts(m, parse)
  }

  /** `on_event` can handle the message without panicking. */
  predicate Handled(message: string, parse: string -> Option<Json>, decode: string -> Option<seq<byte>>) {
    parse(message).Some? && DeltaDecodes(parse(message).value, decode)
  }

  /** The audio a raw message carries once parsed (none for a message
      that is not JSON, on which the source panics). */
  function MessageAudio(message: string, parse: string -> Option<Json>, decode: string -> Option<seq<byte>>): seq<byte> {
    if parse(message).Some? then Audio(parse(message).value, decode) else []
  }

  /** The audio that reaches the file over a sequence of callback calls:
      the audio of each `on_event`, in call order. */
  function SessionAudio(calls: seq<Call>, parse: string -> Option<Json>, decode: string -> Option<seq<byte>>): seq<byte> {
    if calls == [] then []
    else
      var n := |calls| - 1;
      SessionAudio(calls[..n], parse, decode) +
        (if calls[n].OnEvent? then MessageAudio(calls[n].message, parse, decode) else [])
  }

  /** Audio accumulates in arrival order: the audio of two runs of calls is
      the first run's followed by the second's. */
  lemma {:induction false} SessionAudioAppend(
    a: seq<Call>, b: seq<Call>, parse: string -> Option<Json>, decode: string -> Option<seq<byte>>)
    ensures SessionAudio(a + b, parse, decode) == SessionAudio(a, parse, decode) + SessionAudio(b, parse, decode)
    decreases |b|
  {
    if b == [] {
      assert a + b == a;
    } else {
      var b' := b[..|b| - 1];
      assert (a + b)[..|a + b| - 1] == a + b';
      SessionAudioAppend(a, b', parse, decode);
    }
  }

  /** Only audio deltas with a string `delta` feed the file: a message of
      any other type, without a string `type`, or without a string `delta`
      adds nothing. */
  lemma OnlyDeltasWrite(v: Json, decode: string -> Option<seq<byte>>)
    requires GetStr(v, "type") != Some(AudioDeltaType) || GetStr(v, "delta").None?
    ensures Audio(v, decode) == []
  {
  }

  /** A whole session as the demo experiences it: the reader stops at the
      first `session.finished` message (or at a close, an error or the end
      of the stream), and the file receives, in order, the audio of the
      text frames read up to that point. */
  lemma {:induction false} DemoSessionAudio(
    prefix: seq<Frame>, last: string, rest: seq<Frame>,
    parse: string -> Option<Json>, decode: string -> Option<seq<byte>>)
    requires forall j :: 0 <= j < |prefix| ==> prefix[j] != Close && prefix[j] != ReadError
    requires forall j :: 0 <= j < |prefix| && prefix[j].Text? ==>
      Handled(prefix[j].text, parse, decode) && !EndsSession(parse(prefix[j].text).value)
    requires parse(last).Some? && EndsSession(parse(last).value)
    ensures var t := ReaderTrace(prefix + [Text(last)] + rest, Verdict(parse));
      && t == [OnOpen] + Reactions(prefix) + [OnEvent(last), OnFinish(ReaderEnded)]
      && SessionAudio(t, parse, decode) == FramesAudio(prefix, parse, decode)
  {
    var abort := Verdict(parse);
    assert forall j :: 0 <= j < |prefix| ==> !Stops(prefix[j], abort);
    AbortStops(prefix, last, rest, abort);
    var tail := [OnEvent(last), OnFinish(ReaderEnded)];
    TraceAudio(prefix, tail, parse, decode);
    assert SessionAudio(tail, parse, decode) == [] by {
      assert MessageAudio(last, parse, decode) == [];
      assert tail[..1] == [OnEvent(last)];
      assert tail[..1][..0] == [];
      assert SessionAudio(tail[..1], parse, decode) == [];
    }
  }

  /** The audio of a trace that opens, reacts to `frames` and ends with
      `tail`. */
  lemma TraceAudio(frames: seq<Frame>, tail: seq<Call>,
                   parse: string -> Option<Json>, decode: string -> Option<seq<byte>>)
    ensures SessionAudio([OnOpen] + Reactions(frames) + tail, parse, decode)
         == FramesAudio(frames, parse, decode) + SessionAudio(tail, parse, decode)
  {
    OpenedAudio(Reactions(frames), tail, parse, decode);
    FramesAudioIsSessionAudio(frames, parse, decode);
  }

  /** `on_open` adds no audio in front of the calls that follow it. */
  lemma OpenedAudio(calls: seq<Call>, tail: seq<Call>,
                    parse: string -> Option<Json>, decode: string -> Option<seq<byte>>)
    ensures SessionAudio([OnOpen] + calls + tail, parse, decode)
         == SessionAudio(calls, parse, decode) + SessionAudio(tail, parse, decode)
  {
    calc {
      SessionAudio([OnOpen] + calls + tail, parse, decode);
      { SessionAudioAppend([OnOpen] + calls, tail, parse, decode); }
      SessionAudio([OnOpen] + calls, parse, decode) + SessionAudio(tail, parse, decode);
      { SessionAudioAppend([OnOpen], calls, parse, decode);
        SilentCall(OnOpen, parse, decode); }
      SessionAudio(calls, parse, decode) + SessionAudio(tail, parse, decode);
    }
  }

  /** A call other than `on_event` carries no audio. */
  lemma SilentCall(c: Call, parse: string -> Option<Json>, decode: string -> Option<seq<byte>>)
    requires !c.OnEvent?
    ensures SessionAudio([c], parse, decode) == []
  {
    assert [c][..0] == [];
  }

  /** The audio carried by the text frames of a stream, in order. */
  function FramesAudio(frames: seq<Frame>, parse: string -> Option<Json>, decode: string -> Option<seq<byte>>): seq<byte> {
    if frames == [] then []
    else
      var n := |frames| - 1;
      FramesAudio(frames[..n], parse, decode) +
        (if frames[n].Text? then MessageAudio(frames[n].text, parse, decode) else [])
  }

  /** The calls the frames produce carry exactly the frames' audio. */
  lemma {:induction false} FramesAudioIsSessionAudio(
    frames: seq<Frame>, parse: string -> Option<Json>, decode: string -> Option<seq<byte>>)
    ensures SessionAudio(Reactions(frames), parse, decode) == FramesAudio(frames, parse, decode)
    decreases |frames|
  {
    if frames != [] {
      var init := frames[..|frames| - 1];
      var f := frames[|frames| - 1];
      FramesAudioIsSessionAudio(init, parse, decode);
      var r := Reaction(f);
      SessionAudioAppend(Reactions(init), r, parse, decode);
      if f.Text? || f.Close? {
        assert r[..0] == [];
      }
    }
  }

  /** One callback call made on the demo's callback object: the verdict
      is `Verdict`'s answer for an `on_event` (and `false` otherwise), the
      file grows by the call's audio, and `on_finish` raises the flag. */
  method Respond(cb: MyCallback, c: Call) returns (verdict: bool)
    requires c.OnEvent? ==> Handled(c.message, cb.parse, cb.decode)
    modifies cb
    ensures verdict <==> c.OnEvent? && Aborts(c.message, cb.parse)
    ensures cb.file == old(cb.file) + (if c.OnEvent? then MessageAudio(c.message, cb.parse, cb.decode) else [])
    ensures cb.sessionFinished == (c.OnFinish? || old(cb.sessionFinished))
  {
    verdict := false;
    match c {
      case OnOpen => cb.OnOpen();
      case OnEvent(m) => verdict := cb.OnEvent(m);
      case OnClose(reason) => cb.OnClose(reason);
      case OnFinish(reason) => cb.OnFinish(reason);
    }
  }

  /** The calls of a reader task delivered, in order, to the demo's
      callback object: each `on_event` answers `Verdict`, the file grows by
      the audio of the calls in call order, and the session-finished flag
      ends raised exactly when it was already raised or an `on_finish` was
      among the calls: no other call touches it. */
  method Deliver(cb: MyCallback, calls: seq<Call>) returns (verdicts: seq<bool>)
    requires forall k :: 0 <= k < |calls| && calls[k].OnEvent? ==> Handled(calls[k].message, cb.parse, cb.decode)
    modifies cb
    ensures |verdicts| == |calls|
    ensures forall k :: 0 <= k < |calls| ==>
      (verdicts[k] <==> calls[k].OnEvent? && Aborts(calls[k].message, cb.parse))
    ensures cb.file == old(cb.file) + SessionAudio(calls, cb.parse, cb.decode)
    ensures cb.sessionFinished <==>
      old(cb.sessionFinished) || exists k :: 0 <= k < |calls| && calls[k].OnFinish?
  {
    verdicts := [];
    var i := 0;
    while i < |calls|
      invariant i <= |calls| && |verdicts| == i
      invariant forall k :: 0 <= k < i ==>
        (verdicts[k] <==> calls[k].OnEvent? && Aborts(calls[k].message, cb.parse))
      invariant cb.file == old(cb.file) + SessionAudio(calls[..i], cb.parse, cb.decode)
      invariant cb.sessionFinished <==>
        old(cb.sessionFinished) || exists k :: 0 <= k < i && calls[k].OnFinish?
    {
      assert calls[..i + 1][..i] == calls[..i];
      var verdict := Respond(cb, calls[i]);
      verdicts := verdicts + [verdict];
      i := i + 1;
    }
    assert calls[..i] == calls;
  }

  /** A trace from `on_open` to `on_finish` carries the audio of the frames
      read. */
  lemma FinishedTraceAudio(frames: seq<Frame>, parse: string -> Option<Json>, decode: string -> Option<seq<byte>>)
    ensures SessionAudio([OnOpen] + Reactions(frames) + [OnFinish(ReaderEnded)], parse, decode)
         == FramesAudio(frames, parse, decode)
  {
    TraceAudio(frames, [OnFinish(ReaderEnded)], parse, decode);
    SilentCall(OnFinish(ReaderEnded), parse, decode);
  }

  /** Every `on_event` the frames produce carries the text of a frame, so
      when `on_event` can handle every text frame it can handle every
      `on_event` call. */
  lemma {:induction false} ReactionsHandled(
    frames: seq<Frame>, parse: string -> Option<Json>, decode: string -> Option<seq<byte>>)
    requires forall j :: 0 <= j < |frames| && frames[j].Text? ==> Handled(frames[j].text, parse, decode)
    ensures forall k :: 0 <= k < |Reactions(frames)| && Reactions(frames)[k].OnEvent? ==>
      Handled(Reactions(frames)[k].message, parse, decode)
    decreases |frames|
  {
    if frames != [] {
      var init := frames[..|frames| - 1];
      ReactionsHandled(init, parse, decode);
      assert Reactions(frames) == Reactions(init) + Reaction(frames[|frames| - 1]);
    }
  }

  /** A whole session of the demo: the reader task runs over `frames`,
      stopping when the callback's own answer says so, and every call it
      makes reaches the callback object. The answers the callback gives are
      the verdicts that drove the reader; the file ends up with the audio of
      the text frames read, in order; and the session-finished flag is
      raised, so the main program's polling loop ends. */
  method RunSession(cb: MyCallback, frames: seq<Frame>) returns (trace: seq<Call>, verdicts: seq<bool>)
    requires forall j :: 0 <= j < Consumed(frames, Verdict(cb.parse)) && frames[j].Text? ==>
      Handled(frames[j].text, cb.parse, cb.decode)
    modifies cb
    ensures trace == ReaderTrace(frames, Verdict(cb.parse))
    ensures |verdicts| == |trace|
    ensures forall k :: 0 <= k < |trace| && trace[k].OnEvent? ==>
      (verdicts[k] <==> Verdict(cb.parse)(trace[k].message))
    ensures cb.file == old(cb.file) + FramesAudio(frames[..Consumed(frames, Verdict(cb.parse))], cb.parse, cb.decode)
    ensures cb.sessionFinished
  {
    trace := ReaderLoop(frames, Verdict(cb.parse));
    var read := frames[..Consumed(frames, Verdict(cb.parse))];
    ReactionsHandled(read, cb.parse, cb.decode);
    var reactions := Reactions(read);
    assert trace == [OnOpen] + reactions + [OnFinish(ReaderEnded)];
    assert forall k :: 1 <= k < |trace| - 1 ==> trace[k] == reactions[k - 1];
    verdicts := Deliver(cb, trace);
    assert trace[|trace| - 1].OnFinish?;
    FinishedTraceAudio(read, cb.parse, cb.decode);
  }

  /* ---------------------------------------------------------------------
     Command order of the main program
     --------------------------------------------------------------------- */

  const DemoVoice := "Cherry"
  const DemoMode := "server_commit"

  /** The `input_text_buffer.append` messages for `texts`, the i-th with
      the id made from `uuids[i]`. */
  function AppendEvents(texts: seq<string>, uuids: seq<string>): (ms: seq<Json>)
    requires |uuids| == |texts|
    ensures |ms| == |texts|
  {
    if texts == [] then []
    else
      var n := |texts| - 1;
      AppendEvents(texts[..n], uuids[..n]) + [AppendTextEvent(EventId(uuids[n]), texts[n])]
  }

  /** Everything the main program tries to send, in order: the session
      configuration, one append per text, then finish. `uuids` supplies
      the random part of each event id. */
  function Planned(texts: seq<string>, uuids: seq<string>): (ms: seq<Json>)
    requires |uuids| == |texts| + 2
    ensures |ms| == |texts| + 2
  {
    [SessionUpdateEvent(EventId(uuids[0]), DemoVoice, Pcm24000HzMono16Bit, DemoMode)]
      + AppendEvents(texts, uuids[1..|texts| + 1])
      + [FinishEvent(EventId(uuids[|texts| + 1]))]
  }

  /** The first `n` planned messages that the transport accepted; the
      program ignores each send's result, so a failed one is simply
      missing. */
  function Kept(ms: seq<Json>, delivered: seq<bool>, n: nat): (r: seq<Json>)
    requires |delivered| == |ms| && n <= |ms|
    ensures |r| <= n
  {
    if n == 0 then []
    else Kept(ms, delivered, n - 1) + (if delivered[n - 1] then [ms[n - 1]] else [])
  }

  /** What every planned message decodes to: the configuration first, the
      texts in array order, finish last, each with its own id. */
  lemma PlannedDecodes(texts: seq<string>, uuids: seq<string>)
    requires |uuids| == |texts| + 2
    ensures var ms := Planned(texts, uuids);
      && Decode(ms[0]) == Some(Outbound(EventId(uuids[0]),
           SessionUpdate(DemoVoice, DemoMode, "pcm", 24000)))
      && (forall i :: 0 <= i < |texts| ==>
           Decode(ms[i + 1]) == Some(Outbound(EventId(uuids[i + 1]), AppendText(texts[i]))))
      && Decode(ms[|texts| + 1]) == Some(Outbound(EventId(uuids[|texts| + 1]), SessionFinish))
  {
    var ms := Planned(texts, uuids);
    PlannedEnds(texts, uuids);
    DecodeSessionUpdate(EventId(uuids[0]), DemoVoice, Pcm24000HzMono16Bit, DemoMode);
    DecodeFinish(EventId(uuids[|texts| + 1]));
    forall i | 0 <= i < |texts|
      ensures Decode(ms[i + 1]) == Some(Outbound(EventId(uuids[i + 1]), AppendText(texts[i])))
    {
      PlannedAt(texts, uuids, i);
      DecodeAppendText(EventId(uuids[i + 1]), texts[i]);
    }
  }

  /** The first planned message configures the session; the last one
      finishes it. */
  lemma PlannedEnds(texts: seq<string>, uuids: seq<string>)
    requires |uuids| == |texts| + 2
    ensures Planned(texts, uuids)[0] == SessionUpdateEvent(EventId(uuids[0]), DemoVoice, Pcm24000HzMono16Bit, DemoMode)
    ensures Planned(texts, uuids)[|texts| + 1] == FinishEvent(EventId(uuids[|texts| + 1]))
  {
  }

  /** The message planned for the i-th text. */
  lemma PlannedAt(texts: seq<string>, uuids: seq<string>, i: nat)
    requires |uuids| == |texts| + 2 && i < |texts|
    ensures Planned(texts, uuids)[i + 1] == AppendTextEvent(EventId(uuids[i + 1]), texts[i])
  {
    var appends := AppendEvents(texts, uuids[1..|texts| + 1]);
    assert Planned(texts, uuids)[i + 1] == appends[i];
    AppendEventAt(texts, uuids[1..|texts| + 1], i);
  }

  /** The id each planned message carries: the one made from its UUID. */
  lemma PlannedEventId(texts: seq<string>, uuids: seq<string>, i: nat)
    requires |uuids| == |texts| + 2 && i < |texts| + 2
    ensures Decode(Planned(texts, uuids)[i]).Some?
    ensures Decode(Planned(texts, uuids)[i]).value.eventId == EventId(uuids[i])
  {
    PlannedEnds(texts, uuids);
    if i == 0 {
      DecodeSessionUpdate(EventId(uuids[0]), DemoVoice, Pcm24000HzMono16Bit, DemoMode);
    } else if i == |texts| + 1 {
      DecodeFinish(EventId(uuids[i]));
    } else {
      PlannedAt(texts, uuids, i - 1);
      DecodeAppendText(EventId(uuids[i]), texts[i - 1]);
    }
  }

  /** Distinct UUIDs give every planned message its own event id. */
  lemma PlannedIdsDistinct(texts: seq<string>, uuids: seq<string>, i: nat, j: nat)
    requires |uuids| == |texts| + 2
    requires i < j < |texts| + 2
    requires uuids[i] != uuids[j]
    ensures var ms := Planned(texts, uuids);
      Decode(ms[i]).Some? && Decode(ms[j]).Some? && Decode(ms[i]).value.eventId != Decode(ms[j]).value.eventId
  {
    PlannedEventId(texts, uuids, i);
    PlannedEventId(texts, uuids, j);
    EventIdInjective(uuids[i], uuids[j]);
  }

  /** When every send succeeds, every planned message is written. */
  lemma KeptAll(ms: seq<Json>, delivered: seq<bool>)
    requires |delivered| == |ms|
    requires forall i :: 0 <= i < |ms| ==> delivered[i]
    ensures Kept(ms, delivered, |ms|) == ms
  {
    KeptPrefix(ms, delivered, |ms|);
    assert ms[..|ms|] == ms;
  }

  /** The number of sends the transport accepted. */
  function Accepted(delivered: seq<bool>): (c: nat)
    ensures c <= |delivered|
  {
    if delivered == [] then 0
    else Accepted(delivered[..|delivered| - 1]) + (if delivered[|delivered| - 1] then 1 else 0)
  }

  /** The written messages are exactly the accepted ones, in plan order:
      there is one per accepted send, and the message of the i-th planned
      send, when accepted, sits after the messages of the accepted sends
      before it. A failed send leaves no gap and no trace. */
  lemma {:induction false} KeptPositions(ms: seq<Json>, delivered: seq<bool>, n: nat)
    requires |delivered| == |ms| && n <= |ms|
    ensures |Kept(ms, delivered, n)| == Accepted(delivered[..n])
    ensures forall i :: 0 <= i < n && delivered[i] ==>
      Accepted(delivered[..i]) < |Kept(ms, delivered, n)| && Kept(ms, delivered, n)[Accepted(delivered[..i])] == ms[i]
  {
    if n > 0 {
      KeptPositions(ms, delivered, n - 1);
      assert delivered[..n][..n - 1] == delivered[..n - 1];
    }
  }

  lemma {:induction false} KeptPrefix(ms: seq<Json>, delivered: seq<bool>, n: nat)
    requires |delivered| == |ms| && n <= |ms|
    requires forall i :: 0 <= i < |ms| ==> delivered[i]
    ensures Kept(ms, delivered, n) == ms[..n]
  {
    if n > 0 {
      KeptPrefix(ms, delivered, n - 1);
      assert ms[..n] == ms[..n - 1] + [ms[n - 1]];
    }
  }

  /** The main program's commands: `update_session` once with the demo's
      voice, format and mode, one `append_text` per text in array order,
      then `finish` once. `delivered` says which sends the transport
      accepts. */
  method IssueCommands(session: QwenTtsRealtime, texts: seq<string>, uuids: seq<string>, delivered: seq<bool>)
    requires |uuids| == |texts| + 2 && |delivered| == |texts| + 2
    modifies session
    ensures session.written == old(session.written) + Kept(Planned(texts, uuids), delivered, |texts| + 2)
  {
    ghost var plan := Planned(texts, uuids);
    PlannedEnds(texts, uuids);
    var ignored := session.UpdateSession(DemoVoice, Pcm24000HzMono16Bit, DemoMode, uuids[0], delivered[0]);
    for i := 0 to |texts|
      invariant session.written == old(session.written) + Kept(plan, delivered, i + 1)
    {
      ignored := session.AppendTextMessage(texts[i], uuids[i + 1], delivered[i + 1]);
      PlannedAt(texts, uuids, i);
    }
    ignored := session.Finish(uuids[|texts| + 1], delivered[|texts| + 1]);
  }

  lemma {:induction false} AppendEventAt(texts: seq<string>, uuids: seq<string>, i: nat)
    requires |uuids| == |texts| && i < |texts|
    ensures AppendEvents(texts, uuids)[i] == AppendTextEvent(EventId(uuids[i]), texts[i])
    decreases |texts|
  {
    var n := |texts| - 1;
    if i < n {
      AppendEventAt(texts[..n], uuids[..n], i);
    }
  }
}
