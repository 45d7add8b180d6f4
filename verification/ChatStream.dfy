/** The AI chat stream: three processes joined by channels.

    The producer reads the upstream body (internal/platform/openrouter/client.go),
    the relay forwards chunks, saves the reply and reports the outcome
    (internal/service/chat_conversation_service.go), and the writer sends the
    SSE frames (internal/handler/chat_conversation_handler.go). The request
    context may end at any point, and does end once the writer has returned. */
module ChatStream {
  import opened Wrappers

  /** A channel with room for one value; `closed` is final. */
  datatype Chan<T> = Chan(buf: Option<T>, closed: bool) {
    predicate CanSend() { buf.None? && !closed }
    predicate CanReceive() { buf.Some? || closed }
  }

  datatype Failure = ContextEnded | UpstreamFailed | EmptyReply | SaveFailed

  /** One line of the upstream body: the end marker, or data with possibly a
      usage report and possibly text (empty for lines that carry none). */
  datatype Line = DoneMarker | Data(usage: Option<nat>, text: string)

  datatype Producer =
    | Calling(lines: seq<Line>)
    | Scanning(lines: seq<Line>, usage: nat)
    | Offering(chunk: string, lines: seq<Line>, usage: nat)
    | PushErr(error: Failure)
    | PushUsage(total: nat)
    | CloseErr | CloseUsage | CloseChunks   // deferred, in this order
    | Stopped

  datatype Relay =
    | Ranging
    | Forwarding(chunk: string)
    | ReceiveErr
    | ReceiveUsage
    | Inserting
    | Touching                               // reply stored, conversation not yet updated
    | SendErr(error: Failure)
    | SendComplete(reply: string)
    | CloseFailure | CloseComplete | CloseOut // deferred, in this order
    | Ended

  datatype Writer =
    | Opening
    | Draining
    | Writing(chunk: string)
    | AwaitErr
    | AwaitComplete
    | WriteError(error: Failure)
    | WriteComplete(reply: string)
    | WriteDone
    | Returned(failed: bool)

  datatype Frame = UserMessage | AiChunk(text: string) | AiComplete(content: string) | AiError(error: Failure) | Done

  /** `written` lists the chunk payloads sent so far and `sent` counts the
      values the relay put on `complete` and `errCh`; both are history. */
  datatype State = State(
    ended: bool,
    producer: Producer, upErr: Chan<Failure>, usageCh: Chan<nat>, chunksClosed: bool,
    relay: Relay, content: string, saved: seq<string>,
    errCh: Chan<Failure>, complete: Chan<string>, outClosed: bool, sent: nat,
    writer: Writer, frames: seq<Frame>, written: seq<string>)

  function Init(lines: seq<Line>): State {
    State(false, Calling(lines), Chan(None, false), Chan(None, false), false,
          Ranging, "", [], Chan(None, false), Chan(None, false), false, 0,
          Opening, [], [])
  }

  datatype Action =
    | Cancel
    | Call(ok: bool) | Scan | ScanFails | ProducerPush | ProducerCancelled | ProducerClose
    | HandOver                                // producer to relay
    | EndRange | Forward                      // relay to writer
    | RelayCancelled | RelayReceive | Insert(ok: bool) | Touch(ok: bool) | RelayPush | RelayClose
    | Write(ok: bool) | EndDrain | WriterReceive

  predicate Enabled(s: State, a: Action) {
    match a
    case Cancel => true
    case Call(_) => s.producer.Calling?
    case Scan => s.producer.Scanning?
    case ScanFails => s.producer.Scanning?
    case ProducerPush => (s.producer.PushErr? && s.upErr.CanSend()) || (s.producer.PushUsage? && s.usageCh.CanSend())
    case ProducerCancelled => s.producer.Offering? && s.ended
    case ProducerClose =>
      (s.producer.CloseErr? && !s.upErr.closed) || (s.producer.CloseUsage? && !s.usageCh.closed) ||
      (s.producer.CloseChunks? && !s.chunksClosed)
    case HandOver => s.producer.Offering? && s.relay.Ranging?
    case EndRange => s.relay.Ranging? && s.chunksClosed
    case Forward => s.relay.Forwarding? && s.writer.Draining?
    case RelayCancelled => s.relay.Forwarding? && s.ended
    case RelayReceive =>
      (s.relay.ReceiveErr? && s.upErr.CanReceive()) || (s.relay.ReceiveUsage? && s.usageCh.CanReceive())
    case Insert(_) => s.relay.Inserting?
    case Touch(_) => s.relay.Touching?
    case RelayPush => (s.relay.SendErr? && s.errCh.CanSend()) || (s.relay.SendComplete? && s.complete.CanSend())
    case RelayClose =>
      (s.relay.CloseFailure? && !s.errCh.closed) || (s.relay.CloseComplete? && !s.complete.closed) ||
      (s.relay.CloseOut? && !s.outClosed)
    case Write(_) =>
      s.writer.Opening? || s.writer.Writing? || s.writer.WriteError? || s.writer.WriteComplete? || s.writer.WriteDone?
    case EndDrain => s.writer.Draining? && s.outClosed
    case WriterReceive =>
      (s.writer.AwaitErr? && s.errCh.CanReceive()) || (s.writer.AwaitComplete? && s.complete.CanReceive())
  }

  function Scanned(lines: seq<Line>, usage: nat): Producer {
    if lines == [] then PushUsage(usage) else
    match lines[0]
    case DoneMarker => PushUsage(usage)
    case Data(report, text) =>
      var total := if report.Some? then report.value else usage;
      if text == "" then Scanning(lines[1..], total) else Offering(text, lines[1..], total)
  }

  function Apply(s: State, a: Action): State
    requires Enabled(s, a)
  {
    match a
    case Cancel => s.(ended := true)
    case Call(ok) => s.(producer := if ok then Scanning(s.producer.lines, 0) else PushErr(UpstreamFailed))
    case Scan => s.(producer := Scanned(s.producer.lines, s.producer.usage))
    case ScanFails => s.(producer := PushErr(UpstreamFailed))
    case ProducerPush =>
      if s.producer.PushErr? then s.(upErr := s.upErr.(buf := Some(s.producer.error)), producer := CloseErr)
      else s.(usageCh := s.usageCh.(buf := Some(s.producer.total)), producer := CloseErr)
    case ProducerCancelled => s.(producer := PushErr(ContextEnded))
    case ProducerClose =>
      if s.producer.CloseErr? then s.(upErr := s.upErr.(closed := true), producer := CloseUsage)
      else if s.producer.CloseUsage? then s.(usageCh := s.usageCh.(closed := true), producer := CloseChunks)
      else s.(chunksClosed := true, producer := Stopped)
    case HandOver =>
      s.(producer := Scanning(s.producer.lines, s.producer.usage),
         relay := Forwarding(s.producer.chunk), content := s.content + s.producer.chunk)
    case EndRange => s.(relay := ReceiveErr)
    case Forward => s.(relay := Ranging, writer := Writing(s.relay.chunk))
    case RelayCancelled => s.(relay := SendErr(ContextEnded))
    case RelayReceive =>
      if s.relay.ReceiveErr? then
        s.(relay := if s.upErr.buf.Some? then SendErr(s.upErr.buf.value) else ReceiveUsage,
           upErr := s.upErr.(buf := None))
      else
        s.(relay := if s.content == "" then SendErr(EmptyReply) else Inserting,
           usageCh := s.usageCh.(buf := None))
    case Insert(ok) =>
      if ok then s.(saved := s.saved + [s.content], relay := Touching) else s.(relay := SendErr(SaveError(s)))
    case Touch(ok) => s.(relay := if ok then SendComplete(s.content) else SendErr(SaveError(s)))
    case RelayPush =>
      if s.relay.SendErr? then
        s.(errCh := s.errCh.(buf := Some(s.relay.error)), relay := CloseFailure, sent := s.sent + 1)
      else
        s.(complete := s.complete.(buf := Some(s.relay.reply)), relay := CloseFailure, sent := s.sent + 1)
    case RelayClose =>
      if s.relay.CloseFailure? then s.(errCh := s.errCh.(closed := true), relay := CloseComplete)
      else if s.relay.CloseComplete? then s.(complete := s.complete.(closed := true), relay := CloseOut)
      else s.(outClosed := true, relay := Ended)
    case Write(ok) => if ok then Wrote(s) else s.(writer := Returned(true))
    case EndDrain => s.(writer := AwaitErr)
    case WriterReceive =>
      if s.writer.AwaitErr? then
        s.(writer := if s.errCh.buf.Some? then WriteError(s.errCh.buf.value) else AwaitComplete,
           errCh := s.errCh.(buf := None))
      else
        s.(writer := if s.complete.buf.Some? then WriteComplete(s.complete.buf.value) else WriteDone,
           complete := s.complete.(buf := None))
  }

  function SaveError(s: State): Failure {
    if s.ended then ContextEnded else SaveFailed
  }

  function Wrote(s: State): State
    requires Enabled(s, Write(true))
  {
    match s.writer
    case Opening => s.(writer := Draining, frames := s.frames + [UserMessage])
    case Writing(chunk) =>
      s.(writer := Draining, frames := s.frames + [AiChunk(chunk)], written := s.written + [chunk])
    case WriteError(e) => s.(writer := WriteDone, frames := s.frames + [AiError(e)])
    case WriteComplete(reply) => s.(writer := WriteDone, frames := s.frames + [AiComplete(reply)])
    case WriteDone => s.(writer := Returned(false), frames := s.frames + [Done])
  }

  predicate Run(s: State, run: seq<Action>, s': State)
    decreases |run|
  {
    if run == [] then s == s' else Enabled(s, run[0]) && Run(Apply(s, run[0]), run[1..], s')
  }

  ghost predicate Reachable(s: State) {
    exists lines, run :: Run(Init(lines), run, s)
  }

  // ----- The inductive invariant -----

  predicate ProducerOk(s: State) {
    && (s.upErr.closed <==> s.producer.CloseUsage? || s.producer.CloseChunks? || s.producer.Stopped?)
    && (s.usageCh.closed <==> s.producer.CloseChunks? || s.producer.Stopped?)
    && (s.chunksClosed <==> s.producer.Stopped?)
    && (!Closing(s.producer) ==> s.upErr.buf.None? && s.usageCh.buf.None?)
  }

  predicate Closing(p: Producer) {
    p.CloseErr? || p.CloseUsage? || p.CloseChunks? || p.Stopped?
  }

  /** The relay has put its one value on one of its result channels. */
  predicate Reported(r: Relay) {
    r.CloseFailure? || r.CloseComplete? || r.CloseOut? || r.Ended?
  }

  predicate RelayOk(s: State) {
    && (s.errCh.closed <==> s.relay.CloseComplete? || s.relay.CloseOut? || s.relay.Ended?)
    && (s.complete.closed <==> s.relay.CloseOut? || s.relay.Ended?)
    && (s.outClosed <==> s.relay.Ended?)
    && s.sent == (if Reported(s.relay) then 1 else 0)
    && (!Reported(s.relay) ==> s.errCh.buf.None? && s.complete.buf.None?)
    && (!(s.relay.Ranging? || s.relay.Forwarding?) ==> s.producer.Stopped? || s.ended)
    && (s.relay.ReceiveErr? || s.relay.ReceiveUsage? ==> s.producer.Stopped?)
  }

  /** At most the newest reply is stored, and it is what a success reports. */
  predicate SavedOk(s: State) {
    && (s.relay.Ranging? || s.relay.Forwarding? || s.relay.ReceiveErr? || s.relay.ReceiveUsage? || s.relay.Inserting?
        ==> s.saved == [])
    && (s.saved == [] || s.saved == [s.content])
    && (s.relay.Touching? || s.relay.SendComplete? || s.complete.buf.Some? || s.writer.WriteComplete? ==>
          s.saved == [s.content])
    && (s.relay.SendComplete? ==> s.relay.reply == s.content)
    && (s.complete.buf.Some? ==> s.complete.buf.value == s.content)
    && (s.writer.WriteComplete? ==> s.writer.reply == s.content)
  }

  /** A writer that has read the end of the chunks finds exactly one result. */
  predicate HandshakeOk(s: State) {
    && (!(s.writer.Opening? || s.writer.Draining? || s.writer.Writing? || s.writer.Returned?) ==> s.relay.Ended?)
    && (Reported(s.relay) && (s.writer.Opening? || s.writer.Draining? || s.writer.Writing? || s.writer.AwaitErr?)
        ==> (s.errCh.buf.Some? <==> s.complete.buf.None?))
    && (s.writer.AwaitComplete? ==> s.errCh.buf.None? && s.complete.buf.Some?)
    && (s.writer.WriteError? || s.writer.WriteComplete? || s.writer.WriteDone? ==>
          s.errCh.buf.None? && s.complete.buf.None?)
  }

  function Concat(chunks: seq<string>): string {
    if chunks == [] then "" else Concat(chunks[..|chunks| - 1]) + chunks[|chunks| - 1]
  }

  /** Everything the relay has received, in terms of the two later stages. */
  predicate ContentOk(s: State) {
    !s.writer.Returned? && (s.relay.Ranging? || s.relay.Forwarding? || Succeeding(s)) ==>
      s.content == Concat(s.written)
        + (if s.writer.Writing? then s.writer.chunk else "")
        + (if s.relay.Forwarding? then s.relay.chunk else "")
  }

  /** The relay has seen the end of the chunks and may still report success. */
  predicate Succeeding(s: State) {
    s.relay.ReceiveErr? || s.relay.ReceiveUsage? || s.relay.Inserting? || s.relay.Touching? ||
    s.relay.SendComplete? || s.complete.buf.Some? || s.writer.WriteComplete?
  }

  function Body(written: seq<string>): seq<Frame> {
    [UserMessage] + seq(|written|, i requires 0 <= i < |written| => AiChunk(written[i]))
  }

  predicate Terminal(s: State, f: Frame) {
    f.AiError? || (f.AiComplete? && f.content == Concat(s.written) && s.saved == [f.content])
  }

  /** The frames on the wire: opening, chunks, one terminal event, [DONE]. */
  predicate FramesOk(s: State) {
    match s.writer
    case Opening => s.frames == [] && s.written == []
    case WriteDone => Finishing(s, s.frames)
    case Returned(true) =>
      (s.frames == [] && s.written == []) || s.frames == Body(s.written) || Finishing(s, s.frames)
    case Returned(false) =>
      s.frames != [] && s.frames[|s.frames| - 1] == Done && Finishing(s, s.frames[..|s.frames| - 1])
    case _ => s.frames == Body(s.written)
  }

  predicate Finishing(s: State, frames: seq<Frame>) {
    |frames| > 0 && Terminal(s, frames[|frames| - 1]) && frames[..|frames| - 1] == Body(s.written)
  }

  predicate Inv(s: State) {
    ProducerOk(s) && RelayOk(s) && SavedOk(s) && HandshakeOk(s) && ContentOk(s) && FramesOk(s)
  }

  lemma ConcatAppend(written: seq<string>, chunk: string)
    ensures Concat(written + [chunk]) == Concat(written) + chunk
    ensures Body(written + [chunk]) == Body(written) + [AiChunk(chunk)]
  {
    assert (written + [chunk])[..|written|] == written;
  }

  predicate ByProducer(a: Action) {
    a.Cancel? || a.Call? || a.Scan? || a.ScanFails? || a.ProducerPush? || a.ProducerCancelled? || a.ProducerClose?
  }

  predicate ByWriter(a: Action) {
    a.Write? || a.EndDrain? || a.WriterReceive?
  }

  lemma FramesStable(s: State, s': State)
    requires FramesOk(s) && s'.frames == s.frames && s'.written == s.written
    requires s'.writer == s.writer && s'.saved == s.saved
    ensures FramesOk(s')
  {
  }

  /** What relay and writer have done does not depend on the producer's state. */
  lemma RestStable(s: State, s': State)
    requires SavedOk(s) && HandshakeOk(s) && ContentOk(s) && FramesOk(s)
    requires s' == s.(ended := s'.ended, producer := s'.producer,
      upErr := s'.upErr, usageCh := s'.usageCh, chunksClosed := s'.chunksClosed)
    ensures SavedOk(s') && HandshakeOk(s') && ContentOk(s') && FramesOk(s')
  {
    FramesStable(s, s');
  }

  lemma ProducerKeepsInv(s: State, a: Action)
    requires Inv(s) && Enabled(s, a) && ByProducer(a)
    ensures Inv(Apply(s, a))
  {
    ProducerKeepsChannels(s, a);
    RestStable(s, Apply(s, a));
  }

  lemma ProducerKeepsChannels(s: State, a: Action)
    requires ProducerOk(s) && RelayOk(s) && Enabled(s, a) && ByProducer(a)
    ensures var s' := Apply(s, a);
      ProducerOk(s') && RelayOk(s') && s' == s.(ended := s'.ended, producer := s'.producer,
        upErr := s'.upErr, usageCh := s'.usageCh, chunksClosed := s'.chunksClosed)
  {
  }

  lemma WriterKeepsInv(s: State, a: Action)
    requires Inv(s) && Enabled(s, a) && ByWriter(a)
    ensures Inv(Apply(s, a))
  {
    if a == Write(true) {
      WriteKeepsFrames(s);
      WriteKeepsRest(s);
    } else {
      ReadKeepsInv(s, a);
    }
  }

  lemma WriteKeepsRest(s: State)
    requires Inv(s) && Enabled(s, Write(true))
    ensures ProducerOk(Wrote(s)) && RelayOk(Wrote(s)) && SavedOk(Wrote(s))
    ensures HandshakeOk(Wrote(s)) && ContentOk(Wrote(s))
  {
    if s.writer.Writing? {
      ConcatAppend(s.written, s.writer.chunk);
    }
  }

  lemma ReadKeepsInv(s: State, a: Action)
    requires Inv(s) && Enabled(s, a) && ByWriter(a) && a != Write(true)
    ensures Inv(Apply(s, a))
  {
  }

  lemma LastFrame(frames: seq<Frame>, frame: Frame)
    ensures var longer := frames + [frame];
      longer[..|longer| - 1] == frames && longer[|longer| - 1] == frame
  {
  }

  lemma ResultKeepsFrames(s: State)
    requires FramesOk(s) && (s.writer.WriteError? || (s.writer.WriteComplete? && ContentOk(s) && SavedOk(s)))
    ensures FramesOk(Wrote(s))
  {
    var frame := if s.writer.WriteError? then AiError(s.writer.error) else AiComplete(s.writer.reply);
    LastFrame(s.frames, frame);
    if s.writer.WriteComplete? {
      assert s.content == Concat(s.written) + "" + "" == Concat(s.written);
      assert Terminal(s, frame);
    }
  }

  lemma DoneKeepsFrames(s: State)
    requires FramesOk(s) && s.writer.WriteDone?
    ensures FramesOk(Wrote(s))
  {
    LastFrame(s.frames, Done);
    assert Finishing(s, s.frames);
  }

  lemma TextKeepsFrames(s: State)
    requires FramesOk(s) && (s.writer.Opening? || s.writer.Writing?)
    ensures FramesOk(Wrote(s))
  {
    if s.writer.Opening? {
      assert Body([]) == [UserMessage] && s.frames + [UserMessage] == [UserMessage];
    } else {
      ConcatAppend(s.written, s.writer.chunk);
    }
  }

  lemma WriteKeepsFrames(s: State)
    requires FramesOk(s) && ContentOk(s) && SavedOk(s) && Enabled(s, Write(true))
    ensures FramesOk(Wrote(s))
  {
    if s.writer.Opening? || s.writer.Writing? {
      TextKeepsFrames(s);
    } else if s.writer.WriteDone? {
      DoneKeepsFrames(s);
    } else {
      ResultKeepsFrames(s);
    }
  }

  lemma RelayKeepsChannels(s: State, a: Action)
    requires Inv(s) && Enabled(s, a) && !ByProducer(a) && !ByWriter(a)
    ensures ProducerOk(Apply(s, a)) && RelayOk(Apply(s, a)) && HandshakeOk(Apply(s, a))
  {
  }

  lemma RelayKeepsSaved(s: State, a: Action)
    requires Inv(s) && Enabled(s, a) && !ByProducer(a) && !ByWriter(a)
    ensures SavedOk(Apply(s, a))
  {
  }

  lemma Pieces(a: string, b: string, c: string)
    ensures a + "" + c == a + c + ""
    ensures a + b + "" + c == a + b + c
  {
  }

  lemma RelayKeepsContent(s: State, a: Action)
    requires Inv(s) && Enabled(s, a) && !ByProducer(a) && !ByWriter(a)
    ensures ContentOk(Apply(s, a))
  {
    match a {
      case HandOver =>
        Pieces(Concat(s.written), if s.writer.Writing? then s.writer.chunk else "", s.producer.chunk);
      case Forward => Pieces(Concat(s.written), "", s.relay.chunk);
      case _ =>
    }
  }

  lemma RelayKeepsFrames(s: State, a: Action)
    requires Inv(s) && Enabled(s, a) && !ByProducer(a) && !ByWriter(a)
    ensures FramesOk(Apply(s, a))
  {
    if !a.Forward? && !a.Insert? {
      FramesStable(s, Apply(s, a));
    }
  }

  lemma StepKeepsInv(s: State, a: Action)
    requires Inv(s) && Enabled(s, a)
    ensures Inv(Apply(s, a))
  {
    if ByProducer(a) {
      ProducerKeepsInv(s, a);
    } else if ByWriter(a) {
      WriterKeepsInv(s, a);
    } else {
      RelayKeepsChannels(s, a);
      RelayKeepsSaved(s, a);
      RelayKeepsContent(s, a);
      RelayKeepsFrames(s, a);
    }
  }

  lemma {:induction false} RunKeepsInv(s: State, run: seq<Action>, s': State)
    requires Inv(s) && Run(s, run, s')
    ensures Inv(s')
    decreases |run|
  {
    if run != [] {
      StepKeepsInv(s, run[0]);
      RunKeepsInv(Apply(s, run[0]), run[1..], s');
    }
  }

  lemma ReachableInv(s: State)
    requires Reachable(s)
    ensures Inv(s)
  {
    var lines, run :| Run(Init(lines), run, s);
    RunKeepsInv(Init(lines), run, s);
  }

  // ----- Safety -----

  /** The chunk payloads among some frames, concatenated. */
  function Payload(frames: seq<Frame>): string {
    if frames == [] then "" else
    var last := frames[|frames| - 1];
    Payload(frames[..|frames| - 1]) + (if last.AiChunk? then last.text else "")
  }

  lemma {:induction false} BodyPayload(written: seq<string>)
    ensures Payload(Body(written)) == Concat(written)
  {
    if written == [] {
      assert Body(written) == [UserMessage];
    } else {
      var n := |written| - 1;
      BodyPayload(written[..n]);
      assert Body(written)[..n + 1] == Body(written[..n]);
    }
  }

  /** If `ai_complete` is on the wire, the one stored reply is its content, which
      is the concatenation of the chunk payloads before it, and only [DONE] can
      come after it. */
  lemma CompleteMatchesChunks(s: State, i: nat)
    requires Reachable(s) && i < |s.frames| && s.frames[i].AiComplete?
    ensures s.saved == [s.frames[i].content]
    ensures s.frames[i].content == Payload(s.frames[..i])
    ensures s.frames[i + 1..] <= [Done]
  {
    ReachableInv(s);
    var n := |s.frames|;
    if s.frames != Body(s.written) {
      if s.writer == Returned(false) {
        assert s.frames == s.frames[..n - 1] + [Done];
      }
      FinishingComplete(s, if s.writer == Returned(false) then s.frames[..n - 1] else s.frames, i);
    }
  }

  lemma FinishingComplete(s: State, frames: seq<Frame>, i: nat)
    requires Finishing(s, frames) && frames <= s.frames && s.frames[|frames|..] <= [Done]
    requires i < |s.frames| && s.frames[i].AiComplete?
    ensures s.saved == [s.frames[i].content] && s.frames[i].content == Payload(s.frames[..i])
    ensures s.frames[i + 1..] <= [Done]
  {
    var n := |frames| - 1;
    BodyPayload(s.written);
    assert s.frames[..n] == frames[..n] == Body(s.written);
    assert forall k :: 0 <= k < n ==> s.frames[k] == Body(s.written)[k];
    assert forall k :: n < k < |s.frames| ==> s.frames[k] == s.frames[n + 1..][k - n - 1];
    assert i == n;
  }

  /** A writer whose writes all succeeded has sent the user message, the chunks,
      exactly one of `ai_complete` and `error`, and [DONE]. */
  lemma ReturnedTranscript(s: State)
    requires Reachable(s) && s.writer == Returned(false)
    ensures var n := |s.frames|;
      && n >= 3 && s.frames[0] == UserMessage && s.frames[n - 1] == Done
      && (s.frames[n - 2].AiComplete? || s.frames[n - 2].AiError?)
      && forall i :: 1 <= i < n - 2 ==> s.frames[i].AiChunk?
  {
    ReachableInv(s);
    var n := |s.frames|;
    assert s.frames[..n - 1][..n - 2] == Body(s.written);
    forall i | 1 <= i < n - 2 ensures s.frames[i].AiChunk? {
      assert s.frames[i] == Body(s.written)[i];
    }
    assert s.frames[0] == Body(s.written)[0];
  }

  /** The relay reports at most once, and exactly once by the time it ends. */
  lemma RelayReportsOnce(s: State)
    requires Reachable(s)
    ensures s.sent <= 1 && (s.relay.Ended? ==> s.sent == 1)
  {
    ReachableInv(s);
  }

  // ----- The reply is the upstream text -----

  /** The text of the upstream body: that of all lines before the end marker. */
  function BodyText(lines: seq<Line>): string {
    if lines == [] || lines[0].DoneMarker? then "" else lines[0].text + BodyText(lines[1..])
  }

  predicate Reading(p: Producer) {
    p.Calling? || p.Scanning? || p.Offering? || p.PushUsage?
  }

  /** What a producer that is still reading has not handed over. */
  function Ahead(p: Producer): string
    requires Reading(p)
  {
    match p
    case Calling(lines) => BodyText(lines)
    case Scanning(lines, _) => BodyText(lines)
    case Offering(chunk, lines, _) => chunk + BodyText(lines)
    case PushUsage(_) => ""
  }

  /** Text is neither lost nor reordered, and a part of it is stored only if it is
      all of it: a producer that stopped early has reported an error. */
  predicate TextOk(s: State, whole: string) {
    && s.content <= whole
    && (Reading(s.producer) ==> s.content + Ahead(s.producer) == whole)
    && (Closing(s.producer) && (s.relay.Ranging? || s.relay.Forwarding? || s.relay.ReceiveErr?) ==>
          s.content == whole || s.upErr.buf.Some?)
    && (s.relay.ReceiveUsage? || s.relay.Inserting? || s.saved != [] ==> s.content == whole)
  }

  lemma ScanKeepsText(lines: seq<Line>, usage: nat, content: string)
    ensures Reading(Scanned(lines, usage)) && Ahead(Scanned(lines, usage)) == BodyText(lines)
  {
  }

  lemma HandOverKeepsText(content: string, chunk: string, rest: string)
    ensures (content + chunk) + rest == content + (chunk + rest)
    ensures content <= content + rest && content + "" == content
  {
  }

  lemma ProducerKeepsText(s: State, a: Action, whole: string)
    requires ProducerOk(s) && TextOk(s, whole) && Enabled(s, a) && ByProducer(a)
    ensures TextOk(Apply(s, a), whole)
  {
    if a.Scan? {
      ScanKeepsText(s.producer.lines, s.producer.usage, s.content);
    }
    HandOverKeepsText(s.content, "", "");
  }

  lemma RelayKeepsText(s: State, a: Action, whole: string)
    requires Inv(s) && TextOk(s, whole) && Enabled(s, a) && !ByProducer(a) && !ByWriter(a)
    ensures TextOk(Apply(s, a), whole)
  {
    if a.HandOver? {
      HandOverKeepsText(s.content, s.producer.chunk, BodyText(s.producer.lines));
      HandOverKeepsText(s.content + s.producer.chunk, "", BodyText(s.producer.lines));
    }
  }

  lemma WriterKeepsText(s: State, a: Action, whole: string)
    requires TextOk(s, whole) && Enabled(s, a) && ByWriter(a)
    ensures TextOk(Apply(s, a), whole)
  {
  }

  lemma StepKeepsText(s: State, a: Action, whole: string)
    requires Inv(s) && TextOk(s, whole) && Enabled(s, a)
    ensures TextOk(Apply(s, a), whole)
  {
    if ByProducer(a) {
      ProducerKeepsText(s, a, whole);
    } else if ByWriter(a) {
      WriterKeepsText(s, a, whole);
    } else {
      RelayKeepsText(s, a, whole);
    }
  }

  lemma {:induction false} RunKeepsText(s: State, run: seq<Action>, s': State, whole: string)
    requires Inv(s) && Run(s, run, s') && TextOk(s, whole)
    ensures TextOk(s', whole)
    decreases |run|
  {
    if run != [] {
      StepKeepsInv(s, run[0]);
      StepKeepsText(s, run[0], whole);
      RunKeepsText(Apply(s, run[0]), run[1..], s', whole);
    }
  }

  /** In every run the text gathered is a prefix of the upstream text; a reply that
      is stored, and one that `ai_complete` shows, is the whole of it. */
  lemma ReplyIsBodyText(lines: seq<Line>, run: seq<Action>, s: State)
    requires Run(Init(lines), run, s)
    ensures s.content <= BodyText(lines)
    ensures s.saved == [] || s.saved == [BodyText(lines)]
    ensures forall i :: 0 <= i < |s.frames| && s.frames[i].AiComplete? ==> s.frames[i].content == BodyText(lines)
  {
    RunKeepsInv(Init(lines), run, s);
    RunKeepsText(Init(lines), run, s, BodyText(lines));
    forall i | 0 <= i < |s.frames| && s.frames[i].AiComplete?
      ensures s.frames[i].content == BodyText(lines)
    {
      CompleteMatchesChunks(s, i);
    }
  }

  // ----- What a run without failures delivers -----

  predicate Fails(a: Action) {
    a in {Cancel, Call(false), ScanFails, Insert(false), Touch(false), Write(false)}
  }

  predicate Smooth(run: seq<Action>) {
    forall i :: 0 <= i < |run| ==> !Fails(run[i])
  }

  predicate OnlyEmptyReply(e: Failure, whole: string) {
    e == EmptyReply && whole == ""
  }

  /** Nothing has failed but a reply without text. */
  predicate SmoothOk(s: State, whole: string) {
    && !s.ended && !s.producer.PushErr? && s.upErr.buf.None? && s.writer != Returned(true)
    && (s.relay.SendErr? ==> OnlyEmptyReply(s.relay.error, whole))
    && (s.errCh.buf.Some? ==> OnlyEmptyReply(s.errCh.buf.value, whole))
    && (s.writer.WriteError? ==> OnlyEmptyReply(s.writer.error, whole))
    && (forall i :: 0 <= i < |s.frames| && s.frames[i].AiError? ==> OnlyEmptyReply(s.frames[i].error, whole))
    && (s.relay.Inserting? || s.saved != [] ==> whole != "")
  }

  lemma ProducerStaysSmooth(s: State, a: Action, whole: string)
    requires SmoothOk(s, whole) && Enabled(s, a) && !Fails(a) && ByProducer(a)
    ensures SmoothOk(Apply(s, a), whole)
  {
  }

  lemma WriterStaysSmooth(s: State, a: Action, whole: string)
    requires SmoothOk(s, whole) && Enabled(s, a) && !Fails(a) && ByWriter(a)
    ensures SmoothOk(Apply(s, a), whole)
  {
  }

  lemma RelayStaysSmooth(s: State, a: Action, whole: string)
    requires Inv(s) && TextOk(s, whole) && SmoothOk(s, whole) && Enabled(s, a) && !Fails(a)
    requires !ByProducer(a) && !ByWriter(a)
    ensures SmoothOk(Apply(s, a), whole)
  {
  }

  lemma {:induction false} RunStaysSmooth(s: State, run: seq<Action>, s': State, whole: string)
    requires Inv(s) && TextOk(s, whole) && SmoothOk(s, whole) && Run(s, run, s') && Smooth(run)
    ensures SmoothOk(s', whole)
    decreases |run|
  {
    if run != [] {
      var a := run[0];
      assert !Fails(a);
      StepKeepsInv(s, a);
      StepKeepsText(s, a, whole);
      if ByProducer(a) {
        ProducerStaysSmooth(s, a, whole);
      } else if ByWriter(a) {
        WriterStaysSmooth(s, a, whole);
      } else {
        RelayStaysSmooth(s, a, whole);
      }
      assert Smooth(run[1..]);
      RunStaysSmooth(Apply(s, a), run[1..], s', whole);
    }
  }

  predicate Delivered(s: State, reply: string) {
    |s.frames| >= 3 &&
    var result := s.frames[|s.frames| - 2];
    if reply != "" then s.saved == [reply] && result == AiComplete(reply)
    else s.saved == [] && result == AiError(EmptyReply)
  }

  lemma SmoothEnding(s: State, reply: string)
    requires Reachable(s) && SmoothOk(s, reply) && s.writer == Returned(false)
    requires s.saved == [] || s.saved == [reply]
    ensures Delivered(s, reply)
  {
    ReturnedTranscript(s);
    var i := |s.frames| - 2;
    if s.frames[i].AiComplete? {
      CompleteMatchesChunks(s, i);
    }
  }

  /** When nothing fails and the writer has returned, the whole upstream text was
      stored and shown to the client; if there was none, nothing was stored and the
      client was told so. */
  lemma SmoothRunDelivers(lines: seq<Line>, run: seq<Action>, s: State)
    requires Run(Init(lines), run, s) && Smooth(run) && s.writer.Returned?
    ensures Delivered(s, BodyText(lines))
  {
    RunStaysSmooth(Init(lines), run, s, BodyText(lines));
    ReplyIsBodyText(lines, run, s);
    SmoothEnding(s, BodyText(lines));
  }

  // ----- No process is left stuck -----

  predicate AllDone(s: State) {
    s.producer.Stopped? && s.relay.Ended? && s.writer.Returned?
  }

  lemma ProducerMoves(s: State) returns (a: Action)
    requires ProducerOk(s) && !s.producer.Stopped? && (s.relay.Ranging? || s.ended)
    ensures a != Cancel && Enabled(s, a)
  {
    match s.producer {
      case Calling(_) => a := Call(true);
      case Scanning(_, _) => a := Scan;
      case Offering(_, _, _) => a := if s.ended then ProducerCancelled else HandOver;
      case PushErr(_) => a := ProducerPush;
      case PushUsage(_) => a := ProducerPush;
      case _ => a := ProducerClose;
    }
  }

  lemma RelayMoves(s: State) returns (a: Action)
    requires ProducerOk(s) && RelayOk(s) && !AllDone(s)
    requires s.writer.Draining? || (s.writer.Returned? && s.ended)
    ensures a != Cancel && Enabled(s, a)
  {
    match s.relay {
      case Ranging =>
        if s.producer.Stopped? { a := EndRange; } else { a := ProducerMoves(s); }
      case Forwarding(_) => a := if s.ended then RelayCancelled else Forward;
      case ReceiveErr => a := RelayReceive;
      case ReceiveUsage => a := RelayReceive;
      case Inserting => a := Insert(true);
      case Touching => a := Touch(true);
      case SendErr(_) => a := RelayPush;
      case SendComplete(_) => a := RelayPush;
      case Ended =>
        if s.writer.Draining? { a := EndDrain; } else { a := ProducerMoves(s); }
      case _ => a := RelayClose;
    }
  }

  /** Whenever the relay wants to report, close or receive after the chunks, it can
      at once, and so can the producer when it reports or closes: no send meets a
      full or closed channel, no close a closed one, no deferred receive an empty
      open one. */
  lemma NothingBlocks(s: State)
    requires Reachable(s)
    ensures s.relay.SendErr? || s.relay.SendComplete? ==> Enabled(s, RelayPush)
    ensures s.relay.CloseFailure? || s.relay.CloseComplete? || s.relay.CloseOut? ==> Enabled(s, RelayClose)
    ensures s.relay.ReceiveErr? || s.relay.ReceiveUsage? ==> Enabled(s, RelayReceive)
    ensures s.producer.PushErr? || s.producer.PushUsage? ==> Enabled(s, ProducerPush)
    ensures s.producer.CloseErr? || s.producer.CloseUsage? || s.producer.CloseChunks? ==> Enabled(s, ProducerClose)
    ensures s.writer.AwaitErr? || s.writer.AwaitComplete? ==> Enabled(s, WriterReceive)
  {
    ReachableInv(s);
  }

  /** While the client is still reading, or once the context has ended, some
      process can move until all three are done. */
  lemma Progress(s: State) returns (a: Action)
    requires Reachable(s) && !AllDone(s) && (s.ended || !s.writer.Returned?)
    ensures a != Cancel && Enabled(s, a)
  {
    ReachableInv(s);
    if s.writer.AwaitErr? || s.writer.AwaitComplete? {
      a := WriterReceive;
    } else if s.writer.Draining? || s.writer.Returned? {
      a := RelayMoves(s);
    } else {
      a := Write(true);
    }
  }

  function ProducerLeft(p: Producer): nat {
    match p
    case Calling(lines) => 5 * |lines| + 7
    case Scanning(lines, _) => 5 * |lines| + 6
    case Offering(_, lines, _) => 5 * |lines| + 10
    case PushErr(_) => 5
    case PushUsage(_) => 5
    case CloseErr => 4
    case CloseUsage => 3
    case CloseChunks => 2
    case Stopped => 0
  }

  function RelayLeft(r: Relay): nat {
    match r
    case Ranging => 10
    case Forwarding(_) => 12
    case ReceiveErr => 9
    case ReceiveUsage => 8
    case Inserting => 7
    case Touching => 6
    case SendErr(_) => 5
    case SendComplete(_) => 5
    case CloseFailure => 4
    case CloseComplete => 3
    case CloseOut => 2
    case Ended => 0
  }

  function WriterLeft(w: Writer): nat {
    match w
    case Opening => 8
    case Draining => 6
    case Writing(_) => 7
    case AwaitErr => 5
    case AwaitComplete => 4
    case WriteError(_) => 3
    case WriteComplete(_) => 3
    case WriteDone => 2
    case Returned(_) => 0
  }

  function Left(s: State): nat {
    ProducerLeft(s.producer) + RelayLeft(s.relay) + WriterLeft(s.writer)
  }

  lemma ScanGetsCloser(lines: seq<Line>, usage: nat)
    ensures ProducerLeft(Scanned(lines, usage)) < ProducerLeft(Scanning(lines, usage))
  {
  }

  lemma ProducerGetsCloser(s: State, a: Action)
    requires Enabled(s, a) && ByProducer(a) && a != Cancel
    ensures Left(Apply(s, a)) < Left(s)
  {
    if a.Scan? {
      ScanGetsCloser(s.producer.lines, s.producer.usage);
    }
  }

  lemma WriterGetsCloser(s: State, a: Action)
    requires Enabled(s, a) && ByWriter(a)
    ensures Left(Apply(s, a)) < Left(s)
  {
  }

  lemma RelayGetsCloser(s: State, a: Action)
    requires Enabled(s, a) && !ByProducer(a) && !ByWriter(a)
    ensures Left(Apply(s, a)) < Left(s)
  {
  }

  lemma StepGetsCloser(s: State, a: Action)
    requires Enabled(s, a) && a != Cancel
    ensures Left(Apply(s, a)) < Left(s)
  {
    if ByProducer(a) {
      ProducerGetsCloser(s, a);
    } else if ByWriter(a) {
      WriterGetsCloser(s, a);
    } else {
      RelayGetsCloser(s, a);
    }
  }

  /** Once the context has ended, every run of the three processes is finite, by
      a bound known in advance, and can only stop with all of them finished. */
  lemma {:induction false} EndedRunsFinish(s: State, run: seq<Action>, s': State)
    requires Run(s, run, s') && s.ended && forall i :: 0 <= i < |run| ==> run[i] != Cancel
    ensures s'.ended && |run| + Left(s') <= Left(s)
    ensures Reachable(s) && (forall a :: Enabled(s', a) ==> a == Cancel) ==> AllDone(s')
    decreases |run|
  {
    if run == [] {
      if Reachable(s) && !AllDone(s) {
        var a := Progress(s);
      }
    } else {
      StepGetsCloser(s, run[0]);
      assert !run[0].Cancel?;
      StaysEnded(s, run[0]);
      if Reachable(s) {
        ReachableThen(s, run[0]);
      }
      EndedRunsFinish(Apply(s, run[0]), run[1..], s');
    }
  }

  lemma StaysEnded(s: State, a: Action)
    requires Enabled(s, a) && s.ended
    ensures Apply(s, a).ended
  {
  }

  lemma ReachableThen(s: State, a: Action)
    requires Reachable(s) && Enabled(s, a)
    ensures Reachable(Apply(s, a))
  {
    var lines, before :| Run(Init(lines), before, s);
    RunThen(Init(lines), before, s, a);
  }

  lemma {:induction false} RunThen(s: State, run: seq<Action>, m: State, a: Action)
    requires Run(s, run, m) && Enabled(m, a)
    ensures Run(s, run + [a], Apply(m, a))
    decreases |run|
  {
    if run == [] {
      assert run + [a] == [a] && [a][1..] == [];
    } else {
      RunThen(Apply(s, run[0]), run[1..], m, a);
      assert (run + [a])[1..] == run[1..] + [a];
    }
  }

  // ----- Error frames and stored replies -----

  predicate HasError(frames: seq<Frame>) {
    exists i :: 0 <= i < |frames| && frames[i].AiError?
  }

  /** An error is on its way to the client, or there. */
  predicate Failing(s: State) {
    s.relay.SendErr? || s.errCh.buf.Some? || s.writer.WriteError? || HasError(s.frames)
  }

  /** A success is on its way to the client. */
  predicate Completing(s: State) {
    s.relay.SendComplete? || s.complete.buf.Some? || s.writer.WriteComplete?
  }

  /** `touched` tells whether updating the conversation has failed: then the reply
      is stored and no success comes; otherwise no error goes with a stored reply. */
  predicate TouchOk(s: State, touchFailed: bool) {
    && (HasError(s.frames) ==> s.relay.Ended?)
    && (touchFailed ==> s.saved != [] && (s.relay.SendErr? || Reported(s.relay)) && !Completing(s))
    && (!touchFailed && s.saved != [] ==> !Failing(s))
  }

  lemma HasErrorSnoc(frames: seq<Frame>, frame: Frame)
    ensures HasError(frames + [frame]) <==> HasError(frames) || frame.AiError?
  {
    if HasError(frames) {
      var i :| 0 <= i < |frames| && frames[i].AiError?;
      assert (frames + [frame])[i].AiError?;
    }
    assert (frames + [frame])[|frames|] == frame;
  }

  lemma WriterKeepsTouch(s: State, a: Action, touchFailed: bool)
    requires Inv(s) && TouchOk(s, touchFailed) && Enabled(s, a) && ByWriter(a)
    ensures TouchOk(Apply(s, a), touchFailed)
  {
    if a == Write(true) {
      HasErrorSnoc(s.frames, Wrote(s).frames[|s.frames|]);
    }
  }

  lemma RelayKeepsTouch(s: State, a: Action, touchFailed: bool)
    requires Inv(s) && TouchOk(s, touchFailed) && Enabled(s, a) && !ByProducer(a) && !ByWriter(a)
    ensures TouchOk(Apply(s, a), touchFailed || a == Touch(false))
  {
  }

  lemma ProducerKeepsTouch(s: State, a: Action, touchFailed: bool)
    requires Inv(s) && TouchOk(s, touchFailed) && Enabled(s, a) && ByProducer(a)
    ensures TouchOk(Apply(s, a), touchFailed)
  {
    ProducerKeepsChannels(s, a);
  }

  lemma {:induction false} RunKeepsTouch(s: State, run: seq<Action>, s': State, touchFailed: bool)
    requires Inv(s) && Run(s, run, s') && TouchOk(s, touchFailed)
    ensures TouchOk(s', touchFailed || Touch(false) in run)
    decreases |run|
  {
    if run != [] {
      var a := run[0];
      StepKeepsInv(s, a);
      if ByProducer(a) {
        ProducerKeepsTouch(s, a, touchFailed);
      } else if ByWriter(a) {
        WriterKeepsTouch(s, a, touchFailed);
      } else {
        RelayKeepsTouch(s, a, touchFailed);
      }
      RunKeepsTouch(Apply(s, a), run[1..], s', touchFailed || a == Touch(false));
      assert run == [a] + run[1..];
    }
  }

  /** When the client is told of an error, a reply is stored all the same iff the
      run failed to update the conversation after storing it. */
  lemma ErrorWithStoredReplyIff(lines: seq<Line>, run: seq<Action>, s: State)
    requires Run(Init(lines), run, s) && HasError(s.frames)
    ensures s.saved != [] <==> Touch(false) in run
  {
    RunKeepsTouch(Init(lines), run, s, false);
  }

  /** The state after one more action. */
  lemma Further(lines: seq<Line>, run: seq<Action>, s: State, a: Action) returns (longer: seq<Action>, s': State)
    requires Run(Init(lines), run, s) && Enabled(s, a)
    ensures longer == run + [a] && s' == Apply(s, a) && Run(Init(lines), longer, s')
  {
    longer, s' := run + [a], Apply(s, a);
    RunThen(Init(lines), run, s, a);
  }

  /** One chunk is relayed and written, and the upstream ends. */
  lemma OneChunk(chunk: string) returns (run: seq<Action>, s: State)
    requires chunk != ""
    ensures Run(Init([Data(None, chunk)]), run, s)
    ensures s.relay == Ranging && s.content == chunk && s.writer == Draining && s.saved == []
    ensures s.producer == PushUsage(0) && s.upErr == Chan(None, false) && s.usageCh == Chan(None, false)
    ensures s.errCh == Chan(None, false) && s.complete == Chan(None, false)
    ensures !s.chunksClosed && !s.outClosed && !s.ended
  {
    var lines := [Data(None, chunk)];
    run, s := [], Init(lines);
    run, s := Further(lines, run, s, Write(true));
    run, s := Further(lines, run, s, Call(true));
    run, s := Further(lines, run, s, Scan);
    assert s.producer == Offering(chunk, [], 0);
    run, s := Further(lines, run, s, HandOver);
    assert s.relay == Forwarding(chunk) && s.content == chunk;
    run, s := Further(lines, run, s, Forward);
    run, s := Further(lines, run, s, Write(true));
    run, s := Further(lines, run, s, Scan);
  }

  lemma UpstreamCloses(lines: seq<Line>, before: seq<Action>, m: State) returns (run: seq<Action>, s: State)
    requires Run(Init(lines), before, m)
    requires m.producer == PushUsage(0) && m.upErr == Chan(None, false) && m.usageCh == Chan(None, false)
    requires m.relay == Ranging && m.content != "" && !m.chunksClosed
    ensures Run(Init(lines), run, s) && s.relay == Inserting
    ensures s.content == m.content && s.writer == m.writer && s.saved == m.saved && s.outClosed == m.outClosed
    ensures s.errCh == m.errCh && s.complete == m.complete && s.ended == m.ended
  {
    run, s := Further(lines, before, m, ProducerPush);
    run, s := Further(lines, run, s, ProducerClose);
    run, s := Further(lines, run, s, ProducerClose);
    run, s := Further(lines, run, s, ProducerClose);
    run, s := Further(lines, run, s, EndRange);
    run, s := Further(lines, run, s, RelayReceive);
    run, s := Further(lines, run, s, RelayReceive);
  }

  lemma RelayEnds(lines: seq<Line>, before: seq<Action>, m: State) returns (run: seq<Action>, s: State)
    requires Run(Init(lines), before, m) && m.relay.SendErr?
    requires m.errCh == Chan(None, false) && m.complete == Chan(None, false) && !m.outClosed
    ensures Run(Init(lines), run, s)
    ensures s.errCh.buf == Some(m.relay.error) && s.outClosed
    ensures s.saved == m.saved && s.frames == m.frames && s.writer == m.writer
  {
    run, s := Further(lines, before, m, RelayPush);
    run, s := Further(lines, run, s, RelayClose);
    run, s := Further(lines, run, s, RelayClose);
    run, s := Further(lines, run, s, RelayClose);
  }

  /** The relay reports an error, ends, and the writer passes it on. */
  lemma ErrorIsWritten(lines: seq<Line>, before: seq<Action>, m: State) returns (run: seq<Action>, s: State)
    requires Run(Init(lines), before, m) && m.relay.SendErr? && m.writer == Draining
    requires m.errCh == Chan(None, false) && m.complete == Chan(None, false) && !m.outClosed
    ensures Run(Init(lines), run, s) && s.saved == m.saved && s.frames == m.frames + [AiError(m.relay.error)]
  {
    run, s := RelayEnds(lines, before, m);
    run, s := Further(lines, run, s, EndDrain);
    run, s := Further(lines, run, s, WriterReceive);
    run, s := Further(lines, run, s, Write(true));
  }

  /** For every reply of one chunk: it is stored, updating the conversation fails,
      and the client is told that saving failed. */
  lemma StoredYetFailed(chunk: string) returns (s: State)
    requires chunk != ""
    ensures Reachable(s) && s.saved == [chunk]
    ensures HasError(s.frames) && s.frames[|s.frames| - 1] == AiError(SaveFailed)
  {
    var lines := [Data(None, chunk)];
    var run, m := OneChunk(chunk);
    run, m := UpstreamCloses(lines, run, m);
    run, m := Further(lines, run, m, Insert(true));
    run, m := Further(lines, run, m, Touch(false));
    run, s := ErrorIsWritten(lines, run, m);
    HasErrorSnoc(m.frames, AiError(SaveFailed));
  }
}
