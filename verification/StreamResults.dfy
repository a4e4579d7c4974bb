// What a streaming client sees: the relay from Ollama to the server-sent events is faithful
// in every schedule, and an undisturbed request gets the answer its own input determines.
module StreamResults {
  import opened Basics
  import opened ApiErrors
  import opened Servicers
  import opened Gateway
  import opened Serving
  import opened CallInvariant
  import opened Runs

  lemma ImagesPrefix(model: string, chunks: seq<Chunk>, n: nat, k: nat)
    requires k <= n <= |chunks|
    ensures Images(model, chunks[..n])[..k] == Images(model, chunks[..k])
  {
  }

  lemma WrittenReplies(h: Handler)
    ensures Messages(EventsOf(Written(h))) == Replies(Written(h)) <= Replies(h.received)
  {
    EventsMirror(Written(h));
  }

  // Done is written only after EOF was received.
  lemma DoneMeansEof(c: Call)
    requires EventInv(c) && Done in c.handler.events
    ensures HasTerminal(c.handler.received) && Last(c.handler.received) == Eof
    ensures Written(c.handler) == c.handler.received
  {
    var rs := c.handler.received;
    EventsMirror(Written(c.handler));
    var i :| 0 <= i < |c.handler.events| && c.handler.events[i] == Done;
    assert EventFor(Written(c.handler)[i]) == Done;
    assert rs[i] == Eof;
    assert i == |rs| - 1;
  }

  // The messages of one request, at any time.
  lemma MessagesArePrefix(c: Call)
    requires EventInv(c) && RelayInv(c) && c.input.StreamInput?
    ensures var msgs, chunks := Messages(c.handler.events), Chunks(c.input);
            |msgs| <= |chunks| && msgs == Images(c.input.model, chunks[..|msgs|])
  {
    WrittenReplies(c.handler);
    var msgs := Messages(c.handler.events);
    assert msgs == Yielded(c)[..|msgs|];
    ImagesPrefix(c.input.model, Chunks(c.input), |Yielded(c)|, |msgs|);
  }

  lemma EofIsComplete(c: Call)
    requires RelayInv(c) && TerminalInv(c) && c.input.StreamInput?
    requires HasTerminal(c.handler.received) && Last(c.handler.received) == Eof
    ensures |Replies(c.handler.received)| == |Chunks(c.input)| == c.backend.consumed
    ensures c.input.source == Streams(Chunks(c.input), None) && !IsBlank(PromptOf(c.input))
  {
    assert c.backend.server == Returned(Exhausted);
    assert Yielded(c) == Replies(c.handler.received);
  }

  // In every reachable state the message events of a stream are the images of an in-order,
  // gap-free, duplicate-free prefix of Ollama's chunks. If done was emitted, Ollama's stream
  // had ended without an exception and every chunk was relayed.
  lemma RelayIsFaithful(maxLen: int, s: System, i: nat)
    requires Reachable(maxLen, s) && i < |s.calls| && s.calls[i].input.StreamInput?
    ensures var c := s.calls[i];
            var msgs, chunks := Messages(c.handler.events), Chunks(c.input);
            && |msgs| <= |chunks| && msgs == Images(c.input.model, chunks[..|msgs|])
            && (Done in c.handler.events ==>
                  && |msgs| == |chunks| == c.backend.consumed
                  && c.input.source == Streams(chunks, None) && !IsBlank(PromptOf(c.input)))
  {
    ReachableInv(maxLen, s);
    var c := s.calls[i];
    MessagesArePrefix(c);
    if Done in c.handler.events {
      DoneMeansEof(c);
      EofIsComplete(c);
      WrittenReplies(c.handler);
    }
  }

  // Every message event tells its client all that Ollama's chunk at the same place says: text
  // and counts, with "" and 0 for what is absent, and the model's name.
  lemma MessagesTellChunks(maxLen: int, s: System, i: nat, k: nat)
    requires Reachable(maxLen, s) && i < |s.calls| && s.calls[i].input.StreamInput?
    requires k < |Messages(s.calls[i].handler.events)|
    ensures s.calls[i].input.source.Streams? && k < |s.calls[i].input.source.chunks|
    ensures var c := s.calls[i];
            var m, chunk := Messages(c.handler.events)[k], c.input.source.chunks[k];
            && m.response == (if chunk.response.Some? then chunk.response.value else "")
            && m.modelName == c.input.model
            && m.promptEvalCount == (if chunk.promptEvalCount.Some? then chunk.promptEvalCount.value else 0)
            && m.evalCount == (if chunk.evalCount.Some? then chunk.evalCount.value else 0)
            && m.evalDuration == (if chunk.evalDuration.Some? then chunk.evalDuration.value else 0)
  {
    RelayIsFaithful(maxLen, s, i);
  }

  // The generated text, as the client puts it together and as Ollama produced it.
  function TextOf(replies: seq<Reply>): string {
    if replies == [] then "" else TextOf(Front(replies)) + Last(replies).response
  }

  function GeneratedText(chunks: seq<Chunk>): string {
    if chunks == [] then ""
    else GeneratedText(Front(chunks)) + (if Last(chunks).response.Some? then Last(chunks).response.value else "")
  }

  lemma {:induction false} TextOfImages(model: string, chunks: seq<Chunk>)
    ensures TextOf(Images(model, chunks)) == GeneratedText(chunks)
  {
    if chunks != [] {
      TextOfImages(model, Front(chunks));
      assert Front(Images(model, chunks)) == Images(model, Front(chunks));
    }
  }

  // What the client has read is always a beginning of the generated text, chunk by chunk,
  // and all of it once done was shown.
  lemma TextIsRelayed(maxLen: int, s: System, i: nat)
    requires Reachable(maxLen, s) && i < |s.calls| && s.calls[i].input.StreamInput? && s.calls[i].input.source.Streams?
    ensures var c := s.calls[i];
            var msgs, chunks := Messages(c.handler.events), c.input.source.chunks;
            && |msgs| <= |chunks| && TextOf(msgs) == GeneratedText(chunks[..|msgs|])
            && (Done in c.handler.events ==> TextOf(msgs) == GeneratedText(chunks))
  {
    RelayIsFaithful(maxLen, s, i);
    var c := s.calls[i];
    var n := |Messages(c.handler.events)|;
    TextOfImages(c.input.model, c.input.source.chunks[..n]);
    assert n == |c.input.source.chunks| ==> c.input.source.chunks[..n] == c.input.source.chunks;
  }

  // Events have the shape message* (done | error)?; a finished stream has its terminal event
  // unless the client went away; and events never accompany a JSON response.
  lemma StreamShape(maxLen: int, s: System, i: nat)
    requires Reachable(maxLen, s) && i < |s.calls|
    ensures var h := s.calls[i].handler;
            && WellShaped(h.events)
            && (h.events != [] ==> h.response.None? && s.calls[i].input.StreamInput?)
            && (IsEnding(h.pc) ==>
                  if h.outcome.Opened?
                  then h.response.None? && (s.calls[i].link.gone || (h.events != [] && !Last(h.events).Message?))
                  else h.response.Some? && h.events == [])
  {
    ReachableInv(maxLen, s);
    var c := s.calls[i];
    EventsMirror(Written(c.handler));
    EventsMirror(c.handler.received);
  }

  // ---------------------------------------------------------------------------------------
  // Undisturbed requests
  // ---------------------------------------------------------------------------------------

  // How many chunks can be built before the first that cannot.
  function Buildable(chunks: seq<Chunk>): (n: nat)
    ensures n <= |chunks| && AllFit(chunks[..n]) && (n < |chunks| ==> !Fits(chunks[n]))
  {
    if chunks == [] || !Fits(chunks[0]) then 0
    else
      var n := Buildable(chunks[1..]);
      assert chunks[..n + 1] == [chunks[0]] + chunks[1..][..n];
      n + 1
  }

  function ErrorText(code: Code, text: string): Event {
    ErrorEvent(ApiError(STREAM_ERROR, ErrorString(Status(code, text))))
  }

  // The one STREAM_ERROR for a failure of Ollama.
  function FailureText(e: Failure): Event {
    match e
    case TimeoutException(_) => ErrorText(DeadlineExceeded, "Model backend timed out")
    case OtherTransportError(t) => ErrorText(Unavailable, "Model backend unavailable: " + t)
    case ResponseError(t) => ErrorText(Unavailable, "Model backend unavailable: " + t)
    case OtherException(_) => ErrorText(Internal, "Internal model error")
  }

  // What a stream that nothing disturbs shows its client.
  function ExpectedEvents(input: Input): seq<Event>
    requires input.StreamInput?
  {
    if IsBlank(PromptOf(input)) then [ErrorText(InvalidArgument, "prompt must not be empty")]
    else match input.source
         case RaisesAtOnce(e) => [FailureText(e)]
         case Streams(chunks, ending) =>
           var n := Buildable(chunks);
           MessagesFor(Images(input.model, chunks[..n])) +
           (if n < |chunks| then [ErrorText(Internal, "Internal model error")]
            else if ending.Some? then [FailureText(ending.value)]
            else [Done])
  }

  function MessagesFor(rs: seq<Reply>): seq<Event> {
    seq(|rs|, i requires 0 <= i < |rs| => Message(rs[i]))
  }

  lemma EventsByReplies(rs: seq<Recv>)
    requires HasTerminal(rs) && OneTerminal(rs)
    ensures EventsOf(rs) == MessagesFor(Replies(rs)) + [EventFor(Last(rs))]
  {
    AllMessages(Front(rs));
  }

  lemma {:induction false} AllMessages(rs: seq<Recv>)
    requires forall i :: 0 <= i < |rs| ==> rs[i].Received?
    ensures EventsOf(rs) == MessagesFor(Replies(rs))
  {
    if rs != [] {
      AllMessages(Front(rs));
    }
  }

  lemma BuildableIs(chunks: seq<Chunk>, m: nat)
    requires m <= |chunks| && AllFit(chunks[..m]) && (m < |chunks| ==> !Fits(chunks[m]))
    ensures Buildable(chunks) == m
  {
    var n := Buildable(chunks);
    assert forall k :: 0 <= k < n ==> chunks[..n][k] == chunks[k];
    assert forall k :: 0 <= k < m ==> chunks[..m][k] == chunks[k];
  }

  // An end other than a cut determines how much was yielded.
  lemma GeneratedAll(input: Input, y: seq<Reply>, end: End)
    requires input.StreamInput? && Generated(PromptOf(input), input.model, input.source, y, end) && end != Cut
    ensures MessagesFor(y) + [EventFor(FinalRecv(end))] == ExpectedEvents(input)
  {
    if !IsBlank(PromptOf(input)) && input.source.Streams? {
      BuildableIs(Chunks(input), |y|);
    } else {
      assert MessagesFor([]) == [];
    }
  }

  // What the client of an admitted stream sees that nothing breaks: its own events, or one
  // STREAM_ERROR if the call was rejected.
  function OwnEvents(c: Call): seq<Event>
    requires c.input.StreamInput?
  {
    if c.backend.server == Returned(Rejected) then [ErrorText(ResourceExhausted, OVERLOAD)] else ExpectedEvents(c.input)
  }

  // And of one whose RPC broke: the images of some first chunks and then the error, or, if
  // the client stream could not even be created, a JSON error.
  ghost predicate ShowsBreak(c: Call)
    requires c.input.StreamInput?
  {
    && c.link.broken.Some?
    && var err, chunks := c.link.broken.value, Chunks(c.input);
       if c.handler.outcome.Opened?
       then c.handler.response.None?
            && exists n :: 0 <= n <= |chunks| && c.handler.events
                 == MessagesFor(Images(c.input.model, chunks[..n])) + [EventFor(RecvError(err))]
       else c.handler.response == Answer(CallFailed(err)) && c.handler.events == []
  }

  predicate ShowsOwn(c: Call)
    requires c.input.StreamInput?
  {
    c.handler.response.None? && c.handler.events == OwnEvents(c)
  }

  lemma CompleteCall(maxLen: int, c: Call)
    requires CallInv(maxLen, c) && c.input.StreamInput? && c.handler.pc.Finished? && c.handler.outcome.Opened?
    requires HasTerminal(c.handler.received) && c.backend.server.Returned? && c.backend.channel == []
    requires Last(c.handler.received) == FinalRecv(c.backend.server.end) && c.backend.server.end != Cut
    ensures ShowsOwn(c)
  {
    var rs, end := c.handler.received, c.backend.server.end;
    EventsByReplies(rs);
    assert Yielded(c) == Replies(rs);
    if end == Rejected {
      assert MessagesFor([]) == [];
    } else {
      GeneratedAll(c.input, Yielded(c), end);
    }
  }

  lemma BrokenCall(maxLen: int, c: Call)
    requires CallInv(maxLen, c) && c.input.StreamInput? && c.handler.pc.Finished? && c.handler.outcome.Opened?
    requires HasTerminal(c.handler.received) && c.link.broken.Some?
    requires Last(c.handler.received) == RecvError(c.link.broken.value)
    ensures ShowsBreak(c)
  {
    var rs, chunks := c.handler.received, Chunks(c.input);
    EventsByReplies(rs);
    var n := |Replies(rs)|;
    assert Replies(rs) == Yielded(c)[..n];
    ImagesPrefix(c.input.model, chunks, |Yielded(c)|, n);
  }

  lemma StreamCallAnswer(maxLen: int, c: Call)
    requires CallInv(maxLen, c) && c.input.StreamInput? && c.handler.pc.Finished?
    requires !c.link.gone && Admissible(maxLen, c.input)
    ensures ShowsOwn(c) || ShowsBreak(c)
  {
    var rs := c.handler.received;
    InvalidMeansInadmissible(maxLen, c);
    if !c.handler.outcome.Opened? {
      assert EventsOf([]) == [];
    } else if c.link.broken.Some? && Last(rs) == RecvError(c.link.broken.value) {
      BrokenCall(maxLen, c);
    } else {
      CompleteCall(maxLen, c);
    }
  }

  // In every interleaving a finished stream whose client stayed shows exactly the events its
  // own input determines (every message, then done or the one STREAM_ERROR), or one
  // STREAM_ERROR if it was rejected, or, only if its RPC was broken, a prefix of its own
  // messages and then the error that broke it.
  lemma StreamAnswer(maxLen: int, s: System, i: nat)
    requires Reachable(maxLen, s) && i < |s.calls|
    requires var c := s.calls[i];
             && c.input.StreamInput? && c.handler.pc.Finished? && Admissible(maxLen, c.input) && !c.link.gone
    ensures ShowsOwn(s.calls[i]) || ShowsBreak(s.calls[i])
  {
    ReachableInv(maxLen, s);
    StreamCallAnswer(maxLen, s.calls[i]);
  }

  // In particular a stream that nothing breaks shows its own events, with HTTP status 200.
  lemma UndisturbedStream(maxLen: int, s: System, i: nat)
    requires Reachable(maxLen, s) && i < |s.calls|
    requires var c := s.calls[i];
             && c.input.StreamInput? && c.handler.pc.Finished? && Admissible(maxLen, c.input)
             && c.link.broken.None? && !c.link.gone
    ensures ShowsOwn(s.calls[i]) && HttpStatus(s.calls[i].handler.outcome) == 200
  {
    ReachableInv(maxLen, s);
    StreamAnswer(maxLen, s, i);
    InvalidMeansInadmissible(maxLen, s.calls[i]);
  }

  // The servicer ends as it would alone: a stream relates to its prompt and to Ollama's
  // behaviour as the contract of Servicers.ModelPredictStream says, a unary call ends as
  // those of Servicers.ModelPredict and Servicers.IrisPredict say.
  lemma ServicerAsIfAlone(maxLen: int, s: System, i: nat)
    requires Reachable(maxLen, s) && i < |s.calls|
    requires s.calls[i].backend.server.Returned? && s.calls[i].backend.server.end != Rejected
    ensures var c := s.calls[i];
            if c.input.StreamInput?
            then Generated(PromptOf(c.input), c.input.model, c.input.source, Yielded(c), c.backend.server.end)
                 && (c.backend.server.end == Cut ==> !c.link.active)
            else c.backend.server.end == UnaryEnd(c.input)
  {
    ReachableInv(maxLen, s);
  }
}
