// What every step of a request keeps, whoever makes it: the inductive invariant behind the
// results about runs.
module CallInvariant {
  import opened Basics
  import opened IrisFeatures
  import opened Servicers
  import opened Gateway
  import opened Serving

  predicate IsEnding(pc: Pc) {
    pc.Leaving? || pc.Closing? || pc.Finished?
  }

  predicate HasTerminal(rs: seq<Recv>) {
    rs != [] && !Last(rs).Received?
  }

  // Validation does not depend on the iteration order of the feature map.
  predicate Admissible(maxLen: int, input: Input) {
    match input
    case IrisInput(body, _) => Complete(body) && Acceptable(FeaturesOf(body))
    case ModelInput(body, _, _) => PromptRefusal(maxLen, body).None?
    case StreamInput(body, _, _) => PromptRefusal(maxLen, body).None?
  }

  lemma AdmissibleMeaning(maxLen: int, input: Input, order: seq<Index>)
    requires IsOrder(order)
    ensures Admissible(maxLen, input) <==> Refusal(maxLen, input, order).None?
  {
    if input.IrisInput? && Complete(input.irisBody) {
      TiersAgree(FeaturesOf(input.irisBody), order);
    }
  }

  // Control point, decision and response fit together.
  ghost predicate DecisionInv(maxLen: int, c: Call) {
    var h, server := c.handler, c.backend.server;
    && (h.outcome.Invalid? <==> server.Idle? && !h.pc.Bound?)
    && (server != Idle ==> Admissible(maxLen, c.input))
    && (h.outcome.Invalid? ==>
          exists order :: IsOrder(order) && Refusal(maxLen, c.input, order) == Some(h.outcome.message))
  }

  predicate HandlerInv(c: Call) {
    var h := c.handler;
    && (h.pc.Bound? || h.pc.Calling? <==> h.outcome.Undecided?)
    && (h.pc.Bound? ==> c.backend.server.Idle?)
    && (h.pc.Refused? ==> h.outcome.Invalid?)
    && (h.pc.Called? || h.pc.Recorded? ==> !h.outcome.Invalid?)
    && (h.pc.Accounted? ==> HoldsReply(h.outcome))
    && (h.pc.Streaming? || h.pc.Holding? || h.pc.Charged? ==> h.outcome.Opened?)
    && (h.outcome.Opened? ==> c.input.StreamInput?)
    && (h.outcome.Replied? ==> !c.input.StreamInput?)
    && h.response == (if IsEnding(h.pc) then Answer(h.outcome) else None)
    && (c.link.cancelled ==> h.pc.Closing? || h.pc.Finished?)
  }

  // The events written so far are the images of what was received.
  predicate EventInv(c: Call) {
    var h := c.handler;
    && (h.received != [] ==> h.outcome.Opened? && !h.pc.Called? && !h.pc.Recorded? && !h.pc.Counted?)
    && (h.pc.Holding? || h.pc.Charged? ==> h.received != [])
    && (h.pc.Charged? || h.pc.Streaming? ==> !HasTerminal(h.received))
    && OneTerminal(h.received)
    && h.events == EventsOf(Written(h))
    && (IsEnding(h.pc) && h.outcome.Opened? && !HasTerminal(h.received) ==> c.link.gone)
  }

  // The results whose event has been written.
  function Written(h: Handler): seq<Recv> {
    if (h.pc.Holding? || h.pc.Charged?) && h.received != [] then Front(h.received) else h.received
  }

  predicate LinkInv(c: Call) {
    && (!c.link.active || c.backend.server.Lost? ==> c.link.broken.Some? || c.link.cancelled)
    && (c.backend.server == Ended(Cut) || c.backend.server == Returned(Cut) ==> !c.link.active)
    // a client stream that could not be created
    && (c.input.StreamInput? && c.handler.outcome.CallFailed? ==> c.link.broken == Some(c.handler.outcome.err))
  }

  // A unary servicer.
  predicate UnaryInv(c: Call) {
    var h, b := c.handler, c.backend;
    !c.input.StreamInput? ==>
      && !b.server.Loop? && !b.server.Got? && !b.server.Checked?
      && b.channel == [] && b.consumed == 0
      && (b.server.Ended? ==> b.server.end == UnaryEnd(c.input))
      && (b.server.Returned? ==> b.server.end == UnaryEnd(c.input) || b.server.end == Rejected)
      && (h.outcome.Replied? ==> b.server == Returned(Answered(h.outcome.payload)))
      && (h.outcome.CallFailed? ==>
            c.link.broken == Some(h.outcome.err) || (b.server.Returned? && OutcomeOf(b.server.end) == h.outcome))
  }

  // Everything the generator has yielded.
  function Yielded(c: Call): seq<Reply> {
    Replies(c.handler.received) + c.backend.channel
  }

  // The generator and the channel relay Ollama's chunks in order, without gaps.
  ghost predicate RelayInv(c: Call) {
    c.input.StreamInput? ==> Relayed(c.input, c.backend, Yielded(c))
  }

  ghost predicate Relayed(input: Input, b: Backend, y: seq<Reply>)
    requires input.StreamInput?
  {
    var chunks := Chunks(input);
    && |y| <= |chunks| && b.consumed <= |chunks|
    && y == Images(input.model, chunks[..|y|]) && AllFit(chunks[..|y|])
    && (match b.server
        case Loop => b.consumed == |y| && IsGenerating(input)
        case Got => b.consumed == |y| + 1 && IsGenerating(input)
        case Checked => b.consumed == |y| + 1 && IsGenerating(input)
        case Ended(end) => GeneratorEnded(input, b, y, end)
        case Returned(end) => if end == Rejected then b.consumed == 0 && y == [] else GeneratorEnded(input, b, y, end)
        case _ => b.consumed == 0 && y == [])
  }

  predicate IsGenerating(input: Input)
    requires input.StreamInput?
  {
    !IsBlank(PromptOf(input)) && input.source.Streams?
  }

  ghost predicate GeneratorEnded(input: Input, b: Backend, y: seq<Reply>, end: End)
    requires input.StreamInput?
  {
    && |y| <= b.consumed <= |y| + 1
    && Generated(PromptOf(input), input.model, input.source, y, end)
  }

  // What a terminal result of Recv says about the server.
  predicate TerminalInv(c: Call) {
    var rs, b := c.handler.received, c.backend;
    HasTerminal(rs) ==>
      match Last(rs)
      case Eof => b.server == Returned(Exhausted) && b.channel == []
      case RecvError(err) =>
        c.link.broken == Some(err) || (b.server.Returned? && b.channel == [] && Last(rs) == FinalRecv(b.server.end))
      case _ => true
  }

  ghost predicate CallInv(maxLen: int, c: Call) {
    && DecisionInv(maxLen, c) && HandlerInv(c) && EventInv(c) && LinkInv(c)
    && UnaryInv(c) && RelayInv(c) && TerminalInv(c)
  }

  lemma InvalidMeansInadmissible(maxLen: int, c: Call)
    requires DecisionInv(maxLen, c)
    ensures c.handler.outcome.Invalid? ==> !Admissible(maxLen, c.input)
  {
    if c.handler.outcome.Invalid? {
      var order :| IsOrder(order) && Refusal(maxLen, c.input, order) == Some(c.handler.outcome.message);
      AdmissibleMeaning(maxLen, c.input, order);
    }
  }

  lemma NewCallInv(maxLen: int, input: Input)
    ensures CallInv(maxLen, NewCall(input))
  {
  }

  // ---------------------------------------------------------------------------------------
  // Steps of the handler
  // ---------------------------------------------------------------------------------------

  lemma DecisionStep(maxLen: int, c: Call, g: HandlerStep)
    requires DecisionInv(maxLen, c) && HandlerInv(c) && CanHandle(c, g)
    ensures DecisionInv(maxLen, AfterHandler(maxLen, c, g))
  {
    if g.Validate? {
      AdmissibleMeaning(maxLen, c.input, g.order);
    }
  }

  lemma HandlerStepKeeps(maxLen: int, c: Call, g: HandlerStep)
    requires HandlerInv(c) && UnaryInv(c) && CanHandle(c, g)
    ensures HandlerInv(AfterHandler(maxLen, c, g))
  {
  }

  lemma ReceiveKeepsEvents(maxLen: int, c: Call, fail: bool)
    requires HandlerInv(c) && EventInv(c) && CanHandle(c, Receive(fail))
    ensures EventInv(AfterHandler(maxLen, c, Receive(fail)))
  {
    var rs, r := c.handler.received, RecvResult(c, fail);
    FrontSnoc(rs, r);
    OneTerminalSnoc(rs, r);
    var h := AfterHandler(maxLen, c, Receive(fail)).handler;
    assert h == c.handler.(pc := Holding, received := rs + [r]);
    assert Written(h) == rs == Written(c.handler);
  }

  lemma OneTerminalSnoc(rs: seq<Recv>, r: Recv)
    requires OneTerminal(rs) && !HasTerminal(rs)
    ensures OneTerminal(rs + [r])
  {
  }

  lemma EmitKeepsEvents(maxLen: int, c: Call)
    requires HandlerInv(c) && EventInv(c) && CanHandle(c, Emit)
    ensures EventInv(AfterHandler(maxLen, c, Emit))
  {
    var rs := c.handler.received;
    assert EventsOf(rs) == EventsOf(Front(rs)) + [EventFor(Last(rs))];
  }

  lemma EventStep(maxLen: int, c: Call, g: HandlerStep)
    requires HandlerInv(c) && EventInv(c) && CanHandle(c, g)
    ensures EventInv(AfterHandler(maxLen, c, g))
  {
    if g.Receive? {
      ReceiveKeepsEvents(maxLen, c, g.fail);
    } else if g.Emit? {
      EmitKeepsEvents(maxLen, c);
    } else {
      assert Handled(maxLen, c, g).received == c.handler.received;
    }
  }

  lemma LinkStepOfHandler(maxLen: int, c: Call, g: HandlerStep)
    requires LinkInv(c) && HandlerInv(c) && CanHandle(c, g)
    ensures LinkInv(AfterHandler(maxLen, c, g))
  {
  }

  lemma UnaryStepOfHandler(maxLen: int, c: Call, g: HandlerStep)
    requires UnaryInv(c) && HandlerInv(c) && CanHandle(c, g)
    ensures UnaryInv(AfterHandler(maxLen, c, g))
  {
  }

  // A message moves from the channel to the received results.
  lemma YieldedKept(maxLen: int, c: Call, g: HandlerStep)
    requires CanHandle(c, g)
    ensures Yielded(AfterHandler(maxLen, c, g)) == Yielded(c)
  {
    if g.Receive? {
      FrontSnoc(c.handler.received, RecvResult(c, g.fail));
    }
  }

  lemma RelayStepOfHandler(maxLen: int, c: Call, g: HandlerStep)
    requires RelayInv(c) && HandlerInv(c) && CanHandle(c, g)
    ensures RelayInv(AfterHandler(maxLen, c, g))
  {
    YieldedKept(maxLen, c, g);
  }

  // EOF without a broken or cancelled RPC means that everything was sent.
  lemma EofMeansExhausted(c: Call)
    requires c.input.StreamInput? && RelayInv(c) && LinkInv(c)
    requires c.backend.server.Returned? && c.link.broken.None? && !c.link.cancelled
    ensures FinalRecv(c.backend.server.end) == Eof ==> c.backend.server.end == Exhausted
  {
  }

  lemma ReceiveKeepsTerminal(maxLen: int, c: Call, fail: bool)
    requires EventInv(c) && HandlerInv(c) && LinkInv(c) && RelayInv(c) && CanHandle(c, Receive(fail))
    ensures TerminalInv(AfterHandler(maxLen, c, Receive(fail)))
  {
    var c', r := AfterHandler(maxLen, c, Receive(fail)), RecvResult(c, fail);
    FrontSnoc(c.handler.received, r);
    assert c'.handler.received == c.handler.received + [r] && c'.link == c.link;
    assert c'.backend.server == c.backend.server;
    if !fail && c.backend.channel == [] {
      EofMeansExhausted(c);
    }
  }

  lemma TerminalStepOfHandler(maxLen: int, c: Call, g: HandlerStep)
    requires TerminalInv(c) && EventInv(c) && HandlerInv(c) && LinkInv(c) && RelayInv(c) && CanHandle(c, g)
    ensures TerminalInv(AfterHandler(maxLen, c, g))
  {
    if g.Receive? {
      ReceiveKeepsTerminal(maxLen, c, g.fail);
    } else {
      assert Handled(maxLen, c, g).received == c.handler.received;
    }
  }

  // ---------------------------------------------------------------------------------------
  // Steps of the server and of the environment
  // ---------------------------------------------------------------------------------------

  lemma DecisionStepOfServer(maxLen: int, c: Call, s: ServerStep)
    requires DecisionInv(maxLen, c) && CanServe(c, s)
    ensures DecisionInv(maxLen, c.(backend := Served(c, s)))
  {
    assert !c.backend.server.Idle? && !Served(c, s).server.Idle?;
  }

  lemma HandlerStepOfServer(c: Call, s: ServerStep)
    requires HandlerInv(c) && EventInv(c) && CanServe(c, s)
    ensures HandlerInv(c.(backend := Served(c, s))) && EventInv(c.(backend := Served(c, s)))
  {
    assert !c.backend.server.Idle?;
  }

  lemma LinkStepOfServer(c: Call, s: ServerStep)
    requires LinkInv(c) && TerminalInv(c) && CanServe(c, s)
    ensures LinkInv(c.(backend := Served(c, s))) && TerminalInv(c.(backend := Served(c, s)))
  {
    assert !c.backend.server.Returned?;
  }

  lemma UnaryStepOfServer(c: Call, s: ServerStep)
    requires UnaryInv(c) && CanServe(c, s)
    ensures UnaryInv(c.(backend := Served(c, s)))
  {
  }

  lemma YieldKeepsRelay(c: Call)
    requires RelayInv(c) && CanServe(c, Yield)
    ensures RelayInv(c.(backend := Served(c, Yield)))
  {
    var n := c.backend.consumed - 1;
    if Fits(Chunks(c.input)[n]) {
      ImagesSnoc(c.input.model, Chunks(c.input), n);
      assert Chunks(c.input)[..n + 1] == Chunks(c.input)[..n] + [Chunks(c.input)[n]];
      assert Yielded(c.(backend := Served(c, Yield))) == Yielded(c) + [Image(c.input.model, Chunks(c.input)[n])];
    }
  }

  lemma RelayStepOfServer(c: Call, s: ServerStep)
    requires RelayInv(c) && LinkInv(c) && CanServe(c, s)
    ensures RelayInv(c.(backend := Served(c, s)))
  {
    if s.Yield? {
      YieldKeepsRelay(c);
    } else {
      assert Yielded(c.(backend := Served(c, s))) == Yielded(c);
    }
  }

  lemma LinkStepKeeps(maxLen: int, c: Call, e: LinkStep)
    requires CallInv(maxLen, c) && CanHappen(c, e)
    ensures CallInv(maxLen, c.(link := Happened(c.link, e)))
  {
  }

  lemma StepInv(maxLen: int, c: Call, l: Local)
    requires CallInv(maxLen, c) && Can(c, l)
    ensures CallInv(maxLen, Step(maxLen, c, l))
  {
    match l {
      case OfHandler(g) =>
        DecisionStep(maxLen, c, g);
        HandlerStepKeeps(maxLen, c, g);
        EventStep(maxLen, c, g);
        LinkStepOfHandler(maxLen, c, g);
        UnaryStepOfHandler(maxLen, c, g);
        RelayStepOfHandler(maxLen, c, g);
        TerminalStepOfHandler(maxLen, c, g);
      case OfServer(s) =>
        DecisionStepOfServer(maxLen, c, s);
        HandlerStepOfServer(c, s);
        LinkStepOfServer(c, s);
        UnaryStepOfServer(c, s);
        RelayStepOfServer(c, s);
      case OfEnvironment(e) =>
        LinkStepKeeps(maxLen, c, e);
    }
  }
}
