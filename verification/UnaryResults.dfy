// The answers of the unary routes, and of refused and rejected requests, in every schedule.
module UnaryResults {
  import opened Basics
  import opened ApiErrors
  import opened IrisFeatures
  import opened Servicers
  import opened Gateway
  import opened Serving
  import opened CallInvariant
  import opened Runs

  // A request that validation refuses gets the 400 answer for one of the admissible
  // iteration orders and never starts an RPC; any other request does start one.
  lemma RefusedRequest(maxLen: int, s: System, i: nat)
    requires Reachable(maxLen, s) && i < |s.calls| && IsEnding(s.calls[i].handler.pc)
    ensures var c := s.calls[i];
            if Admissible(maxLen, c.input) then c.backend.server != Idle
            else
              && c.backend.server == Idle && c.handler.events == []
              && exists order, message ::
                   && IsOrder(order) && Refusal(maxLen, c.input, order) == Some(message)
                   && c.handler.response == Some(Json(400, ErrorBody(ApiError(INVALID_ARGUMENT, message))))
  {
    ReachableInv(maxLen, s);
    InvalidMeansInadmissible(maxLen, s.calls[i]);
    EventsMirror(Written(s.calls[i].handler));
  }

  function ErrorResponse(status: int, code: string, message: string): Option<Response> {
    Some(Json(status, ErrorBody(ApiError(code, message))))
  }

  // The end-to-end table of POST /predict/model: how every prompt and every behaviour of
  // Ollama comes back to the client.
  function ExpectedModelResponse(prompt: seq<Utf8.Scalar>, model: string, g: Generation): Option<Response> {
    if IsBlank(prompt) then ErrorResponse(400, INVALID_ARGUMENT, "prompt must not be empty")
    else match g
         case GenerateRaises(TimeoutException(_)) => ErrorResponse(504, MODEL_TIMEOUT, "Model backend timed out")
         case GenerateRaises(OtherTransportError(t)) =>
           ErrorResponse(503, BACKEND_UNAVAILABLE, "Model backend unavailable: " + t)
         case GenerateRaises(ResponseError(t)) =>
           ErrorResponse(503, BACKEND_UNAVAILABLE, "Model backend unavailable: " + t)
         case GenerateRaises(OtherException(_)) => ErrorResponse(500, INTERNAL_ERROR, "Internal model error")
         case Generates(answer, misfit) =>
           if Fits(answer) then Some(Json(200, PayloadBody(ModelReply(Image(model, answer)))))
           else ErrorResponse(500, INTERNAL_ERROR, RAISED + misfit)
  }

  function ExpectedIrisResponse(body: IrisBody, c: Classifier): Option<Response>
    requires Complete(body)
  {
    match c([body.sepalLength.value, body.sepalWidth.value, body.petalLength.value, body.petalWidth.value])
    case Classifies(iris) => Some(Json(200, PayloadBody(IrisReply(iris))))
    case PredictionRaises => ErrorResponse(500, INTERNAL_ERROR, "Iris prediction failed")
    case ResponseRaises(text) => ErrorResponse(500, INTERNAL_ERROR, RAISED + text)
  }

  function ExpectedResponse(input: Input): Option<Response>
    requires !input.StreamInput?
  {
    match input
    case IrisInput(body, classifier) => if Complete(body) then ExpectedIrisResponse(body, classifier) else None
    case ModelInput(body, model, g) => if body.Prompt? then ExpectedModelResponse(body.text, model, g) else None
  }

  lemma ExpectedIsAnswer(maxLen: int, input: Input)
    requires !input.StreamInput? && Admissible(maxLen, input)
    ensures Answer(OutcomeOf(UnaryEnd(input))) == ExpectedResponse(input)
  {
    if input.IrisInput? {
      var f := FeaturesOf(input.irisBody);
      assert forall n: Index :: !ServicerRejects(Value(f, n));
      AcceptableEnd(f, input.classifier, 0);
    }
  }

  lemma {:induction false} AcceptableEnd(f: Features, c: Classifier, n: nat)
    requires n <= 4 && Acceptable(f)
    ensures IrisEndFrom(f, c, n) == IrisEndFrom(f, c, 4)
    decreases 4 - n
  {
    if n < 4 {
      AcceptableEnd(f, c, n + 1);
    }
  }

  lemma UnaryCallAnswer(maxLen: int, c: Call)
    requires CallInv(maxLen, c) && !c.input.StreamInput? && IsEnding(c.handler.pc) && Admissible(maxLen, c.input)
    ensures var own := if c.backend.server == Returned(Rejected) then ErrorResponse(500, INTERNAL_ERROR, OVERLOAD)
                       else ExpectedResponse(c.input);
            || c.handler.response == own
            || (c.link.broken.Some? && c.handler.response == Answer(CallFailed(c.link.broken.value)))
  {
    InvalidMeansInadmissible(maxLen, c);
    ExpectedIsAnswer(maxLen, c.input);
  }

  // In every interleaving with other requests an admissible unary request is answered with
  // exactly the response its own input determines, or 500 INTERNAL_ERROR if it was rejected
  // for overload, or, only if its RPC was broken, the translation of that error.
  lemma UnaryAnswer(maxLen: int, s: System, i: nat)
    requires Reachable(maxLen, s) && i < |s.calls|
    requires var c := s.calls[i]; !c.input.StreamInput? && IsEnding(c.handler.pc) && Admissible(maxLen, c.input)
    ensures var c := s.calls[i];
            var own := if c.backend.server == Returned(Rejected) then ErrorResponse(500, INTERNAL_ERROR, OVERLOAD)
                       else ExpectedResponse(c.input);
            || c.handler.response == own
            || (c.link.broken.Some? && c.handler.response == Answer(CallFailed(c.link.broken.value)))
  {
    ReachableInv(maxLen, s);
    UnaryCallAnswer(maxLen, s.calls[i]);
  }

  // A 200 is always the caller's own result, whatever was broken on the way.
  lemma SuccessIsOwn(maxLen: int, s: System, i: nat)
    requires Reachable(maxLen, s) && i < |s.calls| && !s.calls[i].input.StreamInput?
    requires var r := s.calls[i].handler.response; r.Some? && r.value.status == 200
    ensures Admissible(maxLen, s.calls[i].input)
    ensures s.calls[i].handler.response == ExpectedResponse(s.calls[i].input)
    ensures s.calls[i].backend.server.Returned? && s.calls[i].backend.server.end.Answered?
  {
    ReachableInv(maxLen, s);
    var c := s.calls[i];
    assert c.handler.outcome.Replied?;
    ExpectedIsAnswer(maxLen, c.input);
  }

  // A 200 of the model route tells all that Ollama's answer says.
  lemma ReplyTellsAnswer(maxLen: int, s: System, i: nat)
    requires Reachable(maxLen, s) && i < |s.calls| && s.calls[i].input.ModelInput?
    requires var r := s.calls[i].handler.response; r.Some? && r.value.status == 200
    ensures var c := s.calls[i];
            && c.input.generation.Generates?
            && c.handler.response.value.body.PayloadBody? && c.handler.response.value.body.payload.ModelReply?
            && var m, answer := c.handler.response.value.body.payload.reply, c.input.generation.answer;
               && m.response == (if answer.response.Some? then answer.response.value else "")
               && m.modelName == c.input.model
               && m.promptEvalCount == (if answer.promptEvalCount.Some? then answer.promptEvalCount.value else 0)
               && m.evalCount == (if answer.evalCount.Some? then answer.evalCount.value else 0)
               && m.evalDuration == (if answer.evalDuration.Some? then answer.evalDuration.value else 0)
  {
    SuccessIsOwn(maxLen, s, i);
  }

  // The two-tier check end to end: an iris request that the gateway accepted is never
  // answered INVALID_ARGUMENT by the servicer.
  lemma AcceptedIrisNeverInvalid(maxLen: int, s: System, i: nat)
    requires Reachable(maxLen, s) && i < |s.calls| && s.calls[i].input.IrisInput?
    requires s.calls[i].backend.server.Ended? || s.calls[i].backend.server.Returned?
    ensures StatusOf(s.calls[i].backend.server.end).0 != InvalidArgument
  {
    ReachableInv(maxLen, s);
    var c := s.calls[i];
    EndWithinRange(FeaturesOf(c.input.irisBody), c.input.classifier, 0);
  }
}
