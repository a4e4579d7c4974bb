// The gRPC servicers of python-ai: ollama_predictor.py and iris_predictor.py. Ollama and the
// classifier are oracles whose behaviour during one call is an argument.
module Servicers {
  import opened Basics
  import opened ApiErrors
  import opened IrisFeatures
  import Utf8

  // ---------------------------------------------------------------------------------------
  // Messages
  // ---------------------------------------------------------------------------------------

  // A chunk (or the whole answer) of Ollama; counts may be absent.
  datatype Chunk = Chunk(response: Option<string>, promptEvalCount: Option<int>,
                         evalCount: Option<int>, evalDuration: Option<int>)

  // ModelPredictResponse.
  datatype Reply = Reply(response: string, modelName: string, promptEvalCount: int, evalCount: int, evalDuration: int)

  datatype IrisClass = IrisClass(classId: int, className: string)

  datatype Payload = ModelReply(reply: Reply) | IrisReply(iris: IrisClass)

  const NO_REPLY := Reply("", "", 0, 0, 0)
  const NO_CLASS := IrisClass(0, "")

  // Python's `x or default`.
  function Or<T>(x: Option<T>, default: T): T {
    match x
    case None => default
    case Some(v) => v
  }

  // The message built for a chunk: absent counts become 0.
  function Image(model: string, c: Chunk): Reply {
    Reply(Or(c.response, ""), model, Or(c.promptEvalCount, 0), Or(c.evalCount, 0), Or(c.evalDuration, 0))
  }

  // What a message says of a chunk.
  predicate Tells(r: Reply, model: string, c: Chunk) {
    && r.modelName == model
    && r.response == (if c.response.Some? then c.response.value else "")
    && r.promptEvalCount == (if c.promptEvalCount.Some? then c.promptEvalCount.value else 0)
    && r.evalCount == (if c.evalCount.Some? then c.evalCount.value else 0)
    && r.evalDuration == (if c.evalDuration.Some? then c.evalDuration.value else 0)
  }

  function Images(model: string, chunks: seq<Chunk>): seq<Reply> {
    seq(|chunks|, i requires 0 <= i < |chunks| => Image(model, chunks[i]))
  }

  // The message type has int32 counts and an int64 duration; other values raise.
  predicate Fits(c: Chunk) {
    && -0x8000_0000 <= Or(c.promptEvalCount, 0) < 0x8000_0000
    && -0x8000_0000 <= Or(c.evalCount, 0) < 0x8000_0000
    && -0x8000_0000_0000_0000 <= Or(c.evalDuration, 0) < 0x8000_0000_0000_0000
  }

  // The two's complement reading of the low bits of x, for a word of 2 * half values.
  function Signed(x: int, half: int): int
    requires half > 0
  {
    if x % (2 * half) < half then x % (2 * half) else x % (2 * half) - 2 * half
  }

  lemma SignedKeeps(x: int)
    ensures Signed(x, 2147483648) == x <==> -0x8000_0000 <= x < 0x8000_0000
    ensures Signed(x, 9223372036854775808) == x <==> -0x8000_0000_0000_0000 <= x < 0x8000_0000_0000_0000
  {
  }

  // A chunk fits exactly when its counts survive 32 bits and its duration 64.
  lemma FitsIsRoundTrip(c: Chunk)
    ensures Fits(c) <==>
              && (c.promptEvalCount.Some? ==> Signed(c.promptEvalCount.value, 2147483648) == c.promptEvalCount.value)
              && (c.evalCount.Some? ==> Signed(c.evalCount.value, 2147483648) == c.evalCount.value)
              && (c.evalDuration.Some? ==> Signed(c.evalDuration.value, 9223372036854775808) == c.evalDuration.value)
  {
    SignedKeeps(Or(c.promptEvalCount, 0));
    SignedKeeps(Or(c.evalCount, 0));
    SignedKeeps(Or(c.evalDuration, 0));
  }

  // ---------------------------------------------------------------------------------------
  // Failures
  // ---------------------------------------------------------------------------------------

  // Exceptions of the Ollama client; httpx.TimeoutException is a subclass of
  // httpx.TransportError.
  datatype Failure = TimeoutException(text: string) | OtherTransportError(text: string)
                   | ResponseError(text: string) | OtherException(text: string)

  predicate IsTransportError(e: Failure) {
    e.TimeoutException? || e.OtherTransportError?
  }

  // How a servicer call ends.
  //   Failed    an error status was set on the context
  //   Raised    an exception left the servicer; the framework answers UNKNOWN and appends
  //             the text of the exception to its details
  //   Answered  a unary response with status OK
  //   Exhausted a stream that relayed everything
  //   Cut       a stream abandoned because its context was inactive
  //   Rejected  the call was over the limit and never reached the servicer
  datatype End = Failed(code: Code, details: string) | Raised(text: string) | Answered(payload: Payload)
               | Exhausted | Cut | Rejected

  const RAISED := "Exception calling application: "
  const OVERLOAD := "Concurrent RPC limit exceeded!"

  // The status that the framework sends for each end.
  function StatusOf(end: End): (Code, string) {
    match end
    case Failed(code, details) => (code, details)
    case Raised(text) => (Unknown, RAISED + text)
    case Rejected => (ResourceExhausted, OVERLOAD)
    case _ => (OK, "")
  }

  function OllamaError(e: Failure): End {
    if e.TimeoutException? then Failed(DeadlineExceeded, "Model backend timed out")
    else if IsTransportError(e) || e.ResponseError? then Failed(Unavailable, "Model backend unavailable: " + e.text)
    else Failed(Internal, "Internal model error")
  }

  const EMPTY_PROMPT := Failed(InvalidArgument, "prompt must not be empty")

  // The statuses on the wire.
  lemma StatusTable(text: string)
    ensures StatusOf(Rejected) == (ResourceExhausted, "Concurrent RPC limit exceeded!")
    ensures StatusOf(Raised(text)) == (Unknown, "Exception calling application: " + text)
    ensures StatusOf(OllamaError(TimeoutException(text))) == (DeadlineExceeded, "Model backend timed out")
    ensures StatusOf(OllamaError(OtherTransportError(text))) == (Unavailable, "Model backend unavailable: " + text)
    ensures StatusOf(OllamaError(ResponseError(text))) == (Unavailable, "Model backend unavailable: " + text)
    ensures StatusOf(OllamaError(OtherException(text))) == (Internal, "Internal model error")
    ensures StatusOf(OutOfRange(0)) == (InvalidArgument, "sepal_length" + " must be a finite number between 0 and 50")
    ensures StatusOf(OutOfRange(1)) == (InvalidArgument, "sepal_width" + " must be a finite number between 0 and 50")
    ensures StatusOf(OutOfRange(2)) == (InvalidArgument, "petal_length" + " must be a finite number between 0 and 50")
    ensures StatusOf(OutOfRange(3)) == (InvalidArgument, "petal_width" + " must be a finite number between 0 and 50")
    ensures StatusOf(Exhausted) == StatusOf(Cut) == (OK, "")
  {
  }

  // Characters that str.strip removes.
  predicate IsSpace(c: Utf8.Scalar) {
    || 0x09 <= c <= 0x0D || 0x1C <= c <= 0x20 || c == 0x85 || c == 0xA0 || c == 0x1680
    || 0x2000 <= c <= 0x200A || c in {0x2028, 0x2029, 0x202F, 0x205F, 0x3000}
  }

  // str.strip
  function Strip(s: seq<Utf8.Scalar>): seq<Utf8.Scalar> {
    if s == [] then []
    else if IsSpace(s[0]) then Strip(s[1..])
    else if IsSpace(s[|s| - 1]) then Strip(s[..|s| - 1])
    else s
  }

  // not prompt.strip()
  predicate IsBlank(prompt: seq<Utf8.Scalar>) {
    Strip(prompt) == []
  }

  // Any other character anywhere makes a prompt acceptable, also in the midst of white space.
  lemma {:induction false} BlankMeaning(prompt: seq<Utf8.Scalar>)
    ensures IsBlank(prompt) <==> forall c :: c in prompt ==> IsSpace(c)
    decreases |prompt|
  {
    if prompt == [] {
    } else if IsSpace(prompt[0]) {
      BlankMeaning(prompt[1..]);
      assert prompt == [prompt[0]] + prompt[1..];
    } else {
      assert prompt[0] in prompt;
      if IsSpace(prompt[|prompt| - 1]) {
        BlankMeaning(prompt[..|prompt| - 1]);
        assert prompt[0] == prompt[..|prompt| - 1][0];
      }
    }
  }

  // The white space of Python, one by one.
  lemma SpaceTable(c: Utf8.Scalar)
    ensures IsSpace(c) <==> c in {
              9, 10, 11, 12, 13, 28, 29, 30, 31, 32, 133, 160, 5760, 8192, 8193, 8194, 8195, 8196, 8197, 8198,
              8199, 8200, 8201, 8202, 8232, 8233, 8239, 8287, 12288}
  {
  }

  // ---------------------------------------------------------------------------------------
  // The servicer context
  // ---------------------------------------------------------------------------------------

  class ServicerContext {
    var code: Code
    var details: string

    constructor ()
      ensures code == OK && details == ""
    {
      code, details := OK, "";
    }

    method Set(code: Code, details: string)
      modifies this
      ensures this.code == code && this.details == details
    {
      this.code, this.details := code, details;
    }
  }

  method SetOllamaError(context: ServicerContext, e: Failure)
    modifies context
    ensures (context.code, context.details) == StatusOf(OllamaError(e))
    ensures context.code == DeadlineExceeded <==> e.TimeoutException?
    ensures context.code == Unavailable <==> (IsTransportError(e) && !e.TimeoutException?) || e.ResponseError?
    ensures context.code == Internal <==> !IsTransportError(e) && !e.ResponseError?
  {
    if e.TimeoutException? {
      context.Set(DeadlineExceeded, "Model backend timed out");
    } else if IsTransportError(e) || e.ResponseError? {
      context.Set(Unavailable, "Model backend unavailable: " + e.text);
    } else {
      context.Set(Internal, "Internal model error");
    }
  }

  // ---------------------------------------------------------------------------------------
  // Unary calls
  // ---------------------------------------------------------------------------------------

  // What Ollama does for one unary call. `misfit` is the text of the exception that building
  // the message raises, should the counts of the answer not fit.
  datatype Generation = GenerateRaises(e: Failure) | Generates(answer: Chunk, misfit: string)

  function ModelEnd(prompt: seq<Utf8.Scalar>, model: string, g: Generation): End {
    if IsBlank(prompt) then EMPTY_PROMPT
    else match g
         case GenerateRaises(e) => OllamaError(e)
         case Generates(answer, misfit) =>
           if Fits(answer) then Answered(ModelReply(Image(model, answer))) else Raised(misfit)
  }

  // ModelPredict; None when building the response raises.
  method ModelPredict(prompt: seq<Utf8.Scalar>, model: string, g: Generation, context: ServicerContext)
    returns (response: Option<Reply>)
    requires context.code == OK && context.details == ""
    modifies context
    ensures match ModelEnd(prompt, model, g)
            case Answered(payload) => response == Some(payload.reply) && context.code == OK
            case Failed(code, details) =>
              response == Some(NO_REPLY) && (context.code, context.details) == (code, details)
            case _ => response == None && context.code == OK
    ensures response.Some? && context.code == OK ==> g.Generates? && Tells(response.value, model, g.answer)
  {
    if IsBlank(prompt) {
      context.Set(InvalidArgument, "prompt must not be empty");
      return Some(NO_REPLY);
    }
    match g {
      case GenerateRaises(e) =>
        SetOllamaError(context, e);
        return Some(NO_REPLY);
      case Generates(answer, _) =>
        if !Fits(answer) {
          return None;
        }
        return Some(Image(model, answer));
    }
  }

  // What the classifier does for one list of features: it answers; predicting raises; or it
  // answers with an index of which no message can be built, which raises outside the try block.
  datatype Classification = Classifies(iris: IrisClass) | PredictionRaises | ResponseRaises(text: string)

  type Classifier = seq<Float> -> Classification

  function FeatureList(f: Features): seq<Float> {
    [f.sepalLength, f.sepalWidth, f.petalLength, f.petalWidth]
  }

  const PREDICTION_FAILED := Failed(Internal, "Iris prediction failed")

  function OutOfRange(i: Index): End {
    Failed(InvalidArgument, Name(i) + " must be a finite number between 0 and 50")
  }

  // The servicer visits the features in their declared order.
  function IrisEndFrom(f: Features, c: Classifier, n: nat): End
    requires n <= 4
    decreases 4 - n
  {
    if n == 4 then
      match c(FeatureList(f))
      case Classifies(iris) => Answered(IrisReply(iris))
      case PredictionRaises => PREDICTION_FAILED
      case ResponseRaises(text) => Raised(text)
    else if ServicerRejects(Value(f, n)) then OutOfRange(n)
    else IrisEndFrom(f, c, n + 1)
  }

  function IrisEnd(f: Features, c: Classifier): End {
    IrisEndFrom(f, c, 0)
  }

  // IrisPredict; None when building the response raises.
  method IrisPredict(f: Features, c: Classifier, context: ServicerContext) returns (response: Option<IrisClass>)
    requires context.code == OK && context.details == ""
    modifies context
    ensures match IrisEnd(f, c)
            case Answered(payload) => response == Some(payload.iris) && context.code == OK
            case Failed(code, details) =>
              response == Some(NO_CLASS) && (context.code, context.details) == (code, details)
            case _ => response == None && context.code == OK
  {
    for n := 0 to 4
      invariant context.code == OK && context.details == ""
      invariant IrisEnd(f, c) == IrisEndFrom(f, c, n)
    {
      if ServicerRejects(Value(f, n)) {
        context.Set(InvalidArgument, Name(n) + " must be a finite number between 0 and 50");
        return Some(NO_CLASS);
      }
    }
    match c([f.sepalLength, f.sepalWidth, f.petalLength, f.petalWidth]) {
      case Classifies(iris) =>
        return Some(iris);
      case PredictionRaises =>
        context.Set(Internal, "Iris prediction failed");
        return Some(NO_CLASS);
      case ResponseRaises(_) =>
        return None;
    }
  }

  // The servicer answers INVALID_ARGUMENT exactly for features the gateway refuses, so a
  // request that the gateway let through never gets that status.
  lemma AcceptedNeverInvalid(f: Features, c: Classifier, order: seq<Index>)
    requires IsOrder(order)
    ensures StatusOf(IrisEnd(f, c)).0 == InvalidArgument <==> Complaint(f, order).Some?
  {
    TiersAgree(f, order);
    EndWithinRange(f, c, 0);
  }

  // Both tiers accept exactly the finite measurements from 0 to 50, both included; negative
  // zero is one of them.
  lemma AcceptedRange(f: Features, c: Classifier, order: seq<Index>)
    requires IsOrder(order)
    ensures Complaint(f, order).None?
       <==> forall v :: v in [f.sepalLength, f.sepalWidth, f.petalLength, f.petalWidth] ==>
              v == NegZero || (v.Num? && 0.0 <= v.value <= 50.0)
    ensures StatusOf(IrisEnd(f, c)).0 != InvalidArgument
       <==> forall v :: v in [f.sepalLength, f.sepalWidth, f.petalLength, f.petalWidth] ==>
              v == NegZero || (v.Num? && 0.0 <= v.value <= 50.0)
  {
    AcceptedNeverInvalid(f, c, order);
    TiersAgree(f, order);
    AcceptableValues(f);
  }

  lemma AcceptableValues(f: Features)
    ensures Acceptable(f)
       <==> forall v :: v in [f.sepalLength, f.sepalWidth, f.petalLength, f.petalWidth] ==>
              v == NegZero || (v.Num? && 0.0 <= v.value <= 50.0)
  {
    var values := [f.sepalLength, f.sepalWidth, f.petalLength, f.petalWidth];
    assert values[0] == Value(f, 0) && values[1] == Value(f, 1) && values[2] == Value(f, 2) && values[3] == Value(f, 3);
    assert forall v :: v in values ==> v == values[0] || v == values[1] || v == values[2] || v == values[3];
    if !Acceptable(f) {
      var i: Index :| ServicerRejects(Value(f, i));
      assert values[i] in values;
    }
  }

  lemma {:induction false} EndWithinRange(f: Features, c: Classifier, n: nat)
    requires n <= 4
    ensures StatusOf(IrisEndFrom(f, c, n)).0 == InvalidArgument
       <==> exists i: Index :: n <= i < 4 && ServicerRejects(Value(f, i))
    decreases 4 - n
  {
    if n < 4 {
      EndWithinRange(f, c, n + 1);
    }
  }

  // ---------------------------------------------------------------------------------------
  // The streaming generator
  // ---------------------------------------------------------------------------------------

  // What Ollama does for one streaming call: generate raises at once, or yields the chunks
  // and then either stops or raises.
  datatype Source = RaisesAtOnce(e: Failure) | Streams(chunks: seq<Chunk>, ending: Option<Failure>)

  function SourceChunks(source: Source): seq<Chunk> {
    match source
    case RaisesAtOnce(_) => []
    case Streams(chunks, _) => chunks
  }

  predicate AllFit(chunks: seq<Chunk>) {
    forall i :: 0 <= i < |chunks| ==> Fits(chunks[i])
  }

  // The relation between a prompt, Ollama's behaviour, what the generator yielded and how
  // it ended: always the images of a prefix of the chunks, each of which could be built;
  // everything if it ended by exhaustion; and an error status only for its own reason.
  ghost predicate Generated(prompt: seq<Utf8.Scalar>, model: string, source: Source, yielded: seq<Reply>, end: End) {
    var chunks := SourceChunks(source);
    && |yielded| <= |chunks|
    && yielded == Images(model, chunks[..|yielded|])
    && AllFit(chunks[..|yielded|])
    && (yielded != [] ==> !IsBlank(prompt))
    && match end
       case Exhausted => !IsBlank(prompt) && source == Streams(chunks, None) && |yielded| == |chunks|
       case Cut => !IsBlank(prompt) && source.Streams?
       case Failed(_, _) => FailureReason(prompt, source, |yielded|, end)
       case _ => false
  }

  predicate FailureReason(prompt: seq<Utf8.Scalar>, source: Source, yielded: nat, end: End) {
    if IsBlank(prompt) then end == EMPTY_PROMPT
    else match source
         case RaisesAtOnce(e) => end == OllamaError(e)
         case Streams(chunks, ending) =>
           if yielded < |chunks| then !Fits(chunks[yielded]) && end == OllamaError(OtherException(""))
           else ending.Some? && end == OllamaError(ending.value)
  }

  lemma ImagesSnoc(model: string, chunks: seq<Chunk>, n: nat)
    requires n < |chunks|
    ensures Images(model, chunks[..n + 1]) == Images(model, chunks[..n]) + [Image(model, chunks[n])]
  {
  }

  // ModelPredictStream run to its end. `checks` is the number of activity checks that pass
  // before the first one that fails (beyond |chunks| when the client stays).
  method ModelPredictStream(prompt: seq<Utf8.Scalar>, model: string, source: Source, checks: nat,
                            context: ServicerContext)
    returns (yielded: seq<Reply>, ghost end: End)
    requires context.code == OK && context.details == ""
    modifies context
    ensures Generated(prompt, model, source, yielded, end)
    ensures (context.code, context.details) == StatusOf(end)
    ensures forall k :: 0 <= k < |yielded| ==> Tells(yielded[k], model, SourceChunks(source)[k])
    ensures |yielded| <= checks
    ensures end == Cut <==> |yielded| == checks < |SourceChunks(source)| && !IsBlank(prompt)
  {
    yielded := [];
    if IsBlank(prompt) {
      context.Set(InvalidArgument, "prompt must not be empty");
      end := EMPTY_PROMPT;
      return;
    }
    match source {
      case RaisesAtOnce(e) =>
        SetOllamaError(context, e);
        end := OllamaError(e);
      case Streams(chunks, ending) =>
        for i := 0 to |chunks|
          invariant context.code == OK && context.details == ""
          invariant |yielded| == i <= checks
          invariant yielded == Images(model, chunks[..i]) && AllFit(chunks[..i])
        {
          if i >= checks {
            end := Cut;
            return;
          }
          if !Fits(chunks[i]) {
            SetOllamaError(context, OtherException(""));
            end := OllamaError(OtherException(""));
            return;
          }
          ImagesSnoc(model, chunks, i);
          assert chunks[..i + 1] == chunks[..i] + [chunks[i]];
          yielded := yielded + [Image(model, chunks[i])];
        }
        assert chunks[..|chunks|] == chunks;
        match ending {
          case None =>
            end := Exhausted;
          case Some(e) =>
            SetOllamaError(context, e);
            end := OllamaError(e);
        }
    }
  }
}
