// What the gateway handlers decide, answer and count: the parts of model.go, iris.go and
// api_error.go that depend on one request only.
module Gateway {
  import opened Basics
  import opened ApiErrors
  import opened IrisFeatures
  import opened Servicers
  import Utf8

  datatype Route = IrisRoute | ModelRoute | StreamRoute

  // ---------------------------------------------------------------------------------------
  // Requests and their validation
  // ---------------------------------------------------------------------------------------

  // A request body after JSON decoding.
  datatype PromptBody = MalformedPrompt(message: string) | Prompt(text: seq<Utf8.Scalar>)

  datatype IrisBody =
    | MalformedIris(message: string)
    | Measurements(sepalLength: Option<Float>, sepalWidth: Option<Float>,
                   petalLength: Option<Float>, petalWidth: Option<Float>)

  // A request together with what its backend will do for it, should it get that far.
  datatype Input =
    | IrisInput(irisBody: IrisBody, classifier: Classifier)
    | ModelInput(body: PromptBody, model: string, generation: Generation)
    | StreamInput(body: PromptBody, model: string, source: Source)

  function RouteOf(input: Input): Route {
    match input
    case IrisInput(_, _) => IrisRoute
    case ModelInput(_, _, _) => ModelRoute
    case StreamInput(_, _, _) => StreamRoute
  }

  const PROMPT_REQUIRED := "Key: 'Prompt' Error:Field validation for 'Prompt' failed on the 'required' tag"
  const ALL_REQUIRED := "all iris features are required: sepal_length, sepal_width, petal_length, petal_width"

  function Decimal(n: nat): string {
    if n < 10 then [('0' as int + n) as char] else Decimal(n / 10) + Decimal(n % 10)
  }

  function TooLong(maxLen: int): string {
    var limit := if maxLen < 0 then "-" + Decimal(-maxLen) else Decimal(maxLen);
    "prompt exceeds maximum length of " + limit + " characters"
  }

  // The text of the 400 answer, if the prompt is refused. An empty prompt fails the
  // `required` binding; the length is counted on the encoded bytes.
  function PromptRefusal(maxLen: int, body: PromptBody): Option<string> {
    match body
    case MalformedPrompt(message) => Some(message)
    case Prompt(text) =>
      if text == [] then Some(PROMPT_REQUIRED)
      else if Utf8.RuneCount(Utf8.Encode(text)) > maxLen then Some(TooLong(maxLen))
      else None
  }

  function FeaturesOf(body: IrisBody): Features
    requires body.Measurements?
    requires body.sepalLength.Some? && body.sepalWidth.Some? && body.petalLength.Some? && body.petalWidth.Some?
  {
    Features(body.sepalLength.value, body.sepalWidth.value, body.petalLength.value, body.petalWidth.value)
  }

  predicate Complete(body: IrisBody) {
    && body.Measurements?
    && body.sepalLength.Some? && body.sepalWidth.Some? && body.petalLength.Some? && body.petalWidth.Some?
  }

  function IrisRefusal(body: IrisBody, order: seq<Index>): Option<string> {
    if body.MalformedIris? then Some(body.message)
    else if !Complete(body) then Some(ALL_REQUIRED)
    else Complaint(FeaturesOf(body), order)
  }

  function Refusal(maxLen: int, input: Input, order: seq<Index>): Option<string> {
    match input
    case IrisInput(body, _) => IrisRefusal(body, order)
    case ModelInput(body, _, _) => PromptRefusal(maxLen, body)
    case StreamInput(body, _, _) => PromptRefusal(maxLen, body)
  }

  // Both model endpoints refuse a non-empty prompt exactly when it has more code points
  // than the limit, whatever its encoding needs in bytes.
  lemma PromptLimitCountsCodePoints(maxLen: int, text: seq<Utf8.Scalar>, model: string,
                                    g: Generation, s: Source, order: seq<Index>)
    requires text != []
    ensures Refusal(maxLen, ModelInput(Prompt(text), model, g), order).Some? <==> |text| > maxLen
    ensures Refusal(maxLen, StreamInput(Prompt(text), model, s), order).Some? <==> |text| > maxLen
  {
    Utf8.RuneCountOfEncoding(text);
  }

  function ParseDecimal(s: string): int {
    if s == "" then 0 else 10 * ParseDecimal(s[..|s| - 1]) + (s[|s| - 1] as int - '0' as int)
  }

  lemma {:induction false} DecimalReadsBack(n: nat)
    ensures ParseDecimal(Decimal(n)) == n && forall c :: c in Decimal(n) ==> '0' <= c <= '9'
    ensures Decimal(n) != [] && (Decimal(n)[0] == '0' ==> n == 0)
  {
    if n < 10 {
      assert ParseDecimal("") == 0;
    } else {
      DecimalReadsBack(n / 10);
      var s, digit := Decimal(n), ('0' as int + n % 10) as char;
      assert Decimal(n % 10) == [digit];
      assert s == Decimal(n / 10) + [digit];
      assert s[..|s| - 1] == Decimal(n / 10);
    }
  }

  // The texts of the 400 answers, and which comes first.
  lemma RefusalTable(maxLen: int, body: PromptBody, iris: IrisBody, order: seq<Index>)
    requires IsOrder(order)
    ensures body.MalformedPrompt? ==> PromptRefusal(maxLen, body) == Some(body.message)
    ensures body == Prompt([]) ==>
              PromptRefusal(maxLen, body)
              == Some("Key: 'Prompt' Error:Field validation for 'Prompt' failed on the 'required' tag")
    ensures body.Prompt? && |body.text| > maxLen >= 0 && body.text != [] ==>
              PromptRefusal(maxLen, body) == Some("prompt exceeds maximum length of " + Decimal(maxLen) + " characters")
    ensures body.Prompt? && body.text != [] && maxLen < 0 ==>
              PromptRefusal(maxLen, body)
              == Some("prompt exceeds maximum length of " + ("-" + Decimal(-maxLen)) + " characters")
    ensures body.Prompt? && 0 < |body.text| <= maxLen ==> PromptRefusal(maxLen, body).None?
    ensures iris.MalformedIris? ==> IrisRefusal(iris, order) == Some(iris.message)
    ensures iris.Measurements?
            && (iris.sepalLength.None? || iris.sepalWidth.None? || iris.petalLength.None? || iris.petalWidth.None?) ==>
              IrisRefusal(iris, order)
              == Some("all iris features are required: sepal_length, sepal_width, petal_length, petal_width")
    ensures Complete(iris) ==> (IrisRefusal(iris, order).None? <==>
              InRange(iris.sepalLength.value) && InRange(iris.sepalWidth.value)
              && InRange(iris.petalLength.value) && InRange(iris.petalWidth.value))
  {
    if body.Prompt? {
      Utf8.RuneCountOfEncoding(body.text);
    }
    if Complete(iris) {
      TiersAgree(FeaturesOf(iris), order);
      var f := FeaturesOf(iris);
      assert Acceptable(f) ==> !ServicerRejects(Value(f, 0)) && !ServicerRejects(Value(f, 1))
                               && !ServicerRejects(Value(f, 2)) && !ServicerRejects(Value(f, 3));
    }
  }

  // The text of the 400 answer is not determined by an iris request: this one, with two
  // measurements out of range, gets either text, as the map is iterated.
  lemma TwoComplaints()
    ensures var body := Measurements(Some(Num(-1.0)), Some(Num(60.0)), Some(Num(0.0)), Some(Num(0.0)));
            && IsOrder(StartingWith(0)) && IsOrder(StartingWith(1))
            && IrisRefusal(body, StartingWith(0)) == Some("sepal_length" + " must be between 0 and 50")
            && IrisRefusal(body, StartingWith(1)) == Some("sepal_width" + " must be between 0 and 50")
            && IrisRefusal(body, StartingWith(0)) != IrisRefusal(body, StartingWith(1))
  {
    var f := Features(Num(-1.0), Num(60.0), Num(0.0), Num(0.0));
    MessagesDiffer(f, 0, 1);
    assert Complaint(f, StartingWith(0)) == ValidateIrisFeature(Name(0), Num(-1.0));
    assert Complaint(f, StartingWith(1)) == ValidateIrisFeature(Name(1), Num(60.0));
  }

  // ---------------------------------------------------------------------------------------
  // Answers
  // ---------------------------------------------------------------------------------------

  // What became of a request at the gateway. Opened: the client stream exists.
  datatype Outcome = Undecided | Invalid(message: string) | CallFailed(err: Error) | Replied(payload: Payload) | Opened

  // What the generated client returns once the servicer has ended.
  function OutcomeOf(end: End): Outcome {
    match end
    case Answered(payload) => Replied(payload)
    case _ => CallFailed(Status(StatusOf(end).0, StatusOf(end).1))
  }

  // What a generated client method returns.
  datatype Result<+T> = Ok(value: T) | Err(err: Error)

  // What becomes of a request, given what the generated client returns should it be called.
  function ModelOutcome(maxLen: int, body: PromptBody, result: Result<Reply>): Outcome {
    match PromptRefusal(maxLen, body)
    case Some(message) => Invalid(message)
    case None =>
      match result
      case Ok(reply) => Replied(ModelReply(reply))
      case Err(err) => CallFailed(err)
  }

  function StreamOutcome(maxLen: int, body: PromptBody, opening: Option<Error>): Outcome {
    match PromptRefusal(maxLen, body)
    case Some(message) => Invalid(message)
    case None => if opening.Some? then CallFailed(opening.value) else Opened
  }

  function ClassOutcome(result: Result<IrisClass>): Outcome {
    match result
    case Ok(iris) => Replied(IrisReply(iris))
    case Err(err) => CallFailed(err)
  }

  // `answer` is what the client returns for the features it is called with.
  function IrisOutcome(body: IrisBody, order: seq<Index>, answer: Features -> Result<IrisClass>): Outcome {
    match IrisRefusal(body, order)
    case Some(message) => Invalid(message)
    case None => ClassOutcome(answer(FeaturesOf(body)))
  }

  datatype Body = ErrorBody(error: ApiError) | PayloadBody(payload: Payload)

  datatype Response = Json(status: int, body: Body)

  function HttpStatus(o: Outcome): int {
    match o
    case Invalid(_) => 400
    case CallFailed(err) => ApiErrorFromGrpc(err).1
    case _ => 200
  }

  function Answer(o: Outcome): Option<Response> {
    match o
    case Invalid(message) => Some(Json(400, ErrorBody(ApiError(INVALID_ARGUMENT, message))))
    case CallFailed(err) => Some(Json(ApiErrorFromGrpc(err).1, ErrorBody(ApiErrorFromGrpc(err).0)))
    case Replied(payload) => Some(Json(200, PayloadBody(payload)))
    case _ => None
  }

  // The answer to every error of an RPC.
  lemma FailureAnswer(err: Error)
    ensures var (status, code) :=
              if err == Status(DeadlineExceeded, err.message) then (504, "MODEL_TIMEOUT")
              else if err == Status(Unavailable, err.message) then (503, "BACKEND_UNAVAILABLE")
              else if err == Status(InvalidArgument, err.message) then (400, "INVALID_ARGUMENT")
              else (500, "INTERNAL_ERROR");
            Answer(CallFailed(err)) == Some(Json(status, ErrorBody(ApiError(code, err.message))))
  {
  }

  // The results of Recv on a client stream, and the server-sent events they cause.
  datatype Recv = Received(reply: Reply) | Eof | RecvError(err: Error)

  datatype Event = Message(reply: Reply) | Done | ErrorEvent(error: ApiError)

  function EventFor(r: Recv): Event {
    match r
    case Received(reply) => Message(reply)
    case Eof => Done
    case RecvError(err) => ErrorEvent(ApiError(STREAM_ERROR, ErrorString(err)))
  }

  lemma EventTable(reply: Reply, err: Error)
    ensures EventFor(Received(reply)) == Message(reply) && EventFor(Eof) == Done
    ensures EventFor(RecvError(err)) == ErrorEvent(ApiError("STREAM_ERROR", ErrorString(err)))
  {
  }

  function Front<T>(s: seq<T>): seq<T>
    requires s != []
  {
    s[..|s| - 1]
  }

  function Last<T>(s: seq<T>): T
    requires s != []
  {
    s[|s| - 1]
  }

  lemma FrontSnoc<T>(s: seq<T>, x: T)
    ensures Front(s + [x]) == s && Last(s + [x]) == x
  {
  }

  function EventsOf(rs: seq<Recv>): seq<Event> {
    if rs == [] then [] else EventsOf(Front(rs)) + [EventFor(Last(rs))]
  }

  function Replies(rs: seq<Recv>): seq<Reply> {
    if rs == [] then []
    else if Last(rs).Received? then Replies(Front(rs)) + [Last(rs).reply]
    else Replies(Front(rs))
  }

  function Messages(es: seq<Event>): seq<Reply> {
    if es == [] then []
    else if Last(es).Message? then Messages(Front(es)) + [Last(es).reply]
    else Messages(Front(es))
  }

  // The handler stops receiving after the first result that is not a message.
  predicate OneTerminal(rs: seq<Recv>) {
    forall i :: 0 <= i < |rs| - 1 ==> rs[i].Received?
  }

  // The results that a client stream can have in store: only the last is not a message.
  predicate IsScript(script: seq<Recv>) {
    script != [] && !Last(script).Received? && OneTerminal(script)
  }

  // The results received by a handler whose client goes away after `patience` events.
  function Delivered(o: Outcome, script: seq<Recv>, patience: nat): seq<Recv> {
    if !o.Opened? then [] else if patience < |script| then script[..patience] else script
  }

  // message* (done | error)?
  predicate WellShaped(es: seq<Event>) {
    forall i :: 0 <= i < |es| - 1 ==> es[i].Message?
  }

  lemma {:induction false} EventsMirror(rs: seq<Recv>)
    ensures |EventsOf(rs)| == |rs| && forall i :: 0 <= i < |rs| ==> EventsOf(rs)[i] == EventFor(rs[i])
    ensures Messages(EventsOf(rs)) == Replies(rs)
    ensures OneTerminal(rs) ==> WellShaped(EventsOf(rs))
  {
    if rs != [] {
      EventsMirror(Front(rs));
      assert Front(EventsOf(rs)) == EventsOf(Front(rs));
    }
  }

  // ---------------------------------------------------------------------------------------
  // Metrics
  // ---------------------------------------------------------------------------------------

  // The labelled counters of metrics.go; for a histogram, the number of observations.
  datatype Key =
    | HttpKey(route: Route, status: int)     // http_requests_total
    | RpcKey(route: Route, ok: bool)         // grpc_request_duration_seconds
    | DurationKey(route: Route)              // http_request_duration_seconds
    | TokensKey(model: string)               // ai_generated_tokens_total
    | GenerationsKey(model: string)          // ai_generation_duration_seconds

  function TokenCharge(r: Reply, model: string): nat {
    if r.modelName == model && r.evalCount > 0 then r.evalCount else 0
  }

  function GenerationCharge(r: Reply, model: string): nat {
    if r.modelName == model && r.evalCount > 0 then 1 else 0
  }

  // What one received item adds to a counter.
  function ItemCharge(k: Key, r: Recv): nat {
    if !r.Received? then 0
    else match k
         case TokensKey(model) => TokenCharge(r.reply, model)
         case GenerationsKey(model) => GenerationCharge(r.reply, model)
         case _ => 0
  }

  function ItemCharges(k: Key, rs: seq<Recv>): nat {
    if rs == [] then 0 else ItemCharges(k, Front(rs)) + ItemCharge(k, Last(rs))
  }

  // What a request that has come to its end has added to a counter.
  function FinalCharge(k: Key, route: Route, o: Outcome, received: seq<Recv>): nat {
    match k
    case HttpKey(r, status) => if r == route && status == HttpStatus(o) then 1 else 0
    case RpcKey(r, ok) => if r == route && !o.Invalid? && ok == !o.CallFailed? then 1 else 0
    case DurationKey(r) => if r == route then 1 else 0
    case _ =>
      if o.Replied? && o.payload.ModelReply? then ItemCharge(k, Received(o.payload.reply))
      else ItemCharges(k, received)
  }

  function MeterTokens(m: map<Key, nat>, r: Reply): map<Key, nat> {
    if r.evalCount > 0
    then Bump(Bump(m, TokensKey(r.modelName), r.evalCount), GenerationsKey(r.modelName), 1)
    else m
  }

  lemma MeterTokensAdds(m: map<Key, nat>, r: Reply, k: Key)
    ensures Get(MeterTokens(m, r), k) == Get(m, k) + ItemCharge(k, Received(r))
  {
  }
}
