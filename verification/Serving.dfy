// The serving system as a step machine: any number of requests, interleaved at the
// granularity of single effects, through the gateway handlers, one RPC channel each, and
// the servicers behind the admission limits of server.py.
//
// The environment is an adversary: it picks every interleaving, may break an RPC with any
// error at any time, and may take the HTTP client away. It keeps to these rules. Messages of
// one RPC arrive in order. A call ends with EOF (or a unary OK) only if the servicer ended
// with status OK, everything it sent was received and the RPC was not broken. A server
// context becomes inactive only after its RPC was broken or cancelled, and stays so.
module Serving {
  import opened Basics
  import opened ApiErrors
  import IrisFeatures
  import opened Servicers
  import opened Gateway

  const MAX_WORKERS := 10
  const MAX_CONCURRENT_RPCS := MAX_WORKERS * 2

  // ---------------------------------------------------------------------------------------
  // One request
  // ---------------------------------------------------------------------------------------

  // Where the handler is.
  datatype Pc =
    | Bound      // request read, nothing decided
    | Refused    // refused by validation, not yet counted
    | Calling    // inside the generated client
    | Called     // the client returned, RPC duration not yet observed
    | Recorded   // RPC duration observed
    | Accounted  // tokens of a unary reply accounted
    | Counted    // http_requests_total incremented, response not yet written
    | Streaming  // inside c.Stream, before a step
    | Holding    // Recv returned, nothing done about it yet
    | Charged    // tokens of the received chunk accounted
    | Leaving    // handler body finished, deferred calls pending
    | Closing    // RPC context cancelled
    | Finished   // HTTP duration observed

  // Where the server side of the RPC is. Between Loop and Done the generator runs: Got holds
  // a chunk whose activity check is pending, Checked one whose check has passed.
  datatype Server = Idle | Requested | Lost | Queued | Started | Loop | Got | Checked | Ended(end: End)
                  | Returned(end: End)

  // The handler: what it decided, the results of Recv so far, the server-sent events so
  // far, and the JSON response once written.
  datatype Handler = Handler(pc: Pc, outcome: Outcome, received: seq<Recv>, events: seq<Event>,
                             response: Option<Response>)

  // The contexts and the connection: whether the HTTP client went away; how the RPC failed in
  // transit, expired or was cancelled from outside; whether the handler's deferred cancel
  // ran; and context.is_active() of the servicer.
  datatype Link = Link(gone: bool, broken: Option<Error>, cancelled: bool, active: bool)

  // The servicer, the number of chunks it took from Ollama, and the messages it sent that
  // are not yet received.
  datatype Backend = Backend(server: Server, consumed: nat, channel: seq<Reply>)

  datatype Call = Call(input: Input, handler: Handler, link: Link, backend: Backend)

  function NewCall(input: Input): Call {
    Call(input, Handler(Bound, Undecided, [], [], None), Link(false, None, false, true), Backend(Idle, 0, []))
  }

  datatype HandlerStep =
    | Validate(order: seq<IrisFeatures.Index>) | Open(fail: bool) | Return(fail: bool) | Record | Account
    | Count | Commit | Notice | Receive(fail: bool) | Charge | Emit | Cancel | Observe

  datatype ServerStep = Accept | Reject | Drop | Dispatch | Serve | Generate | Pull | Check | Yield | Abandon | Release

  datatype LinkStep = Break(err: Error) | Leave | Deactivate

  datatype Local = OfHandler(g: HandlerStep) | OfServer(s: ServerStep) | OfEnvironment(e: LinkStep)

  function PromptOf(input: Input): seq<Utf8.Scalar>
    requires input.StreamInput?
  {
    if input.body.Prompt? then input.body.text else []
  }

  function Chunks(input: Input): seq<Chunk> {
    if input.StreamInput? then SourceChunks(input.source) else []
  }

  // How a unary servicer ends. A request without features or prompt never reaches one.
  function UnaryEnd(input: Input): End {
    match input
    case IrisInput(body, classifier) =>
      if Complete(body) then IrisEnd(FeaturesOf(body), classifier) else Rejected
    case ModelInput(body, model, generation) =>
      if body.Prompt? then ModelEnd(body.text, model, generation) else Rejected
    case StreamInput(_, _, _) => Rejected
  }

  // What Recv returns once every message has been received.
  function FinalRecv(end: End): Recv {
    if StatusOf(end).0 == OK then Eof else RecvError(Status(StatusOf(end).0, StatusOf(end).1))
  }

  predicate HoldsReply(o: Outcome) {
    o.Replied? && o.payload.ModelReply?
  }

  // ---------------------------------------------------------------------------------------
  // Steps of the handler
  // ---------------------------------------------------------------------------------------

  ghost predicate CanHandle(c: Call, g: HandlerStep) {
    var h := c.handler;
    match g
    case Validate(order) => h.pc == Bound && IrisFeatures.IsOrder(order)
    case Open(fail) => h.pc == Calling && c.input.StreamInput? && (fail ==> c.link.broken.Some?)
    case Return(fail) =>
      h.pc == Calling && !c.input.StreamInput?
      && if fail then c.link.broken.Some? else c.link.broken.None? && c.backend.server.Returned?
    case Record => h.pc == Called
    case Account => h.pc == Recorded && HoldsReply(h.outcome)
    case Count => h.pc == Refused || h.pc == Accounted || (h.pc == Recorded && !HoldsReply(h.outcome))
    case Commit => h.pc == Counted
    case Notice => h.pc == Streaming && c.link.gone
    case Receive(fail) =>
      h.pc == Streaming
      && if fail then c.link.broken.Some?
         else c.backend.channel != [] || (c.link.broken.None? && c.backend.server.Returned?)
    case Charge => h.pc == Holding && h.received != [] && Last(h.received).Received?
    case Emit => h.received != [] && (h.pc == Charged || (h.pc == Holding && !Last(h.received).Received?))
    case Cancel => h.pc == Leaving
    case Observe => h.pc == Closing
  }

  ghost function Handled(maxLen: int, c: Call, g: HandlerStep): Handler
    requires CanHandle(c, g)
  {
    var h := c.handler;
    match g
    case Validate(order) =>
      (match Refusal(maxLen, c.input, order)
       case Some(message) => h.(pc := Refused, outcome := Invalid(message))
       case None => h.(pc := Calling))
    case Open(fail) => h.(pc := Called, outcome := if fail then CallFailed(c.link.broken.value) else Opened)
    case Return(fail) =>
      h.(pc := Called, outcome := if fail then CallFailed(c.link.broken.value) else OutcomeOf(c.backend.server.end))
    case Record => h.(pc := Recorded)
    case Account => h.(pc := Accounted)
    case Count => h.(pc := Counted)
    case Commit =>
      if h.outcome.Opened? then h.(pc := Streaming) else h.(pc := Leaving, response := Answer(h.outcome))
    case Notice => h.(pc := Leaving)
    case Receive(fail) => h.(pc := Holding, received := h.received + [RecvResult(c, fail)])
    case Charge => h.(pc := Charged)
    case Emit =>
      h.(pc := if h.pc == Charged then Streaming else Leaving, events := h.events + [EventFor(Last(h.received))])
    case Cancel => h.(pc := Closing)
    case Observe => h.(pc := Finished)
  }

  ghost function RecvResult(c: Call, fail: bool): Recv
    requires CanHandle(c, Receive(fail))
  {
    if fail then RecvError(c.link.broken.value)
    else if c.backend.channel != [] then Received(c.backend.channel[0])
    else FinalRecv(c.backend.server.end)
  }

  // Starting the RPC and taking a message out of the channel are seen by the backend; the
  // deferred cancel is seen by the link.
  ghost function AfterHandler(maxLen: int, c: Call, g: HandlerStep): Call
    requires CanHandle(c, g)
  {
    var h := Handled(maxLen, c, g);
    match g
    case Validate(_) =>
      if h.pc == Calling then Call(c.input, h, c.link, c.backend.(server := Requested)) else c.(handler := h)
    case Receive(fail) =>
      if !fail && c.backend.channel != []
      then Call(c.input, h, c.link, c.backend.(channel := c.backend.channel[1..]))
      else c.(handler := h)
    case Cancel => Call(c.input, h, c.link.(cancelled := !h.outcome.Invalid?), c.backend)
    case _ => c.(handler := h)
  }

  // ---------------------------------------------------------------------------------------
  // Steps of the server and of the environment
  // ---------------------------------------------------------------------------------------

  predicate CanServe(c: Call, s: ServerStep) {
    var b := c.backend;
    match s
    case Accept => b.server == Requested
    case Reject => b.server == Requested
    case Drop => b.server == Requested && (c.link.broken.Some? || c.link.cancelled)
    case Dispatch => b.server == Queued
    case Serve => b.server == Started && !c.input.StreamInput?
    case Generate => b.server == Started && c.input.StreamInput?
    case Pull => b.server == Loop
    case Check => b.server == Got
    case Yield => b.server == Checked && c.input.StreamInput? && 0 < b.consumed <= |Chunks(c.input)|
    case Abandon => b.server == Loop && !c.link.active
    case Release => b.server.Ended?
  }

  function Served(c: Call, s: ServerStep): Backend
    requires CanServe(c, s)
  {
    var b := c.backend;
    match s
    case Accept => b.(server := Queued)
    case Reject => b.(server := Returned(Rejected))
    case Drop => b.(server := Lost)
    case Dispatch => b.(server := Started)
    case Serve => b.(server := Ended(UnaryEnd(c.input)))
    case Generate =>
      if IsBlank(PromptOf(c.input)) then b.(server := Ended(EMPTY_PROMPT))
      else (match c.input.source
            case RaisesAtOnce(e) => b.(server := Ended(OllamaError(e)))
            case Streams(_, _) => b.(server := Loop))
    case Pull =>
      if b.consumed < |Chunks(c.input)| then b.(server := Got, consumed := b.consumed + 1)
      else b.(server := Ended(ExhaustionEnd(c.input)))
    case Check => b.(server := if c.link.active then Checked else Ended(Cut))
    case Yield =>
      var chunk := Chunks(c.input)[b.consumed - 1];
      if Fits(chunk) then b.(server := Loop, channel := b.channel + [Image(c.input.model, chunk)])
      else b.(server := Ended(OllamaError(OtherException(""))))
    case Abandon => b.(server := Ended(Cut))
    case Release => b.(server := Returned(b.server.end))
  }

  // The for loop over Ollama's chunks has run out: the iterator stopped or raised.
  function ExhaustionEnd(input: Input): End {
    if input.StreamInput? && input.source.Streams? && input.source.ending.Some?
    then OllamaError(input.source.ending.value)
    else Exhausted
  }

  predicate CanHappen(c: Call, e: LinkStep) {
    match e
    case Break(_) => c.backend.server != Idle && c.link.broken.None?
    case Leave => !c.link.gone
    case Deactivate => c.link.active && (c.link.broken.Some? || c.link.cancelled)
  }

  function Happened(k: Link, e: LinkStep): Link {
    match e
    case Break(err) => k.(broken := Some(err))
    case Leave => k.(gone := true)
    case Deactivate => k.(active := false)
  }

  ghost predicate Can(c: Call, l: Local) {
    match l
    case OfHandler(g) => CanHandle(c, g)
    case OfServer(s) => CanServe(c, s)
    case OfEnvironment(e) => CanHappen(c, e)
  }

  ghost function Step(maxLen: int, c: Call, l: Local): Call
    requires Can(c, l)
  {
    match l
    case OfHandler(g) => AfterHandler(maxLen, c, g)
    case OfServer(s) => c.(backend := Served(c, s))
    case OfEnvironment(e) => c.(link := Happened(c.link, e))
  }

  // ---------------------------------------------------------------------------------------
  // The system
  // ---------------------------------------------------------------------------------------

  datatype System = System(calls: seq<Call>, accepted: int, executing: int, metrics: map<Key, nat>)

  const INITIAL := System([], 0, 0, map[])

  datatype Action = Arrive(input: Input) | At(call: nat, local: Local)

  ghost predicate Enabled(s: System, a: Action) {
    match a
    case Arrive(_) => true
    case At(i, l) =>
      && i < |s.calls| && Can(s.calls[i], l)
      && (l == OfServer(Accept) ==> s.accepted < MAX_CONCURRENT_RPCS)
      && (l == OfServer(Reject) ==> s.accepted >= MAX_CONCURRENT_RPCS)
      && (l == OfServer(Dispatch) ==> s.executing < MAX_WORKERS)
  }

  // The metric update that goes with a step of a handler.
  function Meter(m: map<Key, nat>, c: Call, g: HandlerStep): map<Key, nat> {
    var route, h := RouteOf(c.input), c.handler;
    match g
    case Record => Bump(m, RpcKey(route, !h.outcome.CallFailed?), 1)
    case Account => if HoldsReply(h.outcome) then MeterTokens(m, h.outcome.payload.reply) else m
    case Count => Bump(m, HttpKey(route, HttpStatus(h.outcome)), 1)
    case Charge => if h.received != [] && Last(h.received).Received? then MeterTokens(m, Last(h.received).reply) else m
    case Observe => Bump(m, DurationKey(route), 1)
    case _ => m
  }

  ghost function Apply(maxLen: int, s: System, a: Action): System
    requires Enabled(s, a)
  {
    match a
    case Arrive(input) => s.(calls := s.calls + [NewCall(input)])
    case At(i, l) =>
      var c := s.calls[i];
      System(s.calls[i := Step(maxLen, c, l)],
             s.accepted + SlotChange(l), s.executing + WorkerChange(l),
             if l.OfHandler? then Meter(s.metrics, c, l.g) else s.metrics)
  }

  // Accepting a call takes one of the MAX_CONCURRENT_RPCS slots, dispatching it takes a
  // worker; both are given back when the servicer returns, not when the client gives up.
  function SlotChange(l: Local): int {
    if l == OfServer(Accept) then 1 else if l == OfServer(Release) then -1 else 0
  }

  function WorkerChange(l: Local): int {
    if l == OfServer(Dispatch) then 1 else if l == OfServer(Release) then -1 else 0
  }

  ghost predicate ValidRun(maxLen: int, s: System, run: seq<Action>)
    decreases |run|
  {
    run == [] || (Enabled(s, run[0]) && ValidRun(maxLen, Apply(maxLen, s, run[0]), run[1..]))
  }

  ghost function RunFrom(maxLen: int, s: System, run: seq<Action>): System
    requires ValidRun(maxLen, s, run)
    decreases |run|
  {
    if run == [] then s else RunFrom(maxLen, Apply(maxLen, s, run[0]), run[1..])
  }

  ghost predicate Reachable(maxLen: int, s: System) {
    exists run :: ValidRun(maxLen, INITIAL, run) && RunFrom(maxLen, INITIAL, run) == s
  }
}
