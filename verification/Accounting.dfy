// Metric accounting over all concurrent requests.
module Accounting {
  import opened Basics
  import opened ApiErrors
  import opened IrisFeatures
  import opened Servicers
  import opened Gateway
  import opened Serving
  import opened CallInvariant
  import opened Tallies
  import opened Runs
  import StreamResults

  function Http(s: System, r: Route, status: int): nat {
    Get(s.metrics, HttpKey(r, status))
  }

  function Rpc(s: System, r: Route, ok: bool): nat {
    Get(s.metrics, RpcKey(r, ok))
  }

  function HttpErrors(s: System, r: Route): nat {
    Http(s, r, 400) + Http(s, r, 500) + Http(s, r, 503) + Http(s, r, 504)
  }

  function HttpTotal(s: System, r: Route): nat {
    Http(s, r, 200) + HttpErrors(s, r)
  }

  function Observed(s: System, r: Route): nat {
    Get(s.metrics, DurationKey(r))
  }

  function HttpTag(r: Route, status: int): Tag {
    Metric(HttpKey(r, status))
  }

  lemma SuccessBalance(r: Route, c: Call)
    requires HandlerInv(c)
    ensures Tally(Metric(RpcKey(r, true)), c) == Tally(HttpTag(r, 200), c) + Tally(Answering(r), c)
  {
  }

  lemma FailureBalance(r: Route, c: Call)
    requires HandlerInv(c)
    ensures Tally(Metric(RpcKey(r, false)), c) + Tally(Rejections(r), c)
         == Tally(HttpTag(r, 400), c) + Tally(HttpTag(r, 500), c) + Tally(HttpTag(r, 503), c)
            + Tally(HttpTag(r, 504), c) + Tally(Failing(r), c)
  {
  }

  lemma DurationBalance(r: Route, c: Call)
    requires HandlerInv(c)
    ensures Tally(HttpTag(r, 200), c) + Tally(HttpTag(r, 400), c) + Tally(HttpTag(r, 500), c)
            + Tally(HttpTag(r, 503), c) + Tally(HttpTag(r, 504), c)
         == Tally(Metric(DurationKey(r)), c) + Tally(Unobserved(r), c)
  {
  }

  // For each route: gRPC ok equals HTTP 200 up to the requests between the two updates; and
  // gRPC error plus validation rejections equals the HTTP errors up to the requests between
  // those two; and every counted request is observed once, except those still in flight.
  lemma MetricsBalance(maxLen: int, s: System, r: Route)
    requires Reachable(maxLen, s)
    ensures Rpc(s, r, true) == Http(s, r, 200) + Total(s.calls, Answering(r))
    ensures Rpc(s, r, false) + Total(s.calls, Rejections(r)) == HttpErrors(s, r) + Total(s.calls, Failing(r))
    ensures HttpTotal(s, r) == Observed(s, r) + Total(s.calls, Unobserved(r))
  {
    ReachableInv(maxLen, s);
    Balances(s.calls, r);
  }

  lemma {:induction false} Balances(calls: seq<Call>, r: Route)
    requires forall i :: 0 <= i < |calls| ==> HandlerInv(calls[i])
    ensures Total(calls, Metric(RpcKey(r, true))) == Total(calls, HttpTag(r, 200)) + Total(calls, Answering(r))
    ensures Total(calls, Metric(RpcKey(r, false))) + Total(calls, Rejections(r))
         == Total(calls, HttpTag(r, 400)) + Total(calls, HttpTag(r, 500)) + Total(calls, HttpTag(r, 503))
            + Total(calls, HttpTag(r, 504)) + Total(calls, Failing(r))
    ensures Total(calls, HttpTag(r, 200)) + Total(calls, HttpTag(r, 400)) + Total(calls, HttpTag(r, 500))
            + Total(calls, HttpTag(r, 503)) + Total(calls, HttpTag(r, 504))
         == Total(calls, Metric(DurationKey(r))) + Total(calls, Unobserved(r))
  {
    if calls != [] {
      Balances(Front(calls), r);
      SuccessBalance(r, Last(calls));
      FailureBalance(r, Last(calls));
      DurationBalance(r, Last(calls));
    }
  }

  lemma NoOtherLabel(r: Route, status: int, c: Call)
    requires HandlerInv(c) && status !in {200, 400, 500, 503, 504}
    ensures Tally(HttpTag(r, status), c) == 0
  {
  }

  // No other status label is ever used.
  lemma StatusLabels(maxLen: int, s: System, r: Route, status: int)
    requires Reachable(maxLen, s) && status !in {200, 400, 500, 503, 504}
    ensures Http(s, r, status) == 0
  {
    ReachableInv(maxLen, s);
    forall i | 0 <= i < |s.calls|
      ensures Tally(HttpTag(r, status), s.calls[i]) == 0
    {
      NoOtherLabel(r, status, s.calls[i]);
    }
    TotalZero(s.calls, HttpTag(r, status));
  }

  // Once every request has finished, the counts agree exactly.
  lemma QuiescentBalance(maxLen: int, s: System, r: Route)
    requires Reachable(maxLen, s) && forall i :: 0 <= i < |s.calls| ==> s.calls[i].handler.pc.Finished?
    ensures Rpc(s, r, true) == Http(s, r, 200)
    ensures Rpc(s, r, false) + Total(s.calls, Rejections(r)) == HttpErrors(s, r)
    ensures Observed(s, r) == HttpTotal(s, r)
  {
    MetricsBalance(maxLen, s, r);
    TotalZero(s.calls, Answering(r));
    TotalZero(s.calls, Failing(r));
    TotalZero(s.calls, Unobserved(r));
  }

  // ---------------------------------------------------------------------------------------
  // Labels and answers
  // ---------------------------------------------------------------------------------------

  predicate IsOn(c: Call, r: Route) {
    match r
    case IrisRoute => c.input.IrisInput?
    case ModelRoute => c.input.ModelInput?
    case StreamRoute => c.input.StreamInput?
  }

  // The client has been sent this HTTP status: that of its JSON response, or 200 with the
  // headers of an event stream.
  predicate WasSent(c: Call, status: int) {
    if c.handler.response.Some? then c.handler.response.value.status == status
    else status == 200 && c.handler.outcome.Opened?
         && (c.handler.pc.Streaming? || c.handler.pc.Holding? || c.handler.pc.Charged? || IsEnding(c.handler.pc))
  }

  function Sent(calls: seq<Call>, r: Route, status: int): nat {
    if calls == [] then 0 else Sent(Front(calls), r, status) + One(IsOn(Last(calls), r) && WasSent(Last(calls), status))
  }

  // Requests between the increment of http_requests_total and the write.
  function Unsent(calls: seq<Call>, r: Route): nat {
    if calls == [] then 0 else Unsent(Front(calls), r) + One(IsOn(Last(calls), r) && Last(calls).handler.pc.Counted?)
  }

  lemma CountedIsSent(c: Call, r: Route, status: int)
    requires HandlerInv(c)
    ensures var sent := One(IsOn(c, r) && WasSent(c, status));
            sent <= Tally(HttpTag(r, status), c) <= sent + One(IsOn(c, r) && c.handler.pc.Counted?)
  {
  }

  lemma {:induction false} CountedAreSent(calls: seq<Call>, r: Route, status: int)
    requires forall i :: 0 <= i < |calls| ==> HandlerInv(calls[i])
    ensures Sent(calls, r, status) <= Total(calls, HttpTag(r, status)) <= Sent(calls, r, status) + Unsent(calls, r)
  {
    if calls != [] {
      CountedAreSent(Front(calls), r, status);
      CountedIsSent(Last(calls), r, status);
    }
  }

  lemma {:induction false} NoneUnsent(calls: seq<Call>, r: Route)
    requires forall i :: 0 <= i < |calls| ==> calls[i].handler.pc.Finished?
    ensures Unsent(calls, r) == 0
  {
    if calls != [] {
      NoneUnsent(Front(calls), r);
    }
  }

  // Each status label counts the requests whose client was sent that very status, up to the
  // requests between the two updates, and exactly once every request has finished.
  lemma LabelsMatchAnswers(maxLen: int, s: System, r: Route, status: int)
    requires Reachable(maxLen, s)
    ensures Sent(s.calls, r, status) <= Http(s, r, status) <= Sent(s.calls, r, status) + Unsent(s.calls, r)
    ensures (forall i :: 0 <= i < |s.calls| ==> s.calls[i].handler.pc.Finished?) ==>
              Http(s, r, status) == Sent(s.calls, r, status)
  {
    ReachableInv(maxLen, s);
    CountedAreSent(s.calls, r, status);
    if forall i :: 0 <= i < |s.calls| ==> s.calls[i].handler.pc.Finished? {
      NoneUnsent(s.calls, r);
    }
  }

  // ---------------------------------------------------------------------------------------
  // Each request as if alone
  // ---------------------------------------------------------------------------------------

  // The ways in which the RPC of a request can fail: it broke, or the servicer ended with an
  // error status.
  predicate CanFailWith(c: Call, err: Error) {
    || c.link.broken == Some(err)
    || (c.backend.server.Returned? && err == Status(StatusOf(c.backend.server.end).0, StatusOf(c.backend.server.end).1)
        && err.code != OK)
  }

  // What the generated client may have returned to the handler of a request.
  predicate ReturnsReply(c: Call, result: Result<Reply>) {
    match result
    case Ok(reply) => c.backend.server == Returned(Answered(ModelReply(reply)))
    case Err(err) => CanFailWith(c, err)
  }

  predicate ReturnsClass(c: Call, result: Result<IrisClass>) {
    match result
    case Ok(iris) => c.backend.server == Returned(Answered(IrisReply(iris)))
    case Err(err) => CanFailWith(c, err)
  }

  // The decisions and received results that the contracts of module Handlers allow for a
  // handler running by itself, when its client object returns what this RPC made it return.
  ghost predicate HandledAlone(maxLen: int, c: Call) {
    var o, received := c.handler.outcome, c.handler.received;
    match c.input
    case IrisInput(body, _) =>
      received == [] && exists order, answer ::
        && IsOrder(order) && o == IrisOutcome(body, order, answer)
        && (Complete(body) && !o.Invalid? ==> ReturnsClass(c, answer(FeaturesOf(body))))
    case ModelInput(body, _, _) =>
      received == [] && exists result ::
        o == ModelOutcome(maxLen, body, result) && (!o.Invalid? ==> ReturnsReply(c, result))
    case StreamInput(body, _, _) =>
      exists opening, script, patience: nat ::
        && IsScript(script) && o == StreamOutcome(maxLen, body, opening) && received == Delivered(o, script, patience)
        && (opening.Some? ==> c.link.broken == opening)
        && (o.Opened? && patience < |script| ==> c.link.gone)
  }

  lemma IrisAlone(maxLen: int, c: Call)
    requires CallInv(maxLen, c) && c.handler.pc.Finished? && c.input.IrisInput?
    ensures HandledAlone(maxLen, c)
  {
    var o := c.handler.outcome;
    if o.Invalid? {
      var order :| IsOrder(order) && Refusal(maxLen, c.input, order) == Some(o.message);
      assert o == IrisOutcome(c.input.irisBody, order, (f: Features) => Err(Plain("")));
    } else {
      var result := if o.Replied? then Ok(o.payload.iris) else Err(o.err);
      var order := StartingWith(0);
      AdmissibleMeaning(maxLen, c.input, order);
      assert ReturnsClass(c, result);
      assert o == IrisOutcome(c.input.irisBody, order, (f: Features) => result);
    }
  }

  lemma ModelAlone(maxLen: int, c: Call)
    requires CallInv(maxLen, c) && c.handler.pc.Finished? && c.input.ModelInput?
    ensures HandledAlone(maxLen, c)
  {
    var o := c.handler.outcome;
    var result := if o.Replied? then Ok(o.payload.reply) else if o.CallFailed? then Err(o.err)
                  else Err(Plain(""));
    assert !o.Invalid? ==> ReturnsReply(c, result);
    assert o == ModelOutcome(maxLen, c.input.body, result);
  }

  lemma StreamAlone(maxLen: int, c: Call)
    requires CallInv(maxLen, c) && c.handler.pc.Finished? && c.input.StreamInput?
    ensures HandledAlone(maxLen, c)
  {
    var o, received := c.handler.outcome, c.handler.received;
    var opening := if o.CallFailed? then Some(o.err) else None;
    var script := if HasTerminal(received) then received else received + [Eof];
    assert o == StreamOutcome(maxLen, c.input.body, opening);
    assert received == Delivered(o, script, |received|);
  }

  // A request that finished among any number of others, in any interleaving: its decision
  // and what it received are those of a run of its handler alone, with the result that its
  // own RPC came to and cut short only if its client left; and its answer and events are the
  // ones that such a run writes.
  lemma FinishedAsIfAlone(maxLen: int, s: System, i: nat)
    requires Reachable(maxLen, s) && i < |s.calls| && s.calls[i].handler.pc.Finished?
    ensures HandledAlone(maxLen, s.calls[i])
    ensures var h := s.calls[i].handler; h.response == Answer(h.outcome) && h.events == EventsOf(h.received)
  {
    ReachableInv(maxLen, s);
    match s.calls[i].input {
      case IrisInput(_, _) => IrisAlone(maxLen, s.calls[i]);
      case ModelInput(_, _, _) => ModelAlone(maxLen, s.calls[i]);
      case StreamInput(_, _, _) => StreamAlone(maxLen, s.calls[i]);
    }
  }

  // What the handlers of these requests, each run alone, add to a counter.
  function FinalCharges(k: Key, calls: seq<Call>): nat {
    if calls == [] then 0
    else FinalCharges(k, Front(calls))
         + FinalCharge(k, RouteOf(Last(calls).input), Last(calls).handler.outcome, Last(calls).handler.received)
  }

  lemma {:induction false} FinishedTotal(k: Key, calls: seq<Call>)
    requires forall i :: 0 <= i < |calls| ==> calls[i].handler.pc.Finished?
    ensures Total(calls, Metric(k)) == FinalCharges(k, calls)
  {
    if calls != [] {
      FinishedTotal(k, Front(calls));
    }
  }

  // No update is lost or doubled: once every request has finished, each counter is the sum
  // of what the handlers would have added one after the other.
  lemma QuiescentCounters(maxLen: int, s: System, k: Key)
    requires Reachable(maxLen, s) && forall i :: 0 <= i < |s.calls| ==> s.calls[i].handler.pc.Finished?
    ensures Get(s.metrics, k) == FinalCharges(k, s.calls)
  {
    ReachableInv(maxLen, s);
    FinishedTotal(k, s.calls);
  }

  // ---------------------------------------------------------------------------------------
  // Tokens
  // ---------------------------------------------------------------------------------------

  // The positive token counts of a stream's chunks, absent counts taken as 0; and how many
  // chunks have one.
  function PositiveTokens(chunks: seq<Chunk>): nat {
    if chunks == [] then 0
    else
      var count := Or(Last(chunks).evalCount, 0);
      PositiveTokens(Front(chunks)) + (if count > 0 then count else 0)
  }

  function PositiveChunks(chunks: seq<Chunk>): nat {
    if chunks == [] then 0
    else PositiveChunks(Front(chunks)) + (if Or(Last(chunks).evalCount, 0) > 0 then 1 else 0)
  }

  // The positive counts (or the number) of the replies of one model.
  function Charges(k: Key, rs: seq<Reply>): nat {
    match k
    case TokensKey(model) => if rs == [] then 0 else Charges(k, Front(rs)) + TokenCharge(Last(rs), model)
    case GenerationsKey(model) => if rs == [] then 0 else Charges(k, Front(rs)) + GenerationCharge(Last(rs), model)
    case _ => 0
  }

  // The replies of one request whose accounting step has run: its unary reply, or the
  // chunks received.
  function AccountedReplies(c: Call): seq<Reply> {
    var h := c.handler;
    if HoldsReply(h.outcome) then (if h.pc.Called? || h.pc.Recorded? then [] else [h.outcome.payload.reply])
    else Replies(AccountedItems(h))
  }

  function AllAccounted(k: Key, calls: seq<Call>): nat {
    if calls == [] then 0 else AllAccounted(k, Front(calls)) + Charges(k, AccountedReplies(Last(calls)))
  }

  lemma {:induction false} ChargesByReplies(k: Key, rs: seq<Recv>)
    requires !IsLabel(k)
    ensures ItemCharges(k, rs) == Charges(k, Replies(rs))
  {
    if rs != [] {
      ChargesByReplies(k, Front(rs));
      if Last(rs).Received? {
        FrontSnoc(Replies(Front(rs)), Last(rs).reply);
      }
    }
  }

  lemma ChargesByCall(k: Key, c: Call)
    requires HandlerInv(c) && EventInv(c) && !IsLabel(k)
    ensures Tally(Metric(k), c) == Charges(k, AccountedReplies(c))
  {
    ChargesByReplies(k, AccountedItems(c.handler));
    if HoldsReply(c.handler.outcome) {
      FrontSnoc([], c.handler.outcome.payload.reply);
    }
  }

  lemma {:induction false} ChargesByCalls(k: Key, calls: seq<Call>)
    requires !IsLabel(k) && forall i :: 0 <= i < |calls| ==> HandlerInv(calls[i]) && EventInv(calls[i])
    ensures Total(calls, Metric(k)) == AllAccounted(k, calls)
  {
    if calls != [] {
      ChargesByCalls(k, Front(calls));
      ChargesByCall(k, Last(calls));
    }
  }

  // Token conservation: in every reachable state the token counter of a model is the sum of
  // the positive counts of all replies and chunks whose accounting step has run, and the
  // number of its generation observations is the number of those items.
  lemma TokensConserved(maxLen: int, s: System, model: string)
    requires Reachable(maxLen, s)
    ensures Get(s.metrics, TokensKey(model)) == AllAccounted(TokensKey(model), s.calls)
    ensures Get(s.metrics, GenerationsKey(model)) == AllAccounted(GenerationsKey(model), s.calls)
  {
    ReachableInv(maxLen, s);
    ChargesByCalls(TokensKey(model), s.calls);
    ChargesByCalls(GenerationsKey(model), s.calls);
  }

  lemma {:induction false} ChargesOfImages(name: string, chunks: seq<Chunk>, model: string)
    ensures Charges(TokensKey(model), Images(name, chunks)) == if model == name then PositiveTokens(chunks) else 0
    ensures Charges(GenerationsKey(model), Images(name, chunks)) == if model == name then PositiveChunks(chunks) else 0
  {
    if chunks != [] {
      ChargesOfImages(name, Front(chunks), model);
      assert Front(Images(name, chunks)) == Images(name, Front(chunks));
    }
  }

  // A stream that ended with done has contributed the positive counts of all of Ollama's
  // chunks to the counters of its model, and nothing to those of any other.
  lemma DoneStreamTokens(maxLen: int, s: System, i: nat, model: string)
    requires Reachable(maxLen, s) && i < |s.calls|
    requires s.calls[i].input.StreamInput? && Done in s.calls[i].handler.events
    ensures var c := s.calls[i];
            && Tally(Metric(TokensKey(model)), c)
               == (if model == c.input.model then PositiveTokens(Chunks(c.input)) else 0)
            && Tally(Metric(GenerationsKey(model)), c)
               == (if model == c.input.model then PositiveChunks(Chunks(c.input)) else 0)
  {
    ReachableInv(maxLen, s);
    var c := s.calls[i];
    StreamResults.DoneMeansEof(c);
    StreamResults.EofIsComplete(c);
    var y, chunks := Replies(c.handler.received), Chunks(c.input);
    assert y == Yielded(c)[..|y|];
    assert chunks[..|chunks|] == chunks;
    assert y == Images(c.input.model, chunks);
    ChargesOfImages(c.input.model, chunks, model);
    assert AccountedReplies(c) == y;
    ChargesByCall(TokensKey(model), c);
    ChargesByCall(GenerationsKey(model), c);
  }

  lemma StepGrows(maxLen: int, s: System, a: Action, k: Key)
    requires Enabled(s, a)
    ensures Get(s.metrics, k) <= Get(Apply(maxLen, s, a).metrics, k)
  {
    if a.At? && a.local.OfHandler? {
      var c := s.calls[a.call];
      match a.local.g {
        case Account => MeterTokensAdds(s.metrics, c.handler.outcome.payload.reply, k);
        case Charge => MeterTokensAdds(s.metrics, Last(c.handler.received).reply, k);
        case _ =>
      }
    }
  }

  // No counter ever decreases.
  lemma {:induction false} CountersGrow(maxLen: int, s: System, run: seq<Action>, k: Key)
    requires ValidRun(maxLen, s, run)
    ensures Get(s.metrics, k) <= Get(RunFrom(maxLen, s, run).metrics, k)
    decreases |run|
  {
    if run != [] {
      StepGrows(maxLen, s, run[0], k);
      CountersGrow(maxLen, Apply(maxLen, s, run[0]), run[1..], k);
    }
  }
}
