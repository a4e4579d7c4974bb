// The gateway handlers as they are written, each run by itself: response and events are
// written to a gin context, counters are updated in place, and iris requests are borrowed
// from a pool of mutable objects. Every contract is in the vocabulary of module Gateway, in
// which the results about concurrent runs are stated too.
module Handlers {
  import opened Basics
  import opened ApiErrors
  import opened IrisFeatures
  import opened Servicers
  import opened Gateway

  class Metrics {
    var counters: map<Key, nat>

    constructor ()
      ensures counters == map[]
    {
      counters := map[];
    }

    method Add(k: Key, n: nat)
      modifies this
      ensures counters == Bump(old(counters), k, n)
    {
      counters := Bump(counters, k, n);
    }

    method AddTokens(r: Reply)
      modifies this
      ensures forall k: Key :: Get(counters, k) == Get(old(counters), k) + ItemCharge(k, Received(r))
    {
      if r.evalCount > 0 {
        Add(TokensKey(r.modelName), r.evalCount);
        Add(GenerationsKey(r.modelName), 1);
      }
    }
  }

  // The part of gin.Context that a handler writes: one JSON response, or events.
  class GinContext {
    var response: Option<Response>
    var events: seq<Event>

    constructor ()
      ensures response.None? && events == []
    {
      response, events := None, [];
    }

    method Write(r: Response)
      requires response.None?
      modifies this`response
      ensures response == Some(r)
    {
      response := Some(r);
    }

    method SseEvent(e: Event)
      modifies this`events
      ensures events == old(events) + [e]
    {
      events := events + [e];
    }
  }

  method WriteGrpcError(c: GinContext, metrics: Metrics, route: Route, err: Error)
    requires c.response.None?
    modifies c`response, metrics
    ensures c.response == Answer(CallFailed(err))
    ensures metrics.counters == Bump(old(metrics.counters), HttpKey(route, HttpStatus(CallFailed(err))), 1)
    ensures metrics.counters == Bump(old(metrics.counters), HttpKey(route, c.response.value.status), 1)
  {
    var (apiErr, status) := ApiErrorFromGrpc(err);
    metrics.Add(HttpKey(route, status), 1);
    c.Write(Json(status, ErrorBody(apiErr)));
  }

  method WriteValidationError(c: GinContext, metrics: Metrics, route: Route, message: string)
    requires c.response.None?
    modifies c`response, metrics
    ensures c.response == Answer(Invalid(message))
    ensures metrics.counters == Bump(old(metrics.counters), HttpKey(route, 400), 1)
  {
    metrics.Add(HttpKey(route, 400), 1);
    c.Write(Json(400, ErrorBody(ApiError(INVALID_ARGUMENT, message))));
  }

  // The client side of a server stream: the results that Recv will return, of which only the
  // last is not a message.
  class ClientStream {
    const script: seq<Recv>
    var next: nat

    ghost predicate Valid()
      reads this
    {
      next <= |script| && IsScript(script)
    }

    constructor (script: seq<Recv>)
      requires IsScript(script)
      ensures Valid() && this.script == script && next == 0
    {
      this.script, this.next := script, 0;
    }

    method Recv() returns (r: Recv)
      requires Valid() && next < |script|
      modifies this
      ensures Valid() && next == old(next) + 1 && r == script[old(next)]
    {
      r := script[next];
      next := next + 1;
    }
  }

  // A finished request has added exactly its final charge to every counter.
  ghost predicate Billed(before: map<Key, nat>, after: map<Key, nat>, route: Route, o: Outcome, received: seq<Recv>) {
    forall k: Key :: Get(after, k) == Get(before, k) + FinalCharge(k, route, o, received)
  }

  lemma RefusalBilled(m: map<Key, nat>, route: Route, message: string)
    ensures Billed(m, Bump(Bump(m, HttpKey(route, 400), 1), DurationKey(route), 1), route, Invalid(message), [])
  {
  }

  lemma FailureBilled(m: map<Key, nat>, route: Route, err: Error)
    ensures var rpc := Bump(m, RpcKey(route, false), 1);
            var http := Bump(rpc, HttpKey(route, HttpStatus(CallFailed(err))), 1);
            Billed(m, Bump(http, DurationKey(route), 1), route, CallFailed(err), [])
  {
  }

  lemma ReplyBilled(m: map<Key, nat>, metered: map<Key, nat>, reply: Reply)
    requires forall k: Key ::
               Get(metered, k) == Get(Bump(m, RpcKey(ModelRoute, true), 1), k) + ItemCharge(k, Received(reply))
    ensures var http := Bump(metered, HttpKey(ModelRoute, 200), 1);
            Billed(m, Bump(http, DurationKey(ModelRoute), 1), ModelRoute, Replied(ModelReply(reply)), [])
  {
  }

  lemma ClassBilled(m: map<Key, nat>, iris: IrisClass)
    ensures var rpc := Bump(m, RpcKey(IrisRoute, true), 1);
            var http := Bump(rpc, HttpKey(IrisRoute, 200), 1);
            Billed(m, Bump(http, DurationKey(IrisRoute), 1), IrisRoute, Replied(IrisReply(iris)), [])
  {
  }

  // What c.Stream adds while the events are relayed.
  ghost predicate ItemsBilled(before: map<Key, nat>, after: map<Key, nat>, received: seq<Recv>) {
    forall k: Key :: Get(after, k) == Get(before, k) + ItemCharges(k, received)
  }

  lemma ItemsBilledSnoc(m: map<Key, nat>, before: map<Key, nat>, after: map<Key, nat>, received: seq<Recv>, r: Recv)
    requires ItemsBilled(m, before, received)
    requires forall k: Key :: Get(after, k) == Get(before, k) + ItemCharge(k, r)
    ensures ItemsBilled(m, after, received + [r])
  {
    FrontSnoc(received, r);
  }

  lemma {:induction false} LabelsOfItems(k: Key, rs: seq<Recv>)
    requires k.HttpKey? || k.RpcKey? || k.DurationKey?
    ensures ItemCharges(k, rs) == 0
  {
    if rs != [] {
      LabelsOfItems(k, Front(rs));
    }
  }

  lemma StreamBilled(m: map<Key, nat>, after: map<Key, nat>, received: seq<Recv>)
    requires ItemsBilled(Bump(Bump(m, RpcKey(StreamRoute, true), 1), HttpKey(StreamRoute, 200), 1), after, received)
    ensures Billed(m, Bump(after, DurationKey(StreamRoute), 1), StreamRoute, Opened, received)
  {
    forall k: Key | k.HttpKey? || k.RpcKey? || k.DurationKey?
      ensures ItemCharges(k, received) == 0
    {
      LabelsOfItems(k, received);
    }
  }

  class ModelHandler {
    const maxPromptLen: int
    const metrics: Metrics

    constructor (maxPromptLen: int, metrics: Metrics)
      ensures this.maxPromptLen == maxPromptLen && this.metrics == metrics
    {
      this.maxPromptLen, this.metrics := maxPromptLen, metrics;
    }

    // POST /predict/model; `result` is what client.ModelPredict returns.
    method Predict(c: GinContext, body: PromptBody, result: Result<Reply>)
      requires c.response.None?
      modifies c`response, metrics
      ensures var o := ModelOutcome(maxPromptLen, body, result);
              c.response == Answer(o) && Billed(old(metrics.counters), metrics.counters, ModelRoute, o, [])
      ensures PromptRefusal(maxPromptLen, body).None? ==>
                if result.Ok? then c.response == Some(Json(200, PayloadBody(ModelReply(result.value))))
                else var (apiErr, status) := ApiErrorFromGrpc(result.err);
                     c.response == Some(Json(status, ErrorBody(apiErr)))
    {
      ghost var m := metrics.counters;
      var refusal := PromptRefusal(maxPromptLen, body);
      if refusal.Some? {
        WriteValidationError(c, metrics, ModelRoute, refusal.value);
        metrics.Add(DurationKey(ModelRoute), 1);
        RefusalBilled(m, ModelRoute, refusal.value);
        return;
      }
      metrics.Add(RpcKey(ModelRoute, result.Ok?), 1);
      if result.Err? {
        WriteGrpcError(c, metrics, ModelRoute, result.err);
        metrics.Add(DurationKey(ModelRoute), 1);
        FailureBilled(m, ModelRoute, result.err);
        return;
      }
      metrics.AddTokens(result.value);
      ghost var metered := metrics.counters;
      metrics.Add(HttpKey(ModelRoute, 200), 1);
      c.Write(Json(200, PayloadBody(ModelReply(result.value))));
      metrics.Add(DurationKey(ModelRoute), 1);
      ReplyBilled(m, metered, result.value);
    }

    // c.Stream with the handler's step function; the client goes away after `patience` steps.
    method StreamEvents(c: GinContext, stream: ClientStream, patience: nat)
      requires c.events == [] && stream.Valid() && stream.next == 0
      modifies c`events, metrics, stream
      ensures stream.Valid() && stream.next == if patience < |stream.script| then patience else |stream.script|
      ensures c.events == EventsOf(stream.script[..stream.next])
      ensures ItemsBilled(old(metrics.counters), metrics.counters, stream.script[..stream.next])
    {
      ghost var m := metrics.counters;
      var keepOpen := true;
      var steps := 0;
      while keepOpen && steps < patience
        invariant stream.Valid() && stream.next == steps <= patience && steps <= |stream.script|
        invariant keepOpen <==> steps < |stream.script|
        invariant c.events == EventsOf(stream.script[..steps])
        invariant ItemsBilled(m, metrics.counters, stream.script[..steps])
        decreases |stream.script| - steps
      {
        ghost var received := stream.script[..steps];
        ghost var counters := metrics.counters;
        var chunk := stream.Recv();
        match chunk {
          case Eof =>
            c.SseEvent(Done);
            keepOpen := false;
          case RecvError(err) =>
            c.SseEvent(ErrorEvent(ApiError(STREAM_ERROR, ErrorString(err))));
            keepOpen := false;
          case Received(reply) =>
            metrics.AddTokens(reply);
            c.SseEvent(Message(reply));
        }
        assert stream.script[..steps + 1] == received + [chunk];
        FrontSnoc(received, chunk);
        ItemsBilledSnoc(m, counters, metrics.counters, received, chunk);
        steps := steps + 1;
      }
    }

    // POST /predict/model/stream. `opening` is the error of creating the client stream, if
    // any.
    method PredictStream(c: GinContext, body: PromptBody, opening: Option<Error>, stream: ClientStream, patience: nat)
      requires c.response.None? && c.events == [] && stream.Valid() && stream.next == 0
      modifies c, metrics, stream
      ensures stream.Valid()
      ensures var o := StreamOutcome(maxPromptLen, body, opening);
              var received := Delivered(o, stream.script, patience);
              && c.response == Answer(o) && c.events == EventsOf(received)
              && Billed(old(metrics.counters), metrics.counters, StreamRoute, o, received)
              && stream.script[..stream.next] == received
      ensures PromptRefusal(maxPromptLen, body).None? ==>
                if opening.None? then c.response.None?
                else var (apiErr, status) := ApiErrorFromGrpc(opening.value);
                     c.response == Some(Json(status, ErrorBody(apiErr)))
    {
      ghost var m := metrics.counters;
      var refusal := PromptRefusal(maxPromptLen, body);
      if refusal.Some? {
        WriteValidationError(c, metrics, StreamRoute, refusal.value);
        metrics.Add(DurationKey(StreamRoute), 1);
        RefusalBilled(m, StreamRoute, refusal.value);
        return;
      }
      metrics.Add(RpcKey(StreamRoute, opening.None?), 1);
      if opening.Some? {
        WriteGrpcError(c, metrics, StreamRoute, opening.value);
        metrics.Add(DurationKey(StreamRoute), 1);
        FailureBilled(m, StreamRoute, opening.value);
        return;
      }
      metrics.Add(HttpKey(StreamRoute, 200), 1);
      StreamEvents(c, stream, patience);
      assert stream.script[..stream.next] == Delivered(Opened, stream.script, patience);
      StreamBilled(m, metrics.counters, stream.script[..stream.next]);
      metrics.Add(DurationKey(StreamRoute), 1);
    }
  }

  // ---------------------------------------------------------------------------------------
  // The iris route and its pool
  // ---------------------------------------------------------------------------------------

  class IrisPredictRequest {
    var sepalLength: Float
    var sepalWidth: Float
    var petalLength: Float
    var petalWidth: Float

    constructor ()
      ensures View() == ZERO
    {
      sepalLength, sepalWidth, petalLength, petalWidth := Num(0.0), Num(0.0), Num(0.0), Num(0.0);
    }

    function View(): Features
      reads this
    {
      Features(sepalLength, sepalWidth, petalLength, petalWidth)
    }

    method Reset()
      modifies this
      ensures View() == ZERO
    {
      sepalLength, sepalWidth, petalLength, petalWidth := Num(0.0), Num(0.0), Num(0.0), Num(0.0);
    }
  }

  // The generated client: it answers whatever features its argument holds when it is called.
  class IrisPredictorClient {
    const answer: Features -> Result<IrisClass>
    ghost var seen: seq<Features>

    constructor (answer: Features -> Result<IrisClass>)
      ensures this.answer == answer && seen == []
    {
      this.answer := answer;
      this.seen := [];
    }

    method IrisPredict(req: IrisPredictRequest) returns (r: Result<IrisClass>)
      modifies this
      ensures seen == old(seen) + [req.View()] && r == answer(req.View())
    {
      seen := seen + [req.View()];
      r := answer(req.View());
    }
  }

  class IrisHandler {
    const client: IrisPredictorClient
    const metrics: Metrics
    var reqPool: set<IrisPredictRequest>

    // Pooled objects carry no features.
    ghost predicate Valid()
      reads this, reqPool
    {
      forall r :: r in reqPool ==> r.View() == ZERO
    }

    constructor (client: IrisPredictorClient, metrics: Metrics)
      ensures Valid() && reqPool == {} && this.client == client && this.metrics == metrics
    {
      this.client, this.metrics, this.reqPool := client, metrics, {};
    }

    // sync.Pool.Get: any pooled object, or a new one.
    method Get(reuse: bool) returns (req: IrisPredictRequest)
      requires Valid()
      modifies this
      ensures Valid() && req !in reqPool && req.View() == ZERO
      ensures (fresh(req) && reqPool == old(reqPool)) || (req in old(reqPool) && reqPool == old(reqPool) - {req})
      ensures reuse && old(reqPool) != {} ==> req in old(reqPool)
    {
      if reuse && reqPool != {} {
        req :| req in reqPool;
        reqPool := reqPool - {req};
      } else {
        req := new IrisPredictRequest();
      }
    }

    // POST /predict/iris. The client sees the caller's features and nothing else; the
    // borrowed object goes back empty.
    method Predict(c: GinContext, body: IrisBody, order: seq<Index>, reuse: bool)
      requires Valid() && c.response.None?
      modifies this, reqPool, c`response, metrics, client
      ensures Valid() && fresh(reqPool - old(reqPool)) && old(reqPool) <= reqPool
      ensures IrisRefusal(body, order).Some? ==> client.seen == old(client.seen)
      ensures IrisRefusal(body, order).None? ==>
                && Complete(body)
                && client.seen == old(client.seen) + [Features(body.sepalLength.value, body.sepalWidth.value,
                                                               body.petalLength.value, body.petalWidth.value)]
      ensures var o := IrisOutcome(body, order, client.answer);
              c.response == Answer(o) && Billed(old(metrics.counters), metrics.counters, IrisRoute, o, [])
    {
      if body.MalformedIris? {
        Refuse(c, body.message);
        return;
      }
      if !Complete(body) {
        Refuse(c, ALL_REQUIRED);
        return;
      }
      var complaint := ValidateFeatures(FeaturesOf(body), order);
      if complaint.Some? {
        Refuse(c, complaint.value);
        return;
      }
      Forward(c, FeaturesOf(body), reuse);
    }

    // The rest of Predict, once the features are accepted.
    method Forward(c: GinContext, f: Features, reuse: bool)
      requires Valid() && c.response.None?
      modifies this, reqPool, c`response, metrics, client
      ensures Valid() && fresh(reqPool - old(reqPool)) && old(reqPool) <= reqPool
      ensures exists req :: req in reqPool && reqPool == old(reqPool) + {req}
      ensures reuse && old(reqPool) != {} ==> reqPool == old(reqPool)
      ensures c.response == Answer(ClassOutcome(client.answer(f)))
      ensures client.seen == old(client.seen) + [f]
      ensures Billed(old(metrics.counters), metrics.counters, IrisRoute, ClassOutcome(client.answer(f)), [])
    {
      var req := Get(reuse);
      req.sepalLength := f.sepalLength;
      req.sepalWidth := f.sepalWidth;
      req.petalLength := f.petalLength;
      req.petalWidth := f.petalWidth;
      assert req.View() == f;

      var resp := client.IrisPredict(req);
      Respond(c, resp);
      req.Reset();
      reqPool := reqPool + {req};
      metrics.Add(DurationKey(IrisRoute), 1);
    }

    // Only the observation of the duration, which is deferred, is missing afterwards.
    method Respond(c: GinContext, resp: Result<IrisClass>)
      requires c.response.None?
      modifies c`response, metrics
      ensures c.response == Answer(ClassOutcome(resp))
      ensures Billed(old(metrics.counters), Bump(metrics.counters, DurationKey(IrisRoute), 1),
                     IrisRoute, ClassOutcome(resp), [])
    {
      ghost var m := metrics.counters;
      metrics.Add(RpcKey(IrisRoute, resp.Ok?), 1);
      if resp.Err? {
        WriteGrpcError(c, metrics, IrisRoute, resp.err);
        FailureBilled(m, IrisRoute, resp.err);
      } else {
        metrics.Add(HttpKey(IrisRoute, 200), 1);
        c.Write(Json(200, PayloadBody(IrisReply(resp.value))));
        ClassBilled(m, resp.value);
      }
    }

    method Refuse(c: GinContext, message: string)
      requires c.response.None?
      modifies c`response, metrics
      ensures c.response == Answer(Invalid(message))
      ensures Billed(old(metrics.counters), metrics.counters, IrisRoute, Invalid(message), [])
    {
      RefusalBilled(metrics.counters, IrisRoute, message);
      WriteValidationError(c, metrics, IrisRoute, message);
      metrics.Add(DurationKey(IrisRoute), 1);
    }
  }
}
