// Sums over all requests, and how each step changes them.
module Tallies {
  import opened Basics
  import opened Gateway
  import opened Serving
  import opened CallInvariant

  // What is counted of each request.
  datatype Tag =
    | Slots                          // holds one of the accepted-RPC slots
    | Workers                        // holds a worker
    | Waiting                        // accepted, not yet dispatched
    | Metric(key: Key)               // its contribution so far to a counter
    | Answering(route: Route)        // RPC counted as ok, HTTP 200 not yet counted
    | Failing(route: Route)          // RPC counted as error, HTTP status not yet counted
    | Rejections(route: Route)       // refused by validation, and counted
    | Unobserved(route: Route)       // HTTP status counted, duration not yet observed

  predicate HoldsWorker(server: Server) {
    server.Started? || server.Loop? || server.Got? || server.Checked? || server.Ended?
  }

  predicate HasCounted(pc: Pc) {
    pc.Counted? || pc.Streaming? || pc.Holding? || pc.Charged? || pc.Leaving? || pc.Closing? || pc.Finished?
  }

  // The handler has passed the point where it updates this counter.
  predicate Passed(pc: Pc, k: Key) {
    match k
    case HttpKey(_, _) => HasCounted(pc)
    case RpcKey(_, _) => HasCounted(pc) || pc.Recorded? || pc.Accounted?
    case DurationKey(_) => pc.Finished?
    case _ => !pc.Called? && !pc.Recorded?
  }

  // The received items whose tokens have been accounted.
  function AccountedItems(h: Handler): seq<Recv> {
    if h.pc.Holding? && h.received != [] then Front(h.received) else h.received
  }

  function Contribution(k: Key, route: Route, h: Handler): nat {
    if Passed(h.pc, k) then FinalCharge(k, route, h.outcome, AccountedItems(h)) else 0
  }

  function One(b: bool): nat {
    if b then 1 else 0
  }

  function Tally(t: Tag, c: Call): nat {
    var h, route := c.handler, RouteOf(c.input);
    var waiting := h.pc.Recorded? || h.pc.Accounted?;
    match t
    case Slots => One(c.backend.server.Queued? || HoldsWorker(c.backend.server))
    case Workers => One(HoldsWorker(c.backend.server))
    case Waiting => One(c.backend.server.Queued?)
    case Metric(k) => Contribution(k, route, h)
    case Answering(r) => One(route == r && waiting && !h.outcome.CallFailed?)
    case Failing(r) => One(route == r && waiting && h.outcome.CallFailed?)
    case Rejections(r) => One(route == r && h.outcome.Invalid? && HasCounted(h.pc))
    case Unobserved(r) => One(route == r && HasCounted(h.pc) && !h.pc.Finished?)
  }

  function Total(calls: seq<Call>, t: Tag): nat {
    if calls == [] then 0 else Total(Front(calls), t) + Tally(t, Last(calls))
  }

  lemma TotalAppend(calls: seq<Call>, c: Call, t: Tag)
    ensures Total(calls + [c], t) == Total(calls, t) + Tally(t, c)
  {
    FrontSnoc(calls, c);
  }

  lemma {:induction false} TotalUpdate(calls: seq<Call>, i: nat, c: Call, t: Tag)
    requires i < |calls|
    ensures Total(calls[i := c], t) == Total(calls, t) - Tally(t, calls[i]) + Tally(t, c)
  {
    if i < |calls| - 1 {
      TotalUpdate(Front(calls), i, c, t);
      assert Front(calls[i := c]) == Front(calls)[i := c];
    } else {
      assert Front(calls[i := c]) == Front(calls);
    }
  }

  lemma {:induction false} TotalZero(calls: seq<Call>, t: Tag)
    requires forall i :: 0 <= i < |calls| ==> Tally(t, calls[i]) == 0
    ensures Total(calls, t) == 0
  {
    if calls != [] {
      TotalZero(Front(calls), t);
    }
  }

  // ---------------------------------------------------------------------------------------
  // How a step changes the tallies
  // ---------------------------------------------------------------------------------------

  lemma SlotsChange(maxLen: int, c: Call, l: Local)
    requires HandlerInv(c) && Can(c, l)
    ensures Tally(Slots, Step(maxLen, c, l)) == Tally(Slots, c) + SlotChange(l)
    ensures Tally(Workers, Step(maxLen, c, l)) == Tally(Workers, c) + WorkerChange(l)
  {
  }

  predicate IsLabel(k: Key) {
    k.HttpKey? || k.RpcKey? || k.DurationKey?
  }

  // The effect of a handler step on one counter and on what its request has contributed.
  ghost predicate Balanced(maxLen: int, c: Call, g: HandlerStep, m: map<Key, nat>, k: Key)
    requires CanHandle(c, g)
  {
    Contribution(k, RouteOf(c.input), Handled(maxLen, c, g)) + Get(m, k)
    == Contribution(k, RouteOf(c.input), c.handler) + Get(Meter(m, c, g), k)
  }

  lemma LabelsChange(maxLen: int, c: Call, g: HandlerStep, m: map<Key, nat>, k: Key)
    requires HandlerInv(c) && CanHandle(c, g) && IsLabel(k)
    ensures Balanced(maxLen, c, g, m, k)
  {
  }

  lemma ReceiveChange(maxLen: int, c: Call, fail: bool, m: map<Key, nat>, k: Key)
    requires HandlerInv(c) && CanHandle(c, Receive(fail)) && !IsLabel(k)
    ensures Balanced(maxLen, c, Receive(fail), m, k)
  {
    FrontSnoc(c.handler.received, RecvResult(c, fail));
  }

  lemma ChargeChange(maxLen: int, c: Call, m: map<Key, nat>, k: Key)
    requires HandlerInv(c) && CanHandle(c, Charge) && !IsLabel(k)
    ensures Balanced(maxLen, c, Charge, m, k)
  {
    MeterTokensAdds(m, Last(c.handler.received).reply, k);
  }

  lemma AccountChange(maxLen: int, c: Call, m: map<Key, nat>, k: Key)
    requires HandlerInv(c) && CanHandle(c, Account) && !IsLabel(k)
    ensures Balanced(maxLen, c, Account, m, k)
  {
    MeterTokensAdds(m, c.handler.outcome.payload.reply, k);
  }

  lemma OtherChange(maxLen: int, c: Call, g: HandlerStep, m: map<Key, nat>, k: Key)
    requires HandlerInv(c) && EventInv(c) && CanHandle(c, g) && !IsLabel(k)
    requires !g.Receive? && !g.Charge? && !g.Account?
    ensures Balanced(maxLen, c, g, m, k)
  {
    assert Handled(maxLen, c, g).received == c.handler.received;
  }

  lemma ContributionChange(maxLen: int, c: Call, g: HandlerStep, m: map<Key, nat>, k: Key)
    requires HandlerInv(c) && EventInv(c) && CanHandle(c, g)
    ensures Balanced(maxLen, c, g, m, k)
  {
    if IsLabel(k) {
      LabelsChange(maxLen, c, g, m, k);
    } else if g.Receive? {
      ReceiveChange(maxLen, c, g.fail, m, k);
    } else if g.Charge? {
      ChargeChange(maxLen, c, m, k);
    } else if g.Account? {
      AccountChange(maxLen, c, m, k);
    } else {
      OtherChange(maxLen, c, g, m, k);
    }
  }

  // Metered is what the counters are after the step.
  function Metered(m: map<Key, nat>, c: Call, l: Local): map<Key, nat> {
    if l.OfHandler? then Meter(m, c, l.g) else m
  }

  lemma MetricChange(maxLen: int, c: Call, l: Local, m: map<Key, nat>, k: Key)
    requires HandlerInv(c) && EventInv(c) && Can(c, l)
    ensures Tally(Metric(k), Step(maxLen, c, l)) + Get(m, k) == Tally(Metric(k), c) + Get(Metered(m, c, l), k)
  {
    if l.OfHandler? {
      ContributionChange(maxLen, c, l.g, m, k);
    }
  }
}
