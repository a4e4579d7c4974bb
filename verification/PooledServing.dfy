// The serving system with the request pool inlined: the iris handlers fill pooled objects
// field by field, the RPC carries whatever the object holds when it is read, and the servicer
// answers what was carried. Every run of it is a run of the serving system, in which an iris
// servicer answers its caller's own features by definition, and a run of the pool.
module PooledServing {
  import opened Basics
  import opened IrisFeatures
  import opened Servicers
  import opened Gateway
  import opened Serving
  import opened CallInvariant
  import opened Runs
  import Pool = RequestPool

  // `requests` has an entry for every call of the system, which stays at Ready unless the
  // call is an admitted iris request; `wire` holds what its RPC has read from its object.
  datatype Pooled = Pooled(system: System, requests: Pool.State, wire: seq<Option<Features>>)

  const EMPTY := Pooled(INITIAL, Pool.START, [])

  // An action of the serving system, or one on request objects only.
  datatype PooledAction = Effect(action: Action) | Touch(step: Pool.Step)

  function Sent(input: Input): Features {
    if input.IrisInput? && Complete(input.irisBody) then FeaturesOf(input.irisBody) else ZERO
  }

  function ClassifierOf(input: Input): Classifier {
    if input.IrisInput? then input.classifier else ((list: seq<Float>) => PredictionRaises)
  }

  predicate Matches(p: Pooled, i: nat) {
    i < |p.system.calls| && i < |p.requests.calls| && i < |p.wire|
  }

  // Objects are borrowed, filled and read before the client returns; the deferred functions
  // reset them and put them back after the context was cancelled.
  ghost predicate CanTouch(p: Pooled, t: Pool.Step) {
    && Pool.CanStep(p.requests, t)
    && match t
       case Borrow(i, _) => Matches(p, i) && IsIrisAt(p.system.calls[i], Calling)
       case Assign(i) => Matches(p, i) && IsIrisAt(p.system.calls[i], Calling)
       case Read(i) => Matches(p, i) && IsIrisAt(p.system.calls[i], Calling)
       case Reset(i) => Matches(p, i) && IsIrisAt(p.system.calls[i], Closing)
       case Put(i) => Matches(p, i) && IsIrisAt(p.system.calls[i], Closing)
       case Discard(_) => true
       case _ => false
  }

  predicate IsIrisAt(c: Call, pc: Pc) {
    c.input.IrisInput? && c.handler.pc == pc
  }

  // The generated client has been called with the filled object.
  predicate HasCalled(r: Pool.PoolCall) {
    !r.phase.Ready? && !(r.phase.Filling? && r.phase.field < 4)
  }

  // Nothing happens to an iris RPC before the client is called; a server accepts a request
  // that it got; and the duration is observed after the object was put back.
  predicate AllowsIris(c: Call, r: Pool.PoolCall, w: Option<Features>, l: Local) {
    match l
    case OfHandler(g) =>
      (g.Return? ==> Pool.InRpc(r)) && (g.Observe? && !c.handler.outcome.Invalid? ==> r.phase.Finished?)
    case OfServer(s) => HasCalled(r) && (s.Accept? ==> w.Some?)
    case OfEnvironment(e) => e.Break? ==> HasCalled(r)
  }

  ghost predicate Allowed(p: Pooled, a: PooledAction) {
    match a
    case Touch(t) => CanTouch(p, t)
    case Effect(Arrive(_)) => true
    case Effect(At(i, l)) =>
      && Matches(p, i) && Enabled(p.system, At(i, l))
      && (p.system.calls[i].input.IrisInput? ==> AllowsIris(p.system.calls[i], p.requests.calls[i], p.wire[i], l))
  }

  // What the servicer gets: the features that were read, whoever's they are.
  function OnWire(w: Option<Features>): Features {
    Or(w, ZERO)
  }

  ghost function Effected(maxLen: int, p: Pooled, i: nat, l: Local): System
    requires Allowed(p, Effect(At(i, l)))
  {
    var c := p.system.calls[i];
    if c.input.IrisInput? && l == OfServer(Serve) then
      var end := IrisEnd(OnWire(p.wire[i]), c.input.classifier);
      p.system.(calls := p.system.calls[i := c.(backend := c.backend.(server := Ended(end)))])
    else Apply(maxLen, p.system, At(i, l))
  }

  // What the pool notices of an effect: arrivals, and for admitted iris requests the return
  // of the client and the response.
  ghost function Noticed(maxLen: int, p: Pooled, a: Action): seq<Pool.Step>
    requires Allowed(p, Effect(a))
  {
    match a
    case Arrive(input) => [Pool.Arrive(Sent(input), ClassifierOf(input))]
    case At(i, l) =>
      var c := p.system.calls[i];
      if !c.input.IrisInput? || !l.OfHandler? then []
      else
        match l.g
        case Return(fail) =>
          var o := Handled(maxLen, c, l.g).outcome;
          [if o.CallFailed? then Pool.RpcFail(i, o.err) else Pool.RpcReply(i)]
        case Commit => if c.handler.outcome.Invalid? then [] else [Pool.Respond(i)]
        case _ => []
  }

  // Steps that the pool cannot make leave it as it is; there are none (see PooledRunProjects).
  ghost function Notice(s: Pool.State, steps: seq<Pool.Step>): Pool.State {
    if Pool.ValidRun(s, steps) then Pool.RunFrom(s, steps) else s
  }

  ghost function Steps(maxLen: int, p: Pooled, a: PooledAction): seq<Pool.Step>
    requires Allowed(p, a)
  {
    match a
    case Touch(t) => [t]
    case Effect(e) => Noticed(maxLen, p, e)
  }

  ghost function WireAfter(p: Pooled, a: PooledAction): seq<Option<Features>>
    requires Allowed(p, a)
  {
    match a
    case Touch(Read(i)) => p.wire[i := Some(p.requests.heap[Pool.HeldRef(p.requests.calls[i])])]
    case Effect(Arrive(_)) => p.wire + [None]
    case _ => p.wire
  }

  ghost function SystemAfter(maxLen: int, p: Pooled, a: PooledAction): System
    requires Allowed(p, a)
  {
    match a
    case Touch(_) => p.system
    case Effect(Arrive(input)) => Apply(maxLen, p.system, Arrive(input))
    case Effect(At(i, l)) => Effected(maxLen, p, i, l)
  }

  ghost function After(maxLen: int, p: Pooled, a: PooledAction): Pooled
    requires Allowed(p, a)
  {
    Pooled(SystemAfter(maxLen, p, a), Notice(p.requests, Steps(maxLen, p, a)), WireAfter(p, a))
  }

  ghost predicate PooledRun(maxLen: int, p: Pooled, run: seq<PooledAction>)
    decreases |run|
  {
    run == [] || (Allowed(p, run[0]) && PooledRun(maxLen, After(maxLen, p, run[0]), run[1..]))
  }

  ghost function PooledFrom(maxLen: int, p: Pooled, run: seq<PooledAction>): Pooled
    requires PooledRun(maxLen, p, run)
    decreases |run|
  {
    if run == [] then p else PooledFrom(maxLen, After(maxLen, p, run[0]), run[1..])
  }

  // The two projections of a run.
  function Effects(run: seq<PooledAction>): seq<Action> {
    if run == [] then []
    else (if run[0].Effect? then [run[0].action] else []) + Effects(run[1..])
  }

  ghost function PoolSteps(maxLen: int, p: Pooled, run: seq<PooledAction>): seq<Pool.Step>
    requires PooledRun(maxLen, p, run)
    decreases |run|
  {
    if run == [] then []
    else Steps(maxLen, p, run[0]) + PoolSteps(maxLen, After(maxLen, p, run[0]), run[1..])
  }

  // ---------------------------------------------------------------------------------------
  // How the two machines fit together
  // ---------------------------------------------------------------------------------------

  // The server has got the request.
  predicate HasRequest(server: Server) {
    server.Queued? || server.Started? || server.Ended? || (server.Returned? && server.end != Rejected)
  }

  // Where the object of an admitted iris request is while its handler is at `pc`.
  predicate PhaseFits(pc: Pc, phase: Pool.Phase, w: Option<Features>) {
    match pc
    case Calling =>
      (phase.Ready? || phase.Filling? || phase.InCall?) && (w.Some? ==> phase.InCall? && phase.seen == w)
    case Leaving => phase.Responded?
    case Closing => phase.Responded? || phase.WasReset? || phase.Finished?
    case Finished => phase.Finished?
    case _ => phase.RpcDone?
  }

  ghost predicate Coupled(c: Call, r: Pool.PoolCall, w: Option<Features>) {
    && r.features == Sent(c.input) && r.classifier == ClassifierOf(c.input)
    && (w.Some? ==> w.value == r.features)
    && if !c.input.IrisInput? || c.backend.server.Idle? then r.phase.Ready? && w.None?
       else
         && (HasRequest(c.backend.server) ==> w.Some?)
         && PhaseFits(c.handler.pc, r.phase, w)
         && r.outcome == c.handler.outcome
  }

  ghost predicate PooledInv(maxLen: int, p: Pooled) {
    && SystemInv(maxLen, p.system) && Pool.PoolInv(p.requests)
    && |p.system.calls| == |p.requests.calls| == |p.wire|
    && forall i :: 0 <= i < |p.wire| ==> Coupled(p.system.calls[i], p.requests.calls[i], p.wire[i])
  }

  // What was read is the caller's own, so the servicer does what the serving system says.
  lemma EffectIsApply(maxLen: int, p: Pooled, i: nat, l: Local)
    requires PooledInv(maxLen, p) && Allowed(p, Effect(At(i, l)))
    ensures Effected(maxLen, p, i, l) == Apply(maxLen, p.system, At(i, l))
  {
    var c := p.system.calls[i];
    if c.input.IrisInput? && l == OfServer(Serve) {
      assert Coupled(c, p.requests.calls[i], p.wire[i]);
      assert IrisEnd(OnWire(p.wire[i]), c.input.classifier) == UnaryEnd(c.input);
    }
  }

  // The pool's view of a request after a step of that request.
  ghost function NoticedCall(maxLen: int, c: Call, r: Pool.PoolCall, l: Local): Pool.PoolCall
    requires Can(c, l)
  {
    match l
    case OfHandler(Return(_)) =>
      if Pool.Holds(r)
      then r.(phase := Pool.RpcDone(Pool.HeldRef(r)), outcome := Handled(maxLen, c, l.g).outcome)
      else r
    case OfHandler(Commit) =>
      if Pool.Holds(r) then r.(phase := Pool.Responded(Pool.HeldRef(r)), response := Answer(r.outcome)) else r
    case _ => r
  }

  lemma ReturnedIsReply(maxLen: int, c: Call, r: Pool.PoolCall, w: Option<Features>, fail: bool)
    requires CallInv(maxLen, c) && c.input.IrisInput? && Coupled(c, r, w) && CanHandle(c, Return(fail)) && Pool.InRpc(r)
    ensures var o := Handled(maxLen, c, Return(fail)).outcome;
            !o.CallFailed? ==> r.phase.InCall? && r.phase.seen.Some?
                               && o == OutcomeOf(IrisEnd(r.phase.seen.value, r.classifier))
  {
  }

  lemma CoupledHandler(maxLen: int, c: Call, r: Pool.PoolCall, w: Option<Features>, g: HandlerStep)
    requires CallInv(maxLen, c) && c.input.IrisInput? && Coupled(c, r, w) && CanHandle(c, g)
    requires AllowsIris(c, r, w, OfHandler(g)) && Pool.OwnAnswer(r)
    ensures Coupled(AfterHandler(maxLen, c, g), NoticedCall(maxLen, c, r, OfHandler(g)), w)
  {
  }

  lemma CoupledServer(maxLen: int, c: Call, r: Pool.PoolCall, w: Option<Features>, s: ServerStep)
    requires CallInv(maxLen, c) && Coupled(c, r, w) && CanServe(c, s)
    requires c.input.IrisInput? ==> AllowsIris(c, r, w, OfServer(s))
    ensures Coupled(c.(backend := Served(c, s)), r, w)
  {
  }

  lemma CoupledOther(maxLen: int, c: Call, r: Pool.PoolCall, w: Option<Features>, l: Local)
    requires CallInv(maxLen, c) && Coupled(c, r, w) && Can(c, l)
    requires !c.input.IrisInput? || l.OfEnvironment?
    ensures Coupled(Step(maxLen, c, l), r, w)
  {
  }

  // The pool can make the step that goes with an effect, and it changes this request only.
  ghost predicate IsNoticed(maxLen: int, p: Pooled, i: nat, g: HandlerStep)
    requires Allowed(p, Effect(At(i, OfHandler(g))))
  {
    var steps := Noticed(maxLen, p, At(i, OfHandler(g)));
    && Pool.ValidRun(p.requests, steps)
    && Pool.RunFrom(p.requests, steps).calls
       == p.requests.calls[i := NoticedCall(maxLen, p.system.calls[i], p.requests.calls[i], OfHandler(g))]
  }

  lemma SingleStep(s: Pool.State, t: Pool.Step)
    requires Pool.CanStep(s, t)
    ensures Pool.ValidRun(s, [t]) && Pool.RunFrom(s, [t]) == Pool.Next(s, t)
  {
    assert [t][1..] == [];
  }

  lemma ReturnNoticed(maxLen: int, p: Pooled, i: nat, fail: bool)
    requires PooledInv(maxLen, p) && Allowed(p, Effect(At(i, OfHandler(Return(fail)))))
    requires p.system.calls[i].input.IrisInput?
    ensures IsNoticed(maxLen, p, i, Return(fail))
  {
    var c := p.system.calls[i];
    assert Coupled(c, p.requests.calls[i], p.wire[i]);
    ReturnedIsReply(maxLen, c, p.requests.calls[i], p.wire[i], fail);
    SingleStep(p.requests, Noticed(maxLen, p, At(i, OfHandler(Return(fail))))[0]);
  }

  lemma CommitNoticed(maxLen: int, p: Pooled, i: nat)
    requires PooledInv(maxLen, p) && Allowed(p, Effect(At(i, OfHandler(Commit)))) && p.system.calls[i].input.IrisInput?
    ensures IsNoticed(maxLen, p, i, Commit)
  {
    var c := p.system.calls[i];
    assert Coupled(c, p.requests.calls[i], p.wire[i]) && CallInv(maxLen, c);
    if c.handler.outcome.Invalid? {
      assert p.requests.calls[i := p.requests.calls[i]] == p.requests.calls;
    } else {
      SingleStep(p.requests, Pool.Respond(i));
    }
  }

  lemma HandlerNoticed(maxLen: int, p: Pooled, i: nat, g: HandlerStep)
    requires PooledInv(maxLen, p) && Allowed(p, Effect(At(i, OfHandler(g)))) && p.system.calls[i].input.IrisInput?
    ensures IsNoticed(maxLen, p, i, g)
  {
    if g.Return? {
      ReturnNoticed(maxLen, p, i, g.fail);
    } else if g.Commit? {
      CommitNoticed(maxLen, p, i);
    } else {
      assert p.requests.calls[i := p.requests.calls[i]] == p.requests.calls;
    }
  }

  // ---------------------------------------------------------------------------------------
  // The invariant is kept
  // ---------------------------------------------------------------------------------------

  lemma {:induction false} PoolRunKeeps(s: Pool.State, steps: seq<Pool.Step>)
    requires Pool.PoolInv(s) && Pool.ValidRun(s, steps)
    ensures Pool.PoolInv(Notice(s, steps))
  {
    Pool.PoolRun(s, steps);
  }

  lemma CoupledTouched(maxLen: int, p: Pooled, t: Pool.Step)
    requires PooledInv(maxLen, p) && CanTouch(p, t) && !t.Discard?
    ensures Coupled(p.system.calls[t.i], Pool.Next(p.requests, t).calls[t.i], WireAfter(p, Touch(t))[t.i])
  {
    var c, r := p.system.calls[t.i], p.requests.calls[t.i];
    assert Coupled(c, r, p.wire[t.i]) && CallInv(maxLen, c);
    if t.Read? {
      Pool.FilledIsOwn(r, p.requests.heap[Pool.HeldRef(r)]);
    }
  }

  lemma TouchKeeps(maxLen: int, p: Pooled, t: Pool.Step)
    requires PooledInv(maxLen, p) && CanTouch(p, t)
    ensures Pool.ValidRun(p.requests, [t]) && PooledInv(maxLen, After(maxLen, p, Touch(t)))
  {
    SingleStep(p.requests, t);
    PoolRunKeeps(p.requests, [t]);
    if !t.Discard? {
      CoupledTouched(maxLen, p, t);
    }
  }

  lemma ArrivalCoupled(input: Input)
    ensures Coupled(NewCall(input), Pool.PoolCall(Sent(input), ClassifierOf(input), Pool.Ready, Undecided, None), None)
  {
  }

  lemma ArrivalKeeps(maxLen: int, p: Pooled, input: Input)
    requires PooledInv(maxLen, p)
    ensures Pool.ValidRun(p.requests, Noticed(maxLen, p, Arrive(input)))
    ensures PooledInv(maxLen, After(maxLen, p, Effect(Arrive(input))))
  {
    SystemStep(maxLen, p.system, Arrive(input));
    ArrivalCoupled(input);
    SingleStep(p.requests, Pool.Arrive(Sent(input), ClassifierOf(input)));
    PoolRunKeeps(p.requests, Noticed(maxLen, p, Arrive(input)));
  }

  // The request's own part of an effect.
  lemma CoupledEffect(maxLen: int, p: Pooled, i: nat, l: Local)
    requires PooledInv(maxLen, p) && Allowed(p, Effect(At(i, l)))
    ensures var c, r := p.system.calls[i], p.requests.calls[i];
            Coupled(Step(maxLen, c, l), NoticedCall(maxLen, c, r, l), p.wire[i])
  {
    var c, r, w := p.system.calls[i], p.requests.calls[i], p.wire[i];
    assert Coupled(c, r, w) && CallInv(maxLen, c) && Pool.OwnAnswer(r);
    if l.OfServer? {
      CoupledServer(maxLen, c, r, w, l.s);
    } else if l.OfHandler? && c.input.IrisInput? {
      CoupledHandler(maxLen, c, r, w, l.g);
    } else {
      CoupledOther(maxLen, c, r, w, l);
    }
  }

  lemma EffectNoticed(maxLen: int, p: Pooled, i: nat, l: Local)
    requires PooledInv(maxLen, p) && Allowed(p, Effect(At(i, l)))
    ensures var c, r := p.system.calls[i], p.requests.calls[i];
            && Pool.ValidRun(p.requests, Noticed(maxLen, p, At(i, l)))
            && Notice(p.requests, Noticed(maxLen, p, At(i, l))).calls
               == p.requests.calls[i := NoticedCall(maxLen, c, r, l)]
  {
    if p.system.calls[i].input.IrisInput? && l.OfHandler? {
      HandlerNoticed(maxLen, p, i, l.g);
    } else {
      assert p.requests.calls[i := p.requests.calls[i]] == p.requests.calls;
    }
  }

  lemma EffectKeeps(maxLen: int, p: Pooled, i: nat, l: Local)
    requires PooledInv(maxLen, p) && Allowed(p, Effect(At(i, l)))
    ensures PooledInv(maxLen, After(maxLen, p, Effect(At(i, l))))
  {
    EffectIsApply(maxLen, p, i, l);
    SystemStep(maxLen, p.system, At(i, l));
    EffectNoticed(maxLen, p, i, l);
    PoolRunKeeps(p.requests, Noticed(maxLen, p, At(i, l)));
    CoupledEffect(maxLen, p, i, l);
  }

  lemma PooledStep(maxLen: int, p: Pooled, a: PooledAction)
    requires PooledInv(maxLen, p) && Allowed(p, a)
    ensures PooledInv(maxLen, After(maxLen, p, a))
    ensures Pool.ValidRun(p.requests, Steps(maxLen, p, a))
    ensures a.Effect? ==> Enabled(p.system, a.action) && SystemAfter(maxLen, p, a) == Apply(maxLen, p.system, a.action)
  {
    match a {
      case Touch(t) =>
        TouchKeeps(maxLen, p, t);
      case Effect(Arrive(input)) =>
        ArrivalKeeps(maxLen, p, input);
      case Effect(At(i, l)) =>
        EffectKeeps(maxLen, p, i, l);
        EffectIsApply(maxLen, p, i, l);
        EffectNoticed(maxLen, p, i, l);
    }
  }

  // ---------------------------------------------------------------------------------------
  // Refinement of both machines
  // ---------------------------------------------------------------------------------------

  lemma {:induction false} PoolConcat(s: Pool.State, a: seq<Pool.Step>, b: seq<Pool.Step>)
    requires Pool.ValidRun(s, a) && Pool.ValidRun(Pool.RunFrom(s, a), b)
    ensures Pool.ValidRun(s, a + b) && Pool.RunFrom(s, a + b) == Pool.RunFrom(Pool.RunFrom(s, a), b)
    decreases |a|
  {
    if a == [] {
      assert a + b == b;
    } else {
      assert (a + b)[1..] == a[1..] + b;
      PoolConcat(Pool.Next(s, a[0]), a[1..], b);
    }
  }

  lemma {:induction false} PooledProjects(maxLen: int, p: Pooled, run: seq<PooledAction>)
    requires PooledInv(maxLen, p) && PooledRun(maxLen, p, run)
    ensures PooledInv(maxLen, PooledFrom(maxLen, p, run))
    ensures ValidRun(maxLen, p.system, Effects(run))
    ensures RunFrom(maxLen, p.system, Effects(run)) == PooledFrom(maxLen, p, run).system
    ensures Pool.ValidRun(p.requests, PoolSteps(maxLen, p, run))
    ensures Pool.RunFrom(p.requests, PoolSteps(maxLen, p, run)) == PooledFrom(maxLen, p, run).requests
    decreases |run|
  {
    if run != [] {
      var next := After(maxLen, p, run[0]);
      PooledStep(maxLen, p, run[0]);
      PooledProjects(maxLen, next, run[1..]);
      PoolConcat(p.requests, Steps(maxLen, p, run[0]), PoolSteps(maxLen, next, run[1..]));
      if run[0].Effect? {
        assert ([run[0].action] + Effects(run[1..]))[1..] == Effects(run[1..]);
      } else {
        assert [] + Effects(run[1..]) == Effects(run[1..]);
      }
    }
  }

  // ---------------------------------------------------------------------------------------
  // The pool costs no run of the serving system
  // ---------------------------------------------------------------------------------------

  // An iris request whose object needs no attention now: filled and read as soon as the RPC
  // is started, put back as soon as its context is cancelled.
  predicate IsServed(c: Call, r: Pool.PoolCall, w: Option<Features>) {
    c.input.IrisInput? && !c.backend.server.Idle? ==> w.Some? && (c.handler.pc.Closing? ==> r.phase.Finished?)
  }

  predicate ServedAt(p: Pooled, j: nat) {
    Matches(p, j) ==> IsServed(p.system.calls[j], p.requests.calls[j], p.wire[j])
  }

  ghost predicate AreOthersServed(p: Pooled, i: nat) {
    forall j: nat :: j != i ==> ServedAt(p, j)
  }

  ghost predicate AreAllServed(p: Pooled) {
    forall j: nat :: ServedAt(p, j)
  }

  // The object of request i can be attended to now.
  predicate CanAttend(p: Pooled, i: nat) {
    Matches(p, i) ==>
      var c := p.system.calls[i];
      ServedAt(p, i) || IsIrisAt(c, Calling) || (IsIrisAt(c, Closing) && p.wire[i].Some?)
  }

  function Attention(r: Pool.PoolCall, w: Option<Features>): nat {
    match r.phase
    case Ready => 6
    case Filling(_, k) => if k < 4 then 5 - k else 1
    case InCall(_, _) => if w.Some? then 0 else 1
    case Responded(_) => 2
    case WasReset(_) => 1
    case _ => 0
  }

  lemma {:induction false} AddressesBelow(addresses: set<Pool.Ref>) returns (bound: Pool.Ref)
    ensures forall ref :: ref in addresses ==> ref < bound
  {
    if addresses == {} {
      bound := 0;
    } else {
      var ref :| ref in addresses;
      var others := addresses - {ref};
      var rest := AddressesBelow(others);
      assert forall other :: other in addresses ==> other == ref || other in others;
      bound := if ref < rest then rest else ref + 1;
    }
  }

  // The next thing to do with the object of request i.
  lemma NextTouch(maxLen: int, p: Pooled, i: nat) returns (t: Pool.Step)
    requires PooledInv(maxLen, p) && Matches(p, i) && CanAttend(p, i) && !ServedAt(p, i)
    ensures CanTouch(p, t) && !t.Discard? && t.i == i && (p.wire[i].Some? ==> !t.Read?)
    ensures p.system.calls[i].handler.pc.Calling? || p.wire[i].Some?
  {
    var c, r := p.system.calls[i], p.requests.calls[i];
    assert Coupled(c, r, p.wire[i]) && CallInv(maxLen, c);
    match r.phase {
      case Ready =>
        var unused := AddressesBelow(p.requests.heap.Keys);
        t := Pool.Borrow(i, unused);
      case Filling(_, k) => t := if k < 4 then Pool.Assign(i) else Pool.Read(i);
      case InCall(_, _) => t := Pool.Read(i);
      case Responded(_) => t := Pool.Reset(i);
      case _ => t := Pool.Put(i);
    }
  }

  lemma AttentionDrops(maxLen: int, p: Pooled, t: Pool.Step, i: nat)
    requires CanTouch(p, t) && !t.Discard? && t.i == i && (p.wire[i].Some? ==> !t.Read?)
    ensures Attention(Pool.Next(p.requests, t).calls[i], WireAfter(p, Touch(t))[i])
          < Attention(p.requests.calls[i], p.wire[i])
  {
  }

  lemma TouchOneOnly(maxLen: int, p: Pooled, t: Pool.Step, i: nat)
    requires PooledInv(maxLen, p) && CanTouch(p, t) && !t.Discard? && t.i == i
    requires AreOthersServed(p, i) && (p.system.calls[i].handler.pc.Calling? || p.wire[i].Some?)
    ensures AreOthersServed(After(maxLen, p, Touch(t)), i) && CanAttend(After(maxLen, p, Touch(t)), i)
  {
    SingleStep(p.requests, t);
    forall j: nat | j != i
      ensures ServedAt(After(maxLen, p, Touch(t)), j)
    {
      assert ServedAt(p, j);
    }
  }

  lemma ServedAllowsCall(maxLen: int, c: Call, r: Pool.PoolCall, w: Option<Features>, l: Local)
    requires CallInv(maxLen, c) && Coupled(c, r, w) && IsServed(c, r, w) && Can(c, l) && c.input.IrisInput?
    ensures AllowsIris(c, r, w, l)
  {
  }

  lemma ServedAllows(maxLen: int, p: Pooled, a: Action)
    requires PooledInv(maxLen, p) && AreAllServed(p) && Enabled(p.system, a)
    ensures Allowed(p, Effect(a))
  {
    if a.At? {
      var c, r, w := p.system.calls[a.call], p.requests.calls[a.call], p.wire[a.call];
      if c.input.IrisInput? {
        assert ServedAt(p, a.call);
        ServedAllowsCall(maxLen, c, r, w, a.local);
      }
    }
  }

  lemma PooledAppend(maxLen: int, p: Pooled, a: PooledAction, rest: seq<PooledAction>)
    requires Allowed(p, a) && PooledRun(maxLen, After(maxLen, p, a), rest)
    ensures PooledRun(maxLen, p, [a] + rest)
    ensures PooledFrom(maxLen, p, [a] + rest) == PooledFrom(maxLen, After(maxLen, p, a), rest)
    ensures Effects([a] + rest) == (if a.Effect? then [a.action] else []) + Effects(rest)
  {
    assert ([a] + rest)[1..] == rest;
  }

  // After an effect of request i only its own object may need attention.
  lemma EffectAttended(maxLen: int, c: Call, r: Pool.PoolCall, r': Pool.PoolCall, w: Option<Features>, l: Local)
    requires CallInv(maxLen, c) && Can(c, l) && IsServed(c, r, w)
    requires !l.OfHandler? ==> r' == r
    ensures var c' := Step(maxLen, c, l);
            IsServed(c', r', w) || IsIrisAt(c', Calling) || (IsIrisAt(c', Closing) && w.Some?)
  {
  }

  lemma EffectLeavesOthers(maxLen: int, p: Pooled, i: nat, l: Local)
    requires PooledInv(maxLen, p) && AreAllServed(p) && Allowed(p, Effect(At(i, l)))
    ensures var p' := After(maxLen, p, Effect(At(i, l))); AreOthersServed(p', i) && CanAttend(p', i)
  {
    EffectIsApply(maxLen, p, i, l);
    EffectNoticed(maxLen, p, i, l);
    var p' := After(maxLen, p, Effect(At(i, l)));
    forall j: nat | j != i
      ensures ServedAt(p', j)
    {
      assert ServedAt(p, j);
    }
    assert ServedAt(p, i);
    EffectAttended(maxLen, p.system.calls[i], p.requests.calls[i], p'.requests.calls[i], p.wire[i], l);
  }

  lemma ArrivalServed(maxLen: int, p: Pooled, input: Input)
    requires PooledInv(maxLen, p) && AreAllServed(p)
    ensures AreAllServed(After(maxLen, p, Effect(Arrive(input))))
  {
    SingleStep(p.requests, Pool.Arrive(Sent(input), ClassifierOf(input)));
    var p' := After(maxLen, p, Effect(Arrive(input)));
    forall j: nat
      ensures ServedAt(p', j)
    {
      assert ServedAt(p, j);
    }
  }

  lemma TouchAttends(maxLen: int, p: Pooled, i: nat) returns (t: Pool.Step)
    requires PooledInv(maxLen, p) && AreOthersServed(p, i) && Matches(p, i) && CanAttend(p, i) && !ServedAt(p, i)
    ensures CanTouch(p, t)
    ensures var p' := After(maxLen, p, Touch(t));
            && PooledInv(maxLen, p') && AreOthersServed(p', i) && CanAttend(p', i) && Matches(p', i)
            && Attention(p'.requests.calls[i], p'.wire[i]) < Attention(p.requests.calls[i], p.wire[i])
  {
    t := NextTouch(maxLen, p, i);
    AttentionDrops(maxLen, p, t, i);
    TouchOneOnly(maxLen, p, t, i);
    TouchKeeps(maxLen, p, t);
    SingleStep(p.requests, t);
  }

  lemma EffectAttends(maxLen: int, p: Pooled, a: Action) returns (i: nat)
    requires PooledInv(maxLen, p) && AreAllServed(p) && Enabled(p.system, a)
    ensures Allowed(p, Effect(a)) && SystemAfter(maxLen, p, Effect(a)) == Apply(maxLen, p.system, a)
    ensures var p' := After(maxLen, p, Effect(a));
            PooledInv(maxLen, p') && AreOthersServed(p', i) && CanAttend(p', i)
  {
    ServedAllows(maxLen, p, a);
    PooledStep(maxLen, p, Effect(a));
    match a {
      case Arrive(input) =>
        i := 0;
        ArrivalServed(maxLen, p, input);
        assert ServedAt(After(maxLen, p, Effect(a)), 0);
      case At(call, l) =>
        i := call;
        EffectLeavesOthers(maxLen, p, call, l);
    }
  }

  // The run with the pool: after every action what the object of its request needs.
  lemma {:induction false} Lift(maxLen: int, p: Pooled, i: nat, actions: seq<Action>) returns (run: seq<PooledAction>)
    requires PooledInv(maxLen, p) && AreOthersServed(p, i) && CanAttend(p, i) && ValidRun(maxLen, p.system, actions)
    ensures PooledRun(maxLen, p, run) && Effects(run) == actions
    decreases |actions|, if Matches(p, i) then Attention(p.requests.calls[i], p.wire[i]) else 0
  {
    if !ServedAt(p, i) {
      var t := TouchAttends(maxLen, p, i);
      var rest := Lift(maxLen, After(maxLen, p, Touch(t)), i, actions);
      run := [Touch(t)] + rest;
      PooledAppend(maxLen, p, Touch(t), rest);
    } else if actions == [] {
      run := [];
    } else {
      var j := EffectAttends(maxLen, p, actions[0]);
      var rest := Lift(maxLen, After(maxLen, p, Effect(actions[0])), j, actions[1..]);
      run := [Effect(actions[0])] + rest;
      PooledAppend(maxLen, p, Effect(actions[0]), rest);
      assert actions == [actions[0]] + actions[1..];
    }
  }

  // ---------------------------------------------------------------------------------------
  // Results
  // ---------------------------------------------------------------------------------------

  lemma EmptyInv(maxLen: int)
    ensures PooledInv(maxLen, EMPTY) && AreAllServed(EMPTY)
  {
    assert ValidRun(maxLen, INITIAL, []);
    ReachableInv(maxLen, INITIAL);
  }

  // Every run with the pool inlined is a run of the serving system and a run of the pool, so
  // all results about their reachable states hold of it.
  lemma PooledRunProjects(maxLen: int, run: seq<PooledAction>)
    requires PooledRun(maxLen, EMPTY, run)
    ensures ValidRun(maxLen, INITIAL, Effects(run))
    ensures RunFrom(maxLen, INITIAL, Effects(run)) == PooledFrom(maxLen, EMPTY, run).system
    ensures Pool.ValidRun(Pool.START, PoolSteps(maxLen, EMPTY, run))
    ensures Pool.RunFrom(Pool.START, PoolSteps(maxLen, EMPTY, run)) == PooledFrom(maxLen, EMPTY, run).requests
  {
    EmptyInv(maxLen);
    PooledProjects(maxLen, EMPTY, run);
  }

  // And every run of the serving system is one with the pool inlined: the pool neither adds
  // nor loses behaviour.
  lemma ServingRunLifts(maxLen: int, actions: seq<Action>)
    ensures ValidRun(maxLen, INITIAL, actions)
       <==> exists run :: PooledRun(maxLen, EMPTY, run) && Effects(run) == actions
  {
    if ValidRun(maxLen, INITIAL, actions) {
      EmptyInv(maxLen);
      var run := Lift(maxLen, EMPTY, 0, actions);
      assert PooledRun(maxLen, EMPTY, run) && Effects(run) == actions;
    }
    forall run | PooledRun(maxLen, EMPTY, run) && Effects(run) == actions
      ensures ValidRun(maxLen, INITIAL, actions)
    {
      PooledRunProjects(maxLen, run);
    }
  }

  // Of every admitted iris request, in any interleaving of all requests and the collector:
  // what its RPC carries are its caller's own features; pool and gateway agree on its outcome
  // and response; and once its handler has finished its object was put back.
  lemma ObjectServesItsCaller(maxLen: int, run: seq<PooledAction>, i: nat)
    requires PooledRun(maxLen, EMPTY, run) && i < |PooledFrom(maxLen, EMPTY, run).system.calls|
    requires var c := PooledFrom(maxLen, EMPTY, run).system.calls[i]; c.input.IrisInput? && !c.backend.server.Idle?
    ensures Matches(PooledFrom(maxLen, EMPTY, run), i)
    ensures var p := PooledFrom(maxLen, EMPTY, run);
            var c, r := p.system.calls[i], p.requests.calls[i];
            && Complete(c.input.irisBody)
            && (p.wire[i].Some? ==> p.wire[i].value == FeaturesOf(c.input.irisBody))
            && r.outcome == c.handler.outcome && r.response == c.handler.response
            && (c.handler.pc.Finished? ==> r.phase.Finished?)
  {
    EmptyInv(maxLen);
    PooledProjects(maxLen, EMPTY, run);
    var p := PooledFrom(maxLen, EMPTY, run);
    assert Coupled(p.system.calls[i], p.requests.calls[i], p.wire[i]) && CallInv(maxLen, p.system.calls[i]);
    assert Pool.OwnAnswer(p.requests.calls[i]);
  }
}
