// The pool of request objects of iris.go under concurrency. Handlers borrow an object, fill
// it field by field, hand it to an RPC, reset it and put it back, in any interleaving; the
// collector may discard pooled objects at any time. The machine refines one in which every
// call allocates its own object and nothing is pooled.
module RequestPool {
  import opened Basics
  import opened ApiErrors
  import opened IrisFeatures
  import opened Servicers
  import opened Gateway

  // An object's address.
  type Ref = nat

  function Assigned(f: Features, k: Index, v: Float): Features {
    if k == 0 then f.(sepalLength := v) else if k == 1 then f.(sepalWidth := v)
    else if k == 2 then f.(petalLength := v) else f.(petalWidth := v)
  }

  // ---------------------------------------------------------------------------------------
  // The handler with its pool
  // ---------------------------------------------------------------------------------------

  datatype Phase =
    | Ready                                    // validated, nothing borrowed
    | Filling(ref: Ref, field: nat)            // about to assign `field`; 4 when done
    | InCall(ref: Ref, seen: Option<Features>) // the RPC may read the object
    | RpcDone(ref: Ref)                       // the RPC returned
    | Responded(ref: Ref)                      // response written, deferred function pending
    | WasReset(ref: Ref)                       // reset, not yet put back
    | Finished

  // `features` is what the caller sent; `classifier` decides what the servicer will answer.
  datatype PoolCall = PoolCall(features: Features, classifier: Classifier, phase: Phase,
                               outcome: Outcome, response: Option<Response>)

  datatype State = State(calls: seq<PoolCall>, heap: map<Ref, Features>, pool: set<Ref>)

  const START := State([], map[], {})

  datatype Step =
    | Arrive(features: Features, classifier: Classifier)
    | Borrow(i: nat, ref: Ref)  // Get: a pooled object, or a new one at a fresh address
    | Assign(i: nat)
    | Read(i: nat)              // the RPC serialises its argument
    | RpcReply(i: nat)          // the servicer's answer to what was read
    | RpcFail(i: nat, err: Error) // the RPC failed
    | Respond(i: nat)
    | Reset(i: nat)
    | Put(i: nat)
    | Discard(ref: Ref)         // the collector drops a pooled object

  predicate CanStep(s: State, a: Step) {
    match a
    case Arrive(_, _) => true
    case Borrow(i, ref) => i < |s.calls| && s.calls[i].phase == Ready && (ref in s.pool || ref !in s.heap)
    case Assign(i) =>
      i < |s.calls| && s.calls[i].phase.Filling? && s.calls[i].phase.field < 4 && s.calls[i].phase.ref in s.heap
    case Read(i) => i < |s.calls| && InRpc(s.calls[i]) && HeldRef(s.calls[i]) in s.heap
    case RpcReply(i) => i < |s.calls| && s.calls[i].phase.InCall? && s.calls[i].phase.seen.Some?
    case RpcFail(i, _) => i < |s.calls| && InRpc(s.calls[i])
    case Respond(i) => i < |s.calls| && s.calls[i].phase.RpcDone?
    case Reset(i) => i < |s.calls| && s.calls[i].phase.Responded? && s.calls[i].phase.ref in s.heap
    case Put(i) => i < |s.calls| && s.calls[i].phase.WasReset?
    case Discard(ref) => ref in s.pool
  }

  // All four fields are assigned and the RPC has not returned.
  predicate InRpc(c: PoolCall) {
    c.phase.InCall? || (c.phase.Filling? && c.phase.field == 4)
  }

  predicate Holds(c: PoolCall) {
    !c.phase.Ready? && !c.phase.Finished?
  }

  function HeldRef(c: PoolCall): Ref
    requires Holds(c)
  {
    c.phase.ref
  }

  function Next(s: State, a: Step): State
    requires CanStep(s, a)
  {
    match a
    case Arrive(features, classifier) => s.(calls := s.calls + [PoolCall(features, classifier, Ready, Undecided, None)])
    case Borrow(i, ref) =>
      State(s.calls[i := s.calls[i].(phase := Filling(ref, 0))],
            if ref in s.pool then s.heap else s.heap[ref := ZERO], s.pool - {ref})
    case Assign(i) =>
      var c := s.calls[i];
      var (ref, k) := (c.phase.ref, c.phase.field);
      s.(calls := s.calls[i := c.(phase := Filling(ref, k + 1))],
         heap := s.heap[ref := Assigned(s.heap[ref], k, Value(c.features, k))])
    case Read(i) =>
      var c := s.calls[i];
      s.(calls := s.calls[i := c.(phase := InCall(HeldRef(c), Some(s.heap[HeldRef(c)])))])
    case RpcReply(i) =>
      var c := s.calls[i];
      var outcome := OutcomeOf(IrisEnd(c.phase.seen.value, c.classifier));
      s.(calls := s.calls[i := c.(phase := RpcDone(HeldRef(c)), outcome := outcome)])
    case RpcFail(i, err) =>
      var c := s.calls[i];
      s.(calls := s.calls[i := c.(phase := RpcDone(HeldRef(c)), outcome := CallFailed(err))])
    case Respond(i) =>
      var c := s.calls[i];
      s.(calls := s.calls[i := c.(phase := Responded(HeldRef(c)), response := Answer(c.outcome))])
    case Reset(i) =>
      var c := s.calls[i];
      s.(calls := s.calls[i := c.(phase := WasReset(HeldRef(c)))], heap := s.heap[HeldRef(c) := ZERO])
    case Put(i) =>
      var c := s.calls[i];
      s.(calls := s.calls[i := c.(phase := Finished)], pool := s.pool + {HeldRef(c)})
    case Discard(ref) => s.(pool := s.pool - {ref})
  }

  predicate ValidRun(s: State, run: seq<Step>)
    decreases |run|
  {
    run == [] || (CanStep(s, run[0]) && ValidRun(Next(s, run[0]), run[1..]))
  }

  function RunFrom(s: State, run: seq<Step>): State
    requires ValidRun(s, run)
    decreases |run|
  {
    if run == [] then s else RunFrom(Next(s, run[0]), run[1..])
  }

  // ---------------------------------------------------------------------------------------
  // The invariant of the pool
  // ---------------------------------------------------------------------------------------

  ghost predicate Owned(s: State) {
    && (forall i :: 0 <= i < |s.calls| && Holds(s.calls[i]) ==>
          HeldRef(s.calls[i]) in s.heap && HeldRef(s.calls[i]) !in s.pool)
    && (forall i, j :: 0 <= i < j < |s.calls| && Holds(s.calls[i]) && Holds(s.calls[j]) ==>
          HeldRef(s.calls[i]) != HeldRef(s.calls[j]))
    && (forall r :: r in s.pool ==> r in s.heap && s.heap[r] == ZERO)
  }

  // The object of a call holds its caller's features as far as they are assigned.
  predicate Content(c: PoolCall, f: Features) {
    match c.phase
    case Filling(_, k) =>
      k <= 4 && forall x: Index | 0 <= x < 4 :: Value(f, x) == if x < k then Value(c.features, x) else Num(0.0)
    case InCall(_, seen) => f == c.features && (seen.Some? ==> seen.value == c.features)
    case WasReset(_) => f == ZERO
    case _ => true
  }

  // The answer is the one the servicer gives to the caller's own features, or an RPC error.
  predicate OwnAnswer(c: PoolCall) {
    && (c.phase.Ready? || c.phase.Filling? || c.phase.InCall? <==> c.outcome.Undecided?)
    && (!c.outcome.Undecided? ==> c.outcome == OutcomeOf(IrisEnd(c.features, c.classifier)) || c.outcome.CallFailed?)
    && c.response == (if c.phase.Responded? || c.phase.WasReset? || c.phase.Finished? then Answer(c.outcome) else None)
  }

  ghost predicate PoolInv(s: State) {
    && Owned(s)
    && (forall i :: 0 <= i < |s.calls| && Holds(s.calls[i]) ==> Content(s.calls[i], s.heap[HeldRef(s.calls[i])]))
    && (forall i :: 0 <= i < |s.calls| ==> OwnAnswer(s.calls[i]))
  }

  // Once all four fields are assigned the object equals the caller's features.
  lemma FilledIsOwn(c: PoolCall, f: Features)
    requires InRpc(c) && Content(c, f)
    ensures f == c.features
  {
    assert Value(f, 0) == Value(c.features, 0) && Value(f, 1) == Value(c.features, 1);
    assert Value(f, 2) == Value(c.features, 2) && Value(f, 3) == Value(c.features, 3);
  }

  lemma AssignedContent(c: PoolCall, f: Features)
    requires c.phase.Filling? && c.phase.field < 4 && Content(c, f)
    ensures var k := c.phase.field;
            Content(c.(phase := Filling(c.phase.ref, k + 1)), Assigned(f, k, Value(c.features, k)))
  {
    var k: Index := c.phase.field;
    forall x: Index
      ensures Value(Assigned(f, k, Value(c.features, k)), x) == if x == k then Value(c.features, k) else Value(f, x)
    {
    }
  }

  lemma OwnedStep(s: State, a: Step)
    requires PoolInv(s) && CanStep(s, a)
    ensures Owned(Next(s, a))
  {
    if a.Put? {
      var c := s.calls[a.i];
      assert Holds(c) && Content(c, s.heap[HeldRef(c)]);
    }
  }

  lemma ContentStep(s: State, a: Step, j: nat)
    requires PoolInv(s) && CanStep(s, a)
    requires j < |Next(s, a).calls| && Holds(Next(s, a).calls[j]) && HeldRef(Next(s, a).calls[j]) in Next(s, a).heap
    ensures Content(Next(s, a).calls[j], Next(s, a).heap[HeldRef(Next(s, a).calls[j])])
  {
    if a.Assign? && a.i == j {
      AssignedContent(s.calls[j], s.heap[HeldRef(s.calls[j])]);
    } else if a.Read? && a.i == j {
      FilledIsOwn(s.calls[j], s.heap[HeldRef(s.calls[j])]);
    }
  }

  lemma AnswerStep(s: State, a: Step)
    requires PoolInv(s) && CanStep(s, a)
    ensures forall i :: 0 <= i < |Next(s, a).calls| ==> OwnAnswer(Next(s, a).calls[i])
  {
    if a.RpcReply? {
      var c := s.calls[a.i];
      assert Holds(c) && Content(c, s.heap[HeldRef(c)]);
    }
  }

  lemma PoolStep(s: State, a: Step)
    requires PoolInv(s) && CanStep(s, a)
    ensures PoolInv(Next(s, a))
  {
    OwnedStep(s, a);
    AnswerStep(s, a);
    var s' := Next(s, a);
    forall j | 0 <= j < |s'.calls| && Holds(s'.calls[j])
      ensures Content(s'.calls[j], s'.heap[HeldRef(s'.calls[j])])
    {
      ContentStep(s, a, j);
    }
  }

  lemma {:induction false} PoolRun(s: State, run: seq<Step>)
    requires PoolInv(s) && ValidRun(s, run)
    ensures PoolInv(RunFrom(s, run))
    decreases |run|
  {
    if run != [] {
      PoolStep(s, run[0]);
      PoolRun(Next(s, run[0]), run[1..]);
    }
  }

  // ---------------------------------------------------------------------------------------
  // The handler without a pool
  // ---------------------------------------------------------------------------------------

  // Every call owns a freshly allocated object, here the value `own`.
  datatype FreshPhase =
    | FreshReady
    | FreshFilling(own: Features, field: nat)
    | FreshInCall(own: Features, seen: Option<Features>)
    | FreshRpcDone
    | FreshResponded
    | FreshFinished

  datatype FreshCall = FreshCall(features: Features, classifier: Classifier, phase: FreshPhase,
                                 outcome: Outcome, response: Option<Response>)

  datatype FreshStep =
    | FreshArrive(features: Features, classifier: Classifier)
    | Allocate(i: nat)
    | FreshAssign(i: nat)
    | FreshRead(i: nat)
    | FreshReply(i: nat)
    | FreshFail(i: nat, err: Error)
    | FreshRespond(i: nat)
    | FreshFinish(i: nat)

  predicate InFreshRpc(c: FreshCall) {
    c.phase.FreshInCall? || (c.phase.FreshFilling? && c.phase.field == 4)
  }

  predicate FreshCanStep(s: seq<FreshCall>, a: FreshStep) {
    match a
    case FreshArrive(_, _) => true
    case Allocate(i) => i < |s| && s[i].phase == FreshReady
    case FreshAssign(i) => i < |s| && s[i].phase.FreshFilling? && s[i].phase.field < 4
    case FreshRead(i) => i < |s| && InFreshRpc(s[i])
    case FreshReply(i) => i < |s| && s[i].phase.FreshInCall? && s[i].phase.seen.Some?
    case FreshFail(i, _) => i < |s| && InFreshRpc(s[i])
    case FreshRespond(i) => i < |s| && s[i].phase.FreshRpcDone?
    case FreshFinish(i) => i < |s| && s[i].phase.FreshResponded?
  }

  function FreshNext(s: seq<FreshCall>, a: FreshStep): seq<FreshCall>
    requires FreshCanStep(s, a)
  {
    match a
    case FreshArrive(features, classifier) => s + [FreshCall(features, classifier, FreshReady, Undecided, None)]
    case Allocate(i) => s[i := s[i].(phase := FreshFilling(ZERO, 0))]
    case FreshAssign(i) =>
      var (own, k) := (s[i].phase.own, s[i].phase.field);
      s[i := s[i].(phase := FreshFilling(Assigned(own, k, Value(s[i].features, k)), k + 1))]
    case FreshRead(i) => s[i := s[i].(phase := FreshInCall(s[i].phase.own, Some(s[i].phase.own)))]
    case FreshReply(i) =>
      s[i := s[i].(phase := FreshRpcDone, outcome := OutcomeOf(IrisEnd(s[i].phase.seen.value, s[i].classifier)))]
    case FreshFail(i, err) => s[i := s[i].(phase := FreshRpcDone, outcome := CallFailed(err))]
    case FreshRespond(i) => s[i := s[i].(phase := FreshResponded, response := Answer(s[i].outcome))]
    case FreshFinish(i) => s[i := s[i].(phase := FreshFinished)]
  }

  predicate FreshValidRun(s: seq<FreshCall>, run: seq<FreshStep>)
    decreases |run|
  {
    run == [] || (FreshCanStep(s, run[0]) && FreshValidRun(FreshNext(s, run[0]), run[1..]))
  }

  function FreshRunFrom(s: seq<FreshCall>, run: seq<FreshStep>): seq<FreshCall>
    requires FreshValidRun(s, run)
    decreases |run|
  {
    if run == [] then s else FreshRunFrom(FreshNext(s, run[0]), run[1..])
  }

  // ---------------------------------------------------------------------------------------
  // Refinement
  // ---------------------------------------------------------------------------------------

  // The view of a call: its object replaced by the object's content.
  function View(c: PoolCall, heap: map<Ref, Features>): FreshCall {
    var own := if Holds(c) && HeldRef(c) in heap then heap[HeldRef(c)] else ZERO;
    var phase := match c.phase
      case Ready => FreshReady
      case Filling(_, k) => FreshFilling(own, k)
      case InCall(_, seen) => FreshInCall(own, seen)
      case RpcDone(_) => FreshRpcDone
      case Responded(_) => FreshResponded
      case WasReset(_) => FreshResponded
      case Finished => FreshFinished;
    FreshCall(c.features, c.classifier, phase, c.outcome, c.response)
  }

  function ViewAll(s: State): seq<FreshCall> {
    seq(|s.calls|, i requires 0 <= i < |s.calls| => View(s.calls[i], s.heap))
  }

  // The step of the pool-free machine that a step stands for; resets and discards have none.
  function Projected(a: Step): seq<FreshStep> {
    match a
    case Arrive(features, classifier) => [FreshArrive(features, classifier)]
    case Borrow(i, _) => [Allocate(i)]
    case Assign(i) => [FreshAssign(i)]
    case Read(i) => [FreshRead(i)]
    case RpcReply(i) => [FreshReply(i)]
    case RpcFail(i, err) => [FreshFail(i, err)]
    case Respond(i) => [FreshRespond(i)]
    case Put(i) => [FreshFinish(i)]
    case Reset(_) => []
    case Discard(_) => []
  }

  function Projection(run: seq<Step>): seq<FreshStep> {
    if run == [] then [] else Projected(run[0]) + Projection(run[1..])
  }

  // The content of another call's object is never touched.
  lemma OtherViews(s: State, a: Step, j: nat)
    requires PoolInv(s) && CanStep(s, a) && j < |s.calls|
    requires a.Arrive? || a.Discard? || a.i != j
    ensures View(Next(s, a).calls[j], Next(s, a).heap) == View(s.calls[j], s.heap)
  {
  }

  lemma OwnView(s: State, a: Step)
    requires PoolInv(s) && CanStep(s, a) && !a.Arrive? && !a.Discard?
    ensures var before, after := ViewAll(s), Next(s, a);
            if a.Reset? then View(after.calls[a.i], after.heap) == before[a.i]
            else FreshCanStep(before, Projected(a)[0])
                 && View(after.calls[a.i], after.heap) == FreshNext(before, Projected(a)[0])[a.i]
  {
    assert ViewAll(s)[a.i] == View(s.calls[a.i], s.heap);
  }

  lemma StepRefines(s: State, a: Step)
    requires PoolInv(s) && CanStep(s, a)
    ensures FreshValidRun(ViewAll(s), Projected(a))
    ensures FreshRunFrom(ViewAll(s), Projected(a)) == ViewAll(Next(s, a))
  {
    var before, after := ViewAll(s), ViewAll(Next(s, a));
    forall j | 0 <= j < |s.calls| && (a.Arrive? || a.Discard? || a.i != j)
      ensures after[j] == before[j]
    {
      OtherViews(s, a, j);
    }
    if !a.Arrive? && !a.Discard? {
      OwnView(s, a);
    }
    if a.Reset? || a.Discard? {
      assert after == before;
    } else {
      assert Projected(a)[1..] == [];
      assert FreshNext(before, Projected(a)[0]) == after;
    }
  }

  lemma {:induction false} RunConcat(s: seq<FreshCall>, a: seq<FreshStep>, b: seq<FreshStep>)
    requires FreshValidRun(s, a) && FreshValidRun(FreshRunFrom(s, a), b)
    ensures FreshValidRun(s, a + b) && FreshRunFrom(s, a + b) == FreshRunFrom(FreshRunFrom(s, a), b)
    decreases |a|
  {
    if a == [] {
      assert a + b == b;
    } else {
      assert (a + b)[1..] == a[1..] + b;
      RunConcat(FreshNext(s, a[0]), a[1..], b);
    }
  }

  lemma {:induction false} RunRefines(s: State, run: seq<Step>)
    requires PoolInv(s) && ValidRun(s, run)
    ensures FreshValidRun(ViewAll(s), Projection(run))
    ensures FreshRunFrom(ViewAll(s), Projection(run)) == ViewAll(RunFrom(s, run))
    decreases |run|
  {
    if run != [] {
      StepRefines(s, run[0]);
      PoolStep(s, run[0]);
      RunRefines(Next(s, run[0]), run[1..]);
      RunConcat(ViewAll(s), Projected(run[0]), Projection(run[1..]));
    }
  }

  // Every run of the handlers with their pool, under every interleaving and every discard,
  // is a run of the handlers that allocate: with the same objects as seen by their RPCs, the
  // same outcomes and the same responses.
  lemma PoolRefinesAllocation(run: seq<Step>)
    requires ValidRun(START, run)
    ensures FreshValidRun([], Projection(run))
    ensures FreshRunFrom([], Projection(run)) == ViewAll(RunFrom(START, run))
  {
    RunRefines(START, run);
  }

  // No request object is both pooled and held, none is held by two calls, and every pooled
  // object is all zero.
  lemma PoolIsClean(run: seq<Step>)
    requires ValidRun(START, run)
    ensures Owned(RunFrom(START, run))
  {
    PoolRun(START, run);
  }

  // Each RPC sees exactly its own caller's features, and each answered call has the response
  // that the servicer gives to those features, unless its RPC failed.
  lemma NoLeakBetweenCalls(run: seq<Step>, i: nat)
    requires ValidRun(START, run) && i < |RunFrom(START, run).calls|
    ensures var c := RunFrom(START, run).calls[i];
            && (c.phase.InCall? && c.phase.seen.Some? ==> c.phase.seen.value == c.features)
            && (c.response.Some? ==>
                  c.response == Answer(OutcomeOf(IrisEnd(c.features, c.classifier)))
                  || (c.outcome.CallFailed? && c.response == Answer(c.outcome)))
  {
    PoolRun(START, run);
    var s := RunFrom(START, run);
    if Holds(s.calls[i]) {
      assert Content(s.calls[i], s.heap[HeldRef(s.calls[i])]);
    }
  }

  ghost predicate IsHeld(s: State, ref: Ref) {
    exists i :: 0 <= i < |s.calls| && Holds(s.calls[i]) && HeldRef(s.calls[i]) == ref
  }

  ghost predicate IsAccountedFor(s: State, ref: Ref, discarded: set<Ref>) {
    ref in s.heap ==> ref in s.pool || IsHeld(s, ref) || ref in discarded
  }

  lemma AccountStep(s: State, a: Step, ref: Ref, discarded: set<Ref>)
    requires PoolInv(s) && CanStep(s, a) && IsAccountedFor(s, ref, discarded)
    ensures IsAccountedFor(Next(s, a), ref, discarded + if a.Discard? then {a.ref} else {})
  {
    var s' := Next(s, a);
    if ref in s.heap && IsHeld(s, ref) {
      var i :| 0 <= i < |s.calls| && Holds(s.calls[i]) && HeldRef(s.calls[i]) == ref;
      assert (a.Put? && a.i == i) || (Holds(s'.calls[i]) && HeldRef(s'.calls[i]) == ref);
    } else if a.Borrow? && a.ref == ref {
      assert Holds(s'.calls[a.i]) && HeldRef(s'.calls[a.i]) == ref;
    }
  }

  lemma {:induction false} AccountRun(s: State, run: seq<Step>, ref: Ref, discarded: set<Ref>)
    requires PoolInv(s) && ValidRun(s, run) && IsAccountedFor(s, ref, discarded)
    ensures IsAccountedFor(RunFrom(s, run), ref, discarded + if Discard(ref) in run then {ref} else {})
    decreases |run|
  {
    if run != [] {
      var now := discarded + if run[0].Discard? then {run[0].ref} else {};
      AccountStep(s, run[0], ref, discarded);
      PoolStep(s, run[0]);
      AccountRun(Next(s, run[0]), run[1..], ref, now);
      assert Discard(ref) in run <==> run[0] == Discard(ref) || Discard(ref) in run[1..];
    }
  }

  // Every object that was ever allocated is pooled, held by a call, or was discarded.
  lemma NothingIsLost(run: seq<Step>, ref: Ref)
    requires ValidRun(START, run) && ref in RunFrom(START, run).heap
    ensures ref in RunFrom(START, run).pool || IsHeld(RunFrom(START, run), ref) || Discard(ref) in run
  {
    AccountRun(START, run, ref, {});
  }

  // The collector may take any pooled object at any time, and nothing else changes.
  lemma CollectorIsFree(s: State, ref: Ref)
    requires ref in s.pool
    ensures CanStep(s, Discard(ref)) && Next(s, Discard(ref)) == State(s.calls, s.heap, s.pool - {ref})
  {
  }
}
