// Admission limits, cancellation, progress and termination.
module Scheduling {
  import opened Basics
  import opened IrisFeatures
  import Servicers
  import opened Gateway
  import opened Serving
  import opened CallInvariant
  import opened Tallies
  import opened Runs

  // ---------------------------------------------------------------------------------------
  // Admission
  // ---------------------------------------------------------------------------------------

  lemma {:induction false} SlotsSplit(calls: seq<Call>)
    ensures Total(calls, Slots) == Total(calls, Workers) + Total(calls, Waiting)
  {
    if calls != [] {
      SlotsSplit(Front(calls));
    }
  }

  // At most MAX_WORKERS calls execute and at most twice as many are accepted; the server's
  // counts are the real ones.
  lemma AdmissionLimits(maxLen: int, s: System)
    requires Reachable(maxLen, s)
    ensures Total(s.calls, Workers) == s.executing <= 10
    ensures Total(s.calls, Workers) + Total(s.calls, Waiting) == s.accepted <= 20
  {
    ReachableInv(maxLen, s);
    SlotsSplit(s.calls);
  }

  // A call is accepted exactly while fewer than 20 are, rejected exactly while 20 are, and
  // dispatched exactly while a worker is free.
  lemma AdmissionIsExact(maxLen: int, s: System, i: nat)
    requires Reachable(maxLen, s) && i < |s.calls|
    ensures s.calls[i].backend.server.Requested? ==> (Enabled(s, At(i, OfServer(Accept))) <==> s.accepted < 20)
    ensures s.calls[i].backend.server.Requested? ==> (Enabled(s, At(i, OfServer(Reject))) <==> s.accepted == 20)
    ensures s.calls[i].backend.server.Queued? ==> (Enabled(s, At(i, OfServer(Dispatch))) <==> s.executing < 10)
  {
    AdmissionLimits(maxLen, s);
  }

  const FLOWER := IrisInput(Measurements(Some(Num(0.0)), Some(Num(0.0)), Some(Num(0.0)), Some(Num(0.0))),
                            list => Servicers.PredictionRaises)
  const CHECK_ALL := OfHandler(Validate([0, 1, 2, 3]))

  lemma FlowerIsAdmitted(maxLen: int)
    ensures CanHandle(NewCall(FLOWER), CHECK_ALL.g)
    ensures Step(maxLen, NewCall(FLOWER), CHECK_ALL).backend.server == Requested
  {
    var order: seq<Index> := [0, 1, 2, 3];
    assert order[0] == 0 && order[1] == 1 && order[2] == 2 && order[3] == 3;
    assert IsOrder(order);
    AdmissibleMeaning(maxLen, FLOWER, order);
  }

  // One more request knocks at the server.
  lemma Knock(maxLen: int, s: System) returns (s': System)
    requires Reachable(maxLen, s)
    ensures Reachable(maxLen, s') && |s'.calls| == |s.calls| + 1 && Last(s'.calls).backend.server.Requested?
    ensures s'.accepted == s.accepted && s'.executing == s.executing
  {
    var i := |s.calls|;
    ReachableStep(maxLen, s, Arrive(FLOWER));
    var arrived := Apply(maxLen, s, Arrive(FLOWER));
    FlowerIsAdmitted(maxLen);
    ReachableStep(maxLen, arrived, At(i, CHECK_ALL));
    s' := Apply(maxLen, arrived, At(i, CHECK_ALL));
  }

  lemma Admit(maxLen: int, s: System) returns (s': System)
    requires Reachable(maxLen, s) && s.accepted < 20
    ensures Reachable(maxLen, s') && s'.accepted == s.accepted + 1
    ensures s'.executing == if s.executing < 10 then s.executing + 1 else s.executing
  {
    s' := Knock(maxLen, s);
    var i := |s.calls|;
    ReachableStep(maxLen, s', At(i, OfServer(Accept)));
    s' := Apply(maxLen, s', At(i, OfServer(Accept)));
    if s.executing < 10 {
      ReachableStep(maxLen, s', At(i, OfServer(Dispatch)));
      s' := Apply(maxLen, s', At(i, OfServer(Dispatch)));
    }
  }

  lemma {:induction false} Crowd(maxLen: int, n: nat) returns (s: System)
    requires n <= 20
    ensures Reachable(maxLen, s) && s.accepted == n && s.executing == if n < 10 then n else 10
  {
    if n == 0 {
      s := INITIAL;
      assert ValidRun(maxLen, INITIAL, []);
    } else {
      s := Crowd(maxLen, n - 1);
      s := Admit(maxLen, s);
    }
  }

  // The limits are reached: 10 calls can execute and 10 more wait, and then one is rejected.
  lemma LimitsAreReached(maxLen: int) returns (s: System)
    ensures Reachable(maxLen, s) && s.executing == 10 && s.accepted == 20
    ensures s.calls != [] && Enabled(s, At(|s.calls| - 1, OfServer(Reject)))
  {
    s := Crowd(maxLen, 20);
    s := Knock(maxLen, s);
  }

  // The pool never takes another call while a worker is free and a call waits. Anything else
  // may happen in the meantime.
  ghost predicate WorkConserving(maxLen: int, s: System, run: seq<Action>)
    requires ValidRun(maxLen, s, run)
    decreases |run|
  {
    run != [] ==>
      && (s.executing < MAX_WORKERS && s.executing < s.accepted ==> !IsAccept(run[0]))
      && WorkConserving(maxLen, Apply(maxLen, s, run[0]), run[1..])
  }

  predicate IsAccept(a: Action) {
    a.At? && a.local == OfServer(Accept)
  }

  lemma WaitingStep(maxLen: int, s: System, a: Action)
    requires SystemInv(maxLen, s) && Enabled(s, a) && s.accepted - s.executing <= 10
    requires s.executing < MAX_WORKERS && s.executing < s.accepted ==> !IsAccept(a)
    ensures Apply(maxLen, s, a).accepted - Apply(maxLen, s, a).executing <= 10
  {
    SlotsSplit(s.calls);
  }

  lemma {:induction false} WaitingRun(maxLen: int, s: System, run: seq<Action>)
    requires ValidRun(maxLen, s, run) && WorkConserving(maxLen, s, run)
    requires SystemInv(maxLen, s) && s.accepted - s.executing <= 10
    ensures RunFrom(maxLen, s, run).accepted - RunFrom(maxLen, s, run).executing <= 10
    decreases |run|
  {
    if run != [] {
      WaitingStep(maxLen, s, run[0]);
      SystemStep(maxLen, s, run[0]);
      WaitingRun(maxLen, Apply(maxLen, s, run[0]), run[1..]);
    }
  }

  // Along every run of a work-conserving pool at most 10 calls wait.
  lemma AtMostTenWait(maxLen: int, run: seq<Action>)
    requires ValidRun(maxLen, INITIAL, run) && WorkConserving(maxLen, INITIAL, run)
    ensures Total(RunFrom(maxLen, INITIAL, run).calls, Waiting) <= 10
  {
    ReachableInv(maxLen, INITIAL) by { assert ValidRun(maxLen, INITIAL, []); }
    WaitingRun(maxLen, INITIAL, run);
    AdmissionLimits(maxLen, RunFrom(maxLen, INITIAL, run));
  }

  lemma WorkerStep(maxLen: int, c: Call, l: Local)
    requires Can(c, l) && HoldsWorker(c.backend.server) && HandlerInv(c) && l != OfServer(Release)
    ensures HoldsWorker(Step(maxLen, c, l).backend.server)
  {
  }

  // A worker is held until the servicer returns: nothing that the handler, the client or
  // any other request does in the meantime frees it.
  lemma {:induction false} WorkerHeldUntilReturn(maxLen: int, s: System, run: seq<Action>, i: nat)
    requires SystemInv(maxLen, s) && ValidRun(maxLen, s, run) && i < |s.calls|
    requires HoldsWorker(s.calls[i].backend.server) && At(i, OfServer(Release)) !in run
    ensures i < |RunFrom(maxLen, s, run).calls|
    ensures HoldsWorker(RunFrom(maxLen, s, run).calls[i].backend.server)
    decreases |run|
  {
    if run != [] {
      assert run[0] in run && forall a :: a in run[1..] ==> a in run;
      if run[0].At? && run[0].call == i {
        WorkerStep(maxLen, s.calls[i], run[0].local);
      }
      SystemStep(maxLen, s, run[0]);
      WorkerHeldUntilReturn(maxLen, Apply(maxLen, s, run[0]), run[1..], i);
    }
  }

  // ---------------------------------------------------------------------------------------
  // Cancellation
  // ---------------------------------------------------------------------------------------

  // How many chunks an inactive stream may have consumed in the end, and yielded in the end.
  function ConsumptionBudget(c: Call): nat {
    var server := c.backend.server;
    c.backend.consumed + One(!server.Got? && !server.Ended? && !server.Returned? && !server.Lost?)
  }

  function YieldBudget(c: Call): nat {
    |Yielded(c)| + One(c.backend.server.Checked?)
  }

  lemma InactiveServerStep(maxLen: int, c: Call, s: ServerStep)
    requires !c.link.active && CanServe(c, s)
    ensures var c' := c.(backend := Served(c, s));
            ConsumptionBudget(c') <= ConsumptionBudget(c) && YieldBudget(c') <= YieldBudget(c)
  {
  }

  lemma InactiveStep(maxLen: int, c: Call, l: Local)
    requires CallInv(maxLen, c) && !c.link.active && Can(c, l)
    ensures var c' := Step(maxLen, c, l);
            !c'.link.active && ConsumptionBudget(c') <= ConsumptionBudget(c) && YieldBudget(c') <= YieldBudget(c)
  {
    match l {
      case OfHandler(g) => YieldedKept(maxLen, c, g);
      case OfServer(s) => InactiveServerStep(maxLen, c, s);
      case OfEnvironment(_) =>
    }
  }

  lemma {:induction false} InactiveRun(maxLen: int, s: System, run: seq<Action>, i: nat)
    requires SystemInv(maxLen, s) && ValidRun(maxLen, s, run) && i < |s.calls| && !s.calls[i].link.active
    ensures i < |RunFrom(maxLen, s, run).calls|
    ensures ConsumptionBudget(RunFrom(maxLen, s, run).calls[i]) <= ConsumptionBudget(s.calls[i])
    ensures YieldBudget(RunFrom(maxLen, s, run).calls[i]) <= YieldBudget(s.calls[i])
    decreases |run|
  {
    if run != [] {
      if run[0].At? && run[0].call == i {
        InactiveStep(maxLen, s.calls[i], run[0].local);
      }
      SystemStep(maxLen, s, run[0]);
      InactiveRun(maxLen, Apply(maxLen, s, run[0]), run[1..], i);
    }
  }

  // Once a stream's context is inactive, whatever happens next, the generator consumes at
  // most one further chunk, and yields nothing but the chunk whose check had already passed.
  lemma CancellationBound(maxLen: int, s: System, run: seq<Action>, i: nat)
    requires Reachable(maxLen, s) && ValidRun(maxLen, s, run) && i < |s.calls| && !s.calls[i].link.active
    ensures i < |RunFrom(maxLen, s, run).calls|
    ensures var c, c' := s.calls[i], RunFrom(maxLen, s, run).calls[i];
            && c'.backend.consumed <= c.backend.consumed + 1
            && |Yielded(c')| <= |Yielded(c)| + One(c.backend.server.Checked?)
  {
    ReachableInv(maxLen, s);
    InactiveRun(maxLen, s, run, i);
  }

  // ---------------------------------------------------------------------------------------
  // Termination
  // ---------------------------------------------------------------------------------------

  function HandlerFuel(pc: Pc): nat {
    match pc
    case Bound => 12
    case Refused => 7
    case Calling => 10
    case Called => 9
    case Recorded => 8
    case Accounted => 7
    case Counted => 6
    case Streaming => 3
    case Holding => 5
    case Charged => 4
    case Leaving => 2
    case Closing => 1
    case Finished => 0
  }

  function ServerFuel(server: Server): nat {
    match server
    case Idle => 6
    case Requested => 5
    case Queued => 4
    case Started => 3
    case Loop => 2
    case Got => 7
    case Checked => 6
    case Ended(_) => 1
    case _ => 0
  }

  // Chunks still to be taken from Ollama, messages in the channel, the terminal result still
  // to come, what the environment can still do, and the two control points.
  function Fuel(c: Call): int {
    6 * (|Chunks(c.input)| - c.backend.consumed) + 3 * |c.backend.channel|
    + 3 * One(!HasTerminal(c.handler.received)) + One(c.link.broken.None?) + One(!c.link.gone) + One(c.link.active)
    + HandlerFuel(c.handler.pc) + ServerFuel(c.backend.server)
  }

  lemma ReceiveBurns(maxLen: int, c: Call, fail: bool)
    requires !HasTerminal(c.handler.received) && CanHandle(c, Receive(fail))
    ensures Fuel(AfterHandler(maxLen, c, Receive(fail))) < Fuel(c)
  {
    var rs, r := c.handler.received, RecvResult(c, fail);
    var c' := AfterHandler(maxLen, c, Receive(fail));
    FrontSnoc(rs, r);
    assert c'.handler == c.handler.(pc := Holding, received := rs + [r]);
    assert HasTerminal(rs + [r]) == !r.Received?;
    assert r.Received? ==> |c'.backend.channel| == |c.backend.channel| - 1;
    assert !r.Received? ==> c'.backend == c.backend;
  }

  lemma HandlerBurns(maxLen: int, c: Call, g: HandlerStep)
    requires HandlerInv(c) && EventInv(c) && CanHandle(c, g)
    ensures Fuel(AfterHandler(maxLen, c, g)) < Fuel(c)
  {
    if g.Receive? {
      ReceiveBurns(maxLen, c, g.fail);
    }
  }

  lemma ServerBurns(c: Call, s: ServerStep)
    requires CanServe(c, s)
    ensures Fuel(c.(backend := Served(c, s))) < Fuel(c)
  {
  }

  lemma LocalBurns(maxLen: int, c: Call, l: Local)
    requires CallInv(maxLen, c) && Can(c, l)
    ensures Fuel(Step(maxLen, c, l)) < Fuel(c)
  {
    match l {
      case OfHandler(g) => HandlerBurns(maxLen, c, g);
      case OfServer(s) => ServerBurns(c, s);
      case OfEnvironment(_) =>
    }
  }

  // Every step of a request decreases its fuel, which is never negative.
  lemma StepBurns(maxLen: int, c: Call, l: Local)
    requires CallInv(maxLen, c) && Can(c, l)
    ensures 0 <= Fuel(Step(maxLen, c, l)) < Fuel(c)
  {
    LocalBurns(maxLen, c, l);
    StepInv(maxLen, c, l);
    ConsumedBounded(maxLen, Step(maxLen, c, l));
  }

  lemma ConsumedBounded(maxLen: int, c: Call)
    requires CallInv(maxLen, c)
    ensures c.backend.consumed <= |Chunks(c.input)|
  {
  }

  function StepsOf(run: seq<Action>, i: nat): nat {
    if run == [] then 0 else One(run[0].At? && run[0].call == i) + StepsOf(run[1..], i)
  }

  // In every schedule a request makes only finitely many steps: no more than its fuel.
  lemma {:induction false} StepsBounded(maxLen: int, s: System, run: seq<Action>, i: nat)
    requires SystemInv(maxLen, s) && ValidRun(maxLen, s, run) && i < |s.calls|
    ensures i < |RunFrom(maxLen, s, run).calls|
    ensures 0 <= Fuel(RunFrom(maxLen, s, run).calls[i]) <= Fuel(s.calls[i]) - StepsOf(run, i)
    decreases |run|
  {
    if run == [] {
      ConsumedBounded(maxLen, s.calls[i]);
    } else {
      if run[0].At? && run[0].call == i {
        StepBurns(maxLen, s.calls[i], run[0].local);
      }
      SystemStep(maxLen, s, run[0]);
      StepsBounded(maxLen, Apply(maxLen, s, run[0]), run[1..], i);
    }
  }

  // A new request makes at most 24 steps, and 6 for each of Ollama's chunks, whoever makes
  // them.
  lemma FreshFuel(maxLen: int, s: System, input: Input, run: seq<Action>)
    requires Reachable(maxLen, s) && ValidRun(maxLen, Apply(maxLen, s, Arrive(input)), run)
    ensures var chunks := if input.StreamInput? && input.source.Streams? then input.source.chunks else [];
            StepsOf(run, |s.calls|) <= 24 + 6 * |chunks|
  {
    ReachableStep(maxLen, s, Arrive(input));
    ReachableInv(maxLen, Apply(maxLen, s, Arrive(input)));
    StepsBounded(maxLen, Apply(maxLen, s, Arrive(input)), run, |s.calls|);
    NewFuel(input);
  }

  lemma NewFuel(input: Input)
    ensures Fuel(NewCall(input)) == 24 + 6 * |Chunks(input)|
  {
  }

  // A request at its end: handler finished and its duration observed, server side idle.
  predicate Settled(c: Call) {
    c.handler.pc.Finished? && (c.backend.server.Idle? || c.backend.server.Lost? || c.backend.server.Returned?)
  }

  ghost predicate SystemCanMove(s: System) {
    exists i: nat, l: Local :: !l.OfEnvironment? && Enabled(s, At(i, l))
  }

  // A servicer that holds a worker can always go on.
  lemma WorkerMoves(maxLen: int, s: System, i: nat)
    requires i < |s.calls| && CallInv(maxLen, s.calls[i]) && HoldsWorker(s.calls[i].backend.server)
    ensures SystemCanMove(s)
  {
    var c := s.calls[i];
    var step := match c.backend.server
                case Started => if c.input.StreamInput? then Generate else Serve
                case Loop => Pull
                case Got => Check
                case Checked => Yield
                case _ => Release;
    assert CanServe(c, step);
    assert Enabled(s, At(i, OfServer(step)));
  }

  lemma HandlerMoves(maxLen: int, s: System, i: nat)
    requires i < |s.calls| && CallInv(maxLen, s.calls[i]) && !s.calls[i].handler.pc.Finished?
    requires s.calls[i].backend.server.Idle? || s.calls[i].backend.server.Lost? || s.calls[i].backend.server.Returned?
    ensures SystemCanMove(s)
  {
    var c := s.calls[i];
    var fail := c.link.broken.Some?;
    var step := match c.handler.pc
                case Bound => Validate([0, 1, 2, 3])
                case Calling => if c.input.StreamInput? then Open(false) else Return(fail)
                case Called => Record
                case Recorded => if HoldsReply(c.handler.outcome) then Account else Count
                case Counted => Commit
                case Streaming => Receive(fail)
                case Holding => if Last(c.handler.received).Received? then Charge else Emit
                case Charged => Emit
                case Leaving => Cancel
                case Closing => Observe
                case _ => Count;
    if c.handler.pc.Bound? {
      assert IsOrder(step.order) by {
        assert step.order[0] == 0 && step.order[1] == 1 && step.order[2] == 2 && step.order[3] == 3;
      }
    }
    assert CanHandle(c, step);
    assert Enabled(s, At(i, OfHandler(step)));
  }

  // No deadlock: as long as some request is not settled, the system itself (without help
  // from the environment) can make a step.
  lemma Progress(maxLen: int, s: System, i: nat)
    requires SystemInv(maxLen, s) && i < |s.calls| && !Settled(s.calls[i])
    ensures SystemCanMove(s)
  {
    if j :| 0 <= j < |s.calls| && HoldsWorker(s.calls[j].backend.server) {
      WorkerMoves(maxLen, s, j);
    } else {
      TotalZero(s.calls, Workers);
      var c := s.calls[i];
      match c.backend.server {
        case Queued =>
          assert Enabled(s, At(i, OfServer(Dispatch)));
        case Requested =>
          assert Enabled(s, At(i, OfServer(if s.accepted < MAX_CONCURRENT_RPCS then Accept else Reject)));
        case _ =>
          HandlerMoves(maxLen, s, i);
      }
    }
  }

  ghost predicate IsAtRest(s: System) {
    (forall i :: 0 <= i < |s.calls| ==> Settled(s.calls[i])) && s.accepted == 0 && s.executing == 0
  }

  // Where the system cannot move any more, every request is settled and every slot is free.
  lemma StuckIsAtRest(maxLen: int, s: System)
    requires SystemInv(maxLen, s) && !SystemCanMove(s)
    ensures IsAtRest(s)
  {
    forall i | 0 <= i < |s.calls|
      ensures Settled(s.calls[i])
    {
      if !Settled(s.calls[i]) {
        Progress(maxLen, s, i);
      }
    }
    TotalZero(s.calls, Slots);
    TotalZero(s.calls, Workers);
  }

  function TotalFuel(calls: seq<Call>): int {
    if calls == [] then 0 else TotalFuel(Front(calls)) + Fuel(Last(calls))
  }

  lemma {:induction false} TotalFuelUpdate(calls: seq<Call>, i: nat, c: Call)
    requires i < |calls|
    ensures TotalFuel(calls[i := c]) == TotalFuel(calls) - Fuel(calls[i]) + Fuel(c)
  {
    if i < |calls| - 1 {
      TotalFuelUpdate(Front(calls), i, c);
      assert Front(calls[i := c]) == Front(calls)[i := c];
    } else {
      assert Front(calls[i := c]) == Front(calls);
    }
  }

  lemma {:induction false} TotalFuelBounded(maxLen: int, calls: seq<Call>)
    requires forall i :: 0 <= i < |calls| ==> CallInv(maxLen, calls[i])
    ensures 0 <= TotalFuel(calls)
  {
    if calls != [] {
      TotalFuelBounded(maxLen, Front(calls));
      ConsumedBounded(maxLen, Last(calls));
    }
  }

  lemma SystemBurns(maxLen: int, s: System, a: Action)
    requires SystemInv(maxLen, s) && Enabled(s, a) && a.At?
    ensures 0 <= TotalFuel(Apply(maxLen, s, a).calls) < TotalFuel(s.calls)
  {
    StepBurns(maxLen, s.calls[a.call], a.local);
    TotalFuelUpdate(s.calls, a.call, Step(maxLen, s.calls[a.call], a.local));
    CallsStep(maxLen, s, a);
    TotalFuelBounded(maxLen, Apply(maxLen, s, a).calls);
  }

  // Termination: after the last arrival every schedule, including all that the environment
  // does, comes to its end within the total fuel.
  lemma {:induction false} EveryRunEnds(maxLen: int, s: System, run: seq<Action>)
    requires SystemInv(maxLen, s) && ValidRun(maxLen, s, run) && forall a :: a in run ==> a.At?
    ensures |run| <= TotalFuel(s.calls)
    decreases |run|
  {
    if run == [] {
      TotalFuelBounded(maxLen, s.calls);
    } else {
      SystemBurns(maxLen, s, run[0]);
      SystemStep(maxLen, s, run[0]);
      EveryRunEnds(maxLen, Apply(maxLen, s, run[0]), run[1..]);
    }
  }

  // From every reachable state the system can come to rest by its own steps.
  lemma {:induction false} RestIsReachable(maxLen: int, s: System) returns (run: seq<Action>)
    requires SystemInv(maxLen, s)
    ensures ValidRun(maxLen, s, run) && IsAtRest(RunFrom(maxLen, s, run))
    ensures forall a :: a in run ==> a.At? && !a.local.OfEnvironment?
    decreases TotalFuel(s.calls)
  {
    if SystemCanMove(s) {
      var i: nat, l: Local :| !l.OfEnvironment? && Enabled(s, At(i, l));
      var a := At(i, l);
      SystemBurns(maxLen, s, a);
      SystemStep(maxLen, s, a);
      var rest := RestIsReachable(maxLen, Apply(maxLen, s, a));
      run := [a] + rest;
      assert run[1..] == rest;
    } else {
      StuckIsAtRest(maxLen, s);
      run := [];
    }
  }

  // The three together, for a state the system can really be in: schedules end, they end
  // with every handler finished, its duration observed and every worker free, and such an
  // end can always be reached without the environment.
  lemma EveryScheduleFinishes(maxLen: int, s: System, run: seq<Action>) returns (finish: seq<Action>)
    requires Reachable(maxLen, s) && ValidRun(maxLen, s, run) && forall a :: a in run ==> a.At?
    ensures |run| <= TotalFuel(s.calls)
    ensures !SystemCanMove(RunFrom(maxLen, s, run)) ==> IsAtRest(RunFrom(maxLen, s, run))
    ensures ValidRun(maxLen, RunFrom(maxLen, s, run), finish)
    ensures IsAtRest(RunFrom(maxLen, RunFrom(maxLen, s, run), finish))
    ensures forall a :: a in finish ==> a.At? && !a.local.OfEnvironment?
  {
    ReachableInv(maxLen, s);
    EveryRunEnds(maxLen, s, run);
    RunKeeps(maxLen, s, run);
    var end := RunFrom(maxLen, s, run);
    if !SystemCanMove(end) {
      StuckIsAtRest(maxLen, end);
    }
    finish := RestIsReachable(maxLen, end);
  }
}
