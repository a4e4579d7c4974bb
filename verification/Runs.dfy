// Results about every run of the serving system, for any number of requests and any schedule.
module Runs {
  import opened Basics
  import opened Gateway
  import opened Serving
  import opened CallInvariant
  import opened Tallies

  ghost predicate SystemInv(maxLen: int, s: System) {
    && (forall i :: 0 <= i < |s.calls| ==> CallInv(maxLen, s.calls[i]))
    && s.accepted == Total(s.calls, Slots) <= MAX_CONCURRENT_RPCS
    && s.executing == Total(s.calls, Workers) <= MAX_WORKERS
    && (forall k: Key :: Get(s.metrics, k) == Total(s.calls, Metric(k)))
  }

  lemma CallsStep(maxLen: int, s: System, a: Action)
    requires SystemInv(maxLen, s) && Enabled(s, a)
    ensures forall i :: 0 <= i < |Apply(maxLen, s, a).calls| ==> CallInv(maxLen, Apply(maxLen, s, a).calls[i])
  {
    match a {
      case Arrive(input) => NewCallInv(maxLen, input);
      case At(i, l) => StepInv(maxLen, s.calls[i], l);
    }
  }

  lemma SlotsStep(maxLen: int, s: System, a: Action)
    requires SystemInv(maxLen, s) && Enabled(s, a)
    ensures Apply(maxLen, s, a).accepted == Total(Apply(maxLen, s, a).calls, Slots)
  {
    match a {
      case Arrive(input) =>
        TotalAppend(s.calls, NewCall(input), Slots);
      case At(i, l) =>
        SlotsChange(maxLen, s.calls[i], l);
        TotalUpdate(s.calls, i, Step(maxLen, s.calls[i], l), Slots);
    }
  }

  lemma WorkersStep(maxLen: int, s: System, a: Action)
    requires SystemInv(maxLen, s) && Enabled(s, a)
    ensures Apply(maxLen, s, a).executing == Total(Apply(maxLen, s, a).calls, Workers)
  {
    match a {
      case Arrive(input) =>
        TotalAppend(s.calls, NewCall(input), Workers);
      case At(i, l) =>
        SlotsChange(maxLen, s.calls[i], l);
        TotalUpdate(s.calls, i, Step(maxLen, s.calls[i], l), Workers);
    }
  }

  lemma LimitsKept(maxLen: int, s: System, a: Action)
    requires Enabled(s, a) && s.accepted <= MAX_CONCURRENT_RPCS && s.executing <= MAX_WORKERS
    ensures Apply(maxLen, s, a).accepted <= MAX_CONCURRENT_RPCS && Apply(maxLen, s, a).executing <= MAX_WORKERS
  {
  }

  lemma MetricsOfStep(maxLen: int, s: System, i: nat, l: Local, k: Key)
    requires SystemInv(maxLen, s) && Enabled(s, At(i, l))
    ensures Get(Apply(maxLen, s, At(i, l)).metrics, k) == Total(Apply(maxLen, s, At(i, l)).calls, Metric(k))
  {
    var c := s.calls[i];
    assert Get(s.metrics, k) == Total(s.calls, Metric(k));
    TotalUpdate(s.calls, i, Step(maxLen, c, l), Metric(k));
    MetricChange(maxLen, c, l, s.metrics, k);
  }

  lemma MetricsOfArrival(maxLen: int, s: System, input: Input, k: Key)
    requires Get(s.metrics, k) == Total(s.calls, Metric(k))
    ensures Get(Apply(maxLen, s, Arrive(input)).metrics, k) == Total(Apply(maxLen, s, Arrive(input)).calls, Metric(k))
  {
    TotalAppend(s.calls, NewCall(input), Metric(k));
    assert Tally(Metric(k), NewCall(input)) == 0;
  }

  lemma MetricsStep(maxLen: int, s: System, a: Action, k: Key)
    requires SystemInv(maxLen, s) && Enabled(s, a)
    ensures Get(Apply(maxLen, s, a).metrics, k) == Total(Apply(maxLen, s, a).calls, Metric(k))
  {
    match a {
      case Arrive(input) => MetricsOfArrival(maxLen, s, input, k);
      case At(i, l) => MetricsOfStep(maxLen, s, i, l, k);
    }
  }

  lemma SystemStep(maxLen: int, s: System, a: Action)
    requires SystemInv(maxLen, s) && Enabled(s, a)
    ensures SystemInv(maxLen, Apply(maxLen, s, a))
  {
    CallsStep(maxLen, s, a);
    SlotsStep(maxLen, s, a);
    WorkersStep(maxLen, s, a);
    LimitsKept(maxLen, s, a);
    forall k: Key
      ensures Get(Apply(maxLen, s, a).metrics, k) == Total(Apply(maxLen, s, a).calls, Metric(k))
    {
      MetricsStep(maxLen, s, a, k);
    }
  }

  lemma {:induction false} RunKeeps(maxLen: int, s: System, run: seq<Action>)
    requires SystemInv(maxLen, s) && ValidRun(maxLen, s, run)
    ensures SystemInv(maxLen, RunFrom(maxLen, s, run))
    decreases |run|
  {
    if run != [] {
      SystemStep(maxLen, s, run[0]);
      RunKeeps(maxLen, Apply(maxLen, s, run[0]), run[1..]);
    }
  }

  lemma ReachableInv(maxLen: int, s: System)
    requires Reachable(maxLen, s)
    ensures SystemInv(maxLen, s)
  {
    var run :| ValidRun(maxLen, INITIAL, run) && RunFrom(maxLen, INITIAL, run) == s;
    RunKeeps(maxLen, INITIAL, run);
  }

  lemma {:induction false} RunSnoc(maxLen: int, s: System, run: seq<Action>, a: Action)
    requires ValidRun(maxLen, s, run)
    ensures ValidRun(maxLen, s, run + [a]) <==> Enabled(RunFrom(maxLen, s, run), a)
    ensures ValidRun(maxLen, s, run + [a]) ==>
              RunFrom(maxLen, s, run + [a]) == Apply(maxLen, RunFrom(maxLen, s, run), a)
    decreases |run|
  {
    if run == [] {
      assert run + [a] == [a] && [a][1..] == [];
    } else {
      assert (run + [a])[1..] == run[1..] + [a];
      RunSnoc(maxLen, Apply(maxLen, s, run[0]), run[1..], a);
    }
  }

  lemma ReachableStep(maxLen: int, s: System, a: Action)
    requires Reachable(maxLen, s) && Enabled(s, a)
    ensures Reachable(maxLen, Apply(maxLen, s, a))
  {
    var run :| ValidRun(maxLen, INITIAL, run) && RunFrom(maxLen, INITIAL, run) == s;
    RunSnoc(maxLen, INITIAL, run, a);
  }
}
