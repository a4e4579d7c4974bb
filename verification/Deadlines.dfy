// Write deadlines: whether what a model route writes, a timeout answer included, leaves the
// gateway before the connection's write deadline. Every effect of a handler gets a duration,
// in nanoseconds; the write deadline is armed just before the handler starts.
module Deadlines {
  import opened Basics
  import opened ApiErrors
  import opened IrisFeatures
  import opened Servicers
  import opened Gateway
  import opened Serving
  import opened CallInvariant
  import opened Runs
  import StreamResults
  import opened Configuration
  import Utf8

  // An action, and the time its handler took for it since its own previous effect (reading
  // the request body belongs to Validate). What server and environment do in the meantime
  // takes no handler time of its own.
  datatype Timed = Timed(action: Action, took: nat)

  function Actions(run: seq<Timed>): seq<Action> {
    if run == [] then [] else Actions(Front(run)) + [Last(run).action]
  }

  ghost predicate IsTimedRun(maxLen: int, run: seq<Timed>) {
    ValidRun(maxLen, INITIAL, Actions(run))
  }

  ghost function StateAfter(maxLen: int, run: seq<Timed>): System
    requires IsTimedRun(maxLen, run)
  {
    RunFrom(maxLen, INITIAL, Actions(run))
  }

  predicate IsHandlerStep(t: Timed, i: nat) {
    t.action.At? && t.action.call == i && t.action.local.OfHandler?
  }

  // The steps in which the handler waits for its RPC.
  predicate IsWait(t: Timed, i: nat) {
    IsHandlerStep(t, i) && var g := t.action.local.g; g.Open? || g.Return? || g.Receive?
  }

  predicate IsValidation(t: Timed, i: nat) {
    IsHandlerStep(t, i) && t.action.local.g.Validate?
  }

  // The steps that write to the connection.
  predicate IsWrite(t: Timed, i: nat) {
    IsHandlerStep(t, i) && (t.action.local.g.Commit? || t.action.local.g.Emit?)
  }

  // Of one request: the time since its write deadline was armed, how much of it was spent
  // outside the RPC, and when context.WithTimeout started the clock of the RPC.
  datatype Watch = Watch(clock: nat, outside: nat, rpcStart: nat)

  function Tick(w: Watch, t: Timed, i: nat): Watch {
    if !IsHandlerStep(t, i) then w
    else
      var clock := w.clock + t.took;
      Watch(clock,
            if IsWait(t, i) then w.outside else w.outside + t.took,
            if IsValidation(t, i) then clock else w.rpcStart)
  }

  function WatchOf(run: seq<Timed>, i: nat): Watch {
    if run == [] then Watch(0, 0, 0) else Tick(WatchOf(Front(run), i), Last(run), i)
  }

  function Positive(model: int): nat {
    if model < 0 then 0 else model
  }

  // The RPC context expires ModelTimeout after it was made, at once if that is not positive:
  // a wait that is under way then ends, and a later one takes no time.
  ghost predicate IsPunctual(model: int, run: seq<Timed>, i: nat) {
    forall k :: 0 <= k < |run| && IsWait(run[k], i) ==> Expires(model, run, k, i)
  }

  predicate Expires(model: int, run: seq<Timed>, k: int, i: nat)
    requires 0 <= k < |run|
  {
    run[k].took == 0 || WatchOf(run[..k + 1], i).clock <= WatchOf(run[..k], i).rpcStart + Positive(model)
  }

  predicate InTime(write: int, run: seq<Timed>, k: int, i: nat)
    requires 0 <= k < |run|
  {
    write <= 0 || WatchOf(run[..k + 1], i).clock <= write
  }

  // A run with a request on a model route that spends at most 15 s outside its RPC.
  ghost predicate IsBrisk(maxLen: int, model: int, run: seq<Timed>, i: nat) {
    && IsTimedRun(maxLen, run) && IsPunctual(model, run, i)
    && i < |StateAfter(maxLen, run).calls| && !StateAfter(maxLen, run).calls[i].input.IrisInput?
    && WatchOf(run, i).outside <= 15 * SECOND
  }

  // Everything such a request writes is written in time.
  ghost predicate HeadroomHolds(maxLen: int, write: int, model: int) {
    forall run, i: nat, k :: IsBrisk(maxLen, model, run, i) && 0 <= k < |run| && IsWrite(run[k], i) ==>
      InTime(write, run, k, i)
  }

  // ---------------------------------------------------------------------------------------
  // No write is later than the RPC's time and the rest together
  // ---------------------------------------------------------------------------------------

  lemma {:induction false} PrefixRun(maxLen: int, s: System, run: seq<Action>, a: Action)
    requires ValidRun(maxLen, s, run + [a])
    ensures ValidRun(maxLen, s, run)
    decreases |run|
  {
    if run != [] {
      assert (run + [a])[1..] == run[1..] + [a];
      PrefixRun(maxLen, Apply(maxLen, s, run[0]), run[1..], a);
    }
  }

  // A timed run is a shorter one and one more enabled action.
  lemma LastStep(maxLen: int, run: seq<Timed>)
    requires IsTimedRun(maxLen, run) && run != []
    ensures IsTimedRun(maxLen, Front(run))
    ensures var s := StateAfter(maxLen, Front(run));
            Enabled(s, Last(run).action) && StateAfter(maxLen, run) == Apply(maxLen, s, Last(run).action)
  {
    PrefixRun(maxLen, INITIAL, Actions(Front(run)), Last(run).action);
    RunSnoc(maxLen, INITIAL, Actions(Front(run)), Last(run).action);
  }

  lemma FrontPunctual(model: int, run: seq<Timed>, i: nat)
    requires IsPunctual(model, run, i) && run != []
    ensures IsPunctual(model, Front(run), i)
    ensures IsWait(Last(run), i) ==>
              || Last(run).took == 0
              || WatchOf(run, i).clock <= WatchOf(Front(run), i).rpcStart + Positive(model)
  {
    var n := |run| - 1;
    assert run[..n + 1] == run;
    forall k | 0 <= k < n && IsWait(Front(run)[k], i)
      ensures Expires(model, Front(run), k, i)
    {
      assert Front(run)[..k + 1] == run[..k + 1] && Front(run)[..k] == run[..k];
      assert IsWait(run[k], i) && Expires(model, run, k, i);
    }
  }

  predicate HasNoRpc(s: System, i: nat) {
    i < |s.calls| ==> s.calls[i].backend.server.Idle?
  }

  lemma RpcHandlerStep(maxLen: int, c: Call, g: HandlerStep)
    requires DecisionInv(maxLen, c) && HandlerInv(c) && CanHandle(c, g)
    ensures AfterHandler(maxLen, c, g).backend.server.Idle? ==> c.backend.server.Idle?
    ensures g.Validate? ==> c.backend.server.Idle?
    ensures g.Open? || g.Return? || g.Receive? ==> !AfterHandler(maxLen, c, g).backend.server.Idle?
  {
  }

  lemma RpcServerStep(c: Call, s: ServerStep)
    requires CanServe(c, s)
    ensures !c.backend.server.Idle? && !Served(c, s).server.Idle?
  {
  }

  lemma RpcStep(maxLen: int, c: Call, l: Local)
    requires DecisionInv(maxLen, c) && HandlerInv(c) && Can(c, l)
    ensures Step(maxLen, c, l).backend.server.Idle? ==> c.backend.server.Idle?
    ensures l.OfHandler? && l.g.Validate? ==> c.backend.server.Idle?
    ensures l.OfHandler? && (l.g.Open? || l.g.Return? || l.g.Receive?) ==> !Step(maxLen, c, l).backend.server.Idle?
  {
    match l {
      case OfHandler(g) => RpcHandlerStep(maxLen, c, g);
      case OfServer(s) => RpcServerStep(c, s);
      case OfEnvironment(_) =>
    }
  }

  lemma TimedStep(maxLen: int, s: System, t: Timed, i: nat)
    requires SystemInv(maxLen, s) && Enabled(s, t.action)
    ensures var s' := Apply(maxLen, s, t.action);
            && (HasNoRpc(s', i) ==> HasNoRpc(s, i))
            && (IsValidation(t, i) ==> HasNoRpc(s, i))
            && (IsWait(t, i) ==> !HasNoRpc(s', i))
  {
    if t.action.At? {
      RpcStep(maxLen, s.calls[t.action.call], t.action.local);
    }
  }

  ghost predicate ClockInv(model: int, s: System, w: Watch, i: nat) {
    && (HasNoRpc(s, i) ==> w.clock == w.outside)
    && w.rpcStart <= w.outside <= w.clock <= w.outside + Positive(model)
  }

  lemma {:induction false} ClockBounded(maxLen: int, model: int, run: seq<Timed>, i: nat)
    requires IsTimedRun(maxLen, run) && IsPunctual(model, run, i)
    ensures ClockInv(model, StateAfter(maxLen, run), WatchOf(run, i), i)
    ensures SystemInv(maxLen, StateAfter(maxLen, run))
  {
    ReachableInv(maxLen, StateAfter(maxLen, run));
    if run != [] {
      LastStep(maxLen, run);
      FrontPunctual(model, run, i);
      ClockBounded(maxLen, model, Front(run), i);
      TimedStep(maxLen, StateAfter(maxLen, Front(run)), Last(run), i);
    }
  }

  // No prompt is admitted under a limit below one, so no RPC is ever made.
  function RpcBudget(maxLen: int, model: int): nat {
    if maxLen < 1 then 0 else Positive(model)
  }

  lemma AdmissibleNeedsRoom(maxLen: int, input: Input)
    requires !input.IrisInput? && Admissible(maxLen, input)
    ensures maxLen >= 1
  {
    Utf8.RuneCountOfEncoding(input.body.text);
  }

  // What a request has taken is at most what it spent outside its RPC and the budget of that.
  lemma BriskClock(maxLen: int, model: int, run: seq<Timed>, i: nat)
    requires IsTimedRun(maxLen, run) && IsPunctual(model, run, i)
    requires var s := StateAfter(maxLen, run); i < |s.calls| ==> !s.calls[i].input.IrisInput?
    ensures WatchOf(run, i).clock <= WatchOf(run, i).outside + RpcBudget(maxLen, model)
  {
    ClockBounded(maxLen, model, run, i);
    var s := StateAfter(maxLen, run);
    if maxLen < 1 && !HasNoRpc(s, i) {
      AdmissibleNeedsRoom(maxLen, s.calls[i].input);
    }
  }

  // Time outside the RPC only grows, and the input of a request never changes.
  lemma {:induction false} PrefixFacts(maxLen: int, model: int, run: seq<Timed>, n: nat, i: nat)
    requires IsTimedRun(maxLen, run) && IsPunctual(model, run, i) && n <= |run|
    ensures IsTimedRun(maxLen, run[..n]) && IsPunctual(model, run[..n], i)
    ensures WatchOf(run[..n], i).outside <= WatchOf(run, i).outside
    ensures var s, s' := StateAfter(maxLen, run[..n]), StateAfter(maxLen, run);
            i < |s.calls| ==> i < |s'.calls| && s.calls[i].input == s'.calls[i].input
  {
    if n == |run| {
      assert run[..n] == run;
    } else {
      LastStep(maxLen, run);
      FrontPunctual(model, run, i);
      assert Front(run)[..n] == run[..n];
      PrefixFacts(maxLen, model, Front(run), n, i);
    }
  }

  // Enough time: every write is in time.
  lemma WriteInTime(maxLen: int, write: int, model: int, run: seq<Timed>, i: nat, k: nat)
    requires IsBrisk(maxLen, model, run, i) && k < |run|
    requires write <= 0 || write >= RpcBudget(maxLen, model) + 15 * SECOND
    ensures InTime(write, run, k, i)
  {
    PrefixFacts(maxLen, model, run, k + 1, i);
    BriskClock(maxLen, model, run[..k + 1], i);
  }

  // ---------------------------------------------------------------------------------------
  // The answer as a whole
  // ---------------------------------------------------------------------------------------

  // The write after which the connection has everything that the request ever shows.
  ghost predicate CompletedBy(maxLen: int, run: seq<Timed>, k: int, i: nat)
    requires IsTimedRun(maxLen, run) && i < |StateAfter(maxLen, run).calls|
  {
    && 0 <= k < |run| && IsWrite(run[k], i) && IsTimedRun(maxLen, run[..k + 1])
    && i < |StateAfter(maxLen, run[..k + 1]).calls|
    && var h, h' := StateAfter(maxLen, run[..k + 1]).calls[i].handler, StateAfter(maxLen, run).calls[i].handler;
       h.response == h'.response && h.events == h'.events
  }

  lemma OnlyWritesShow(maxLen: int, s: System, t: Timed, i: nat)
    requires Enabled(s, t.action) && !IsWrite(t, i) && i < |Apply(maxLen, s, t.action).calls|
    ensures var h' := Apply(maxLen, s, t.action).calls[i].handler;
            if i < |s.calls| then h'.response == s.calls[i].handler.response && h'.events == s.calls[i].handler.events
            else h'.response.None? && h'.events == []
  {
  }

  lemma {:induction false} SomeWriteCompletes(maxLen: int, run: seq<Timed>, i: nat)
    requires IsTimedRun(maxLen, run) && i < |StateAfter(maxLen, run).calls|
    requires var h := StateAfter(maxLen, run).calls[i].handler; h.response.Some? || h.events != []
    ensures exists k :: CompletedBy(maxLen, run, k, i)
  {
    var n := |run| - 1;
    if run != [] {
      LastStep(maxLen, run);
      if IsWrite(run[n], i) {
        assert run[..n + 1] == run;
        assert CompletedBy(maxLen, run, n, i);
      } else {
        OnlyWritesShow(maxLen, StateAfter(maxLen, Front(run)), Last(run), i);
        SomeWriteCompletes(maxLen, Front(run), i);
        var k :| CompletedBy(maxLen, Front(run), k, i);
        assert Front(run)[..k + 1] == run[..k + 1];
        assert CompletedBy(maxLen, run, k, i);
      }
    }
  }

  // With the headroom, a finished request whose client stayed has had its whole answer (200,
  // refusal, 504 or other error, or every event with the final one) before the deadline.
  lemma AnswerInTime(maxLen: int, write: int, model: int, run: seq<Timed>, i: nat)
    requires IsBrisk(maxLen, model, run, i) && HeadroomHolds(maxLen, write, model)
    requires var c := StateAfter(maxLen, run).calls[i]; c.handler.pc.Finished? && !c.link.gone
    ensures exists k :: CompletedBy(maxLen, run, k, i) && InTime(write, run, k, i)
  {
    StreamResults.StreamShape(maxLen, StateAfter(maxLen, run), i);
    SomeWriteCompletes(maxLen, run, i);
    var k :| CompletedBy(maxLen, run, k, i);
    assert InTime(write, run, k, i);
  }

  // ---------------------------------------------------------------------------------------
  // Too little time: runs whose write is late
  // ---------------------------------------------------------------------------------------

  // A run of one request.
  ghost predicate Reaches(maxLen: int, model: int, run: seq<Timed>, c: Call, w: Watch) {
    IsTimedRun(maxLen, run) && IsPunctual(model, run, 0) && StateAfter(maxLen, run).calls == [c] && WatchOf(run, 0) == w
  }

  predicate IsFree(l: Local) {
    l != OfServer(Accept) && l != OfServer(Reject) && l != OfServer(Dispatch)
  }

  lemma PunctualSnoc(model: int, run: seq<Timed>, t: Timed, i: nat)
    requires IsPunctual(model, run, i)
    requires IsWait(t, i) ==> WatchOf(run, i).clock + t.took <= WatchOf(run, i).rpcStart + Positive(model)
    ensures IsPunctual(model, run + [t], i) && WatchOf(run + [t], i) == Tick(WatchOf(run, i), t, i)
  {
    var longer := run + [t];
    FrontSnoc(run, t);
    assert longer[..|run|] == run && longer[..|run| + 1] == longer;
    forall k | 0 <= k < |longer| && IsWait(longer[k], i)
      ensures Expires(model, longer, k, i)
    {
      if k < |run| {
        assert longer[..k + 1] == run[..k + 1] && longer[..k] == run[..k];
        assert Expires(model, run, k, i);
      }
    }
  }

  lemma Continue(maxLen: int, model: int, run: seq<Timed>, c: Call, w: Watch, l: Local, took: nat)
    requires Reaches(maxLen, model, run, c, w) && Can(c, l) && IsFree(l)
    requires IsWait(Timed(At(0, l), took), 0) ==> w.clock + took <= w.rpcStart + Positive(model)
    ensures var t := Timed(At(0, l), took);
            Reaches(maxLen, model, run + [t], Step(maxLen, c, l), Tick(w, t, 0))
  {
    var t := Timed(At(0, l), took);
    PunctualSnoc(model, run, t, 0);
    FrontSnoc(run, t);
    assert Actions(run + [t]) == Actions(run) + [t.action];
    RunSnoc(maxLen, INITIAL, Actions(run), t.action);
  }

  lemma Begin(maxLen: int, model: int, input: Input)
    ensures Reaches(maxLen, model, [Timed(Arrive(input), 0)], NewCall(input), Watch(0, 0, 0))
  {
    var t := Timed(Arrive(input), 0);
    PunctualSnoc(model, [], t, 0);
    assert [] + [t] == [t] && Front([t]) == [] && Last([t]) == t;
    assert Actions([t]) == [] + [Arrive(input)];
    assert ValidRun(maxLen, INITIAL, []) && Enabled(INITIAL, Arrive(input));
    RunSnoc(maxLen, INITIAL, [], Arrive(input));
    assert Apply(maxLen, INITIAL, Arrive(input)).calls == [NewCall(input)];
  }

  const EXPIRY := Status(DeadlineExceeded, "context deadline exceeded")
  const ASKED := ModelInput(Prompt([65]), "", GenerateRaises(OtherException("")))
  const STREAMED := StreamInput(Prompt([65]), "", Streams([], None))
  const GARBLED := ModelInput(MalformedPrompt("EOF"), "", GenerateRaises(OtherException("")))

  function Stage(input: Input, pc: Pc, o: Outcome, broken: Option<Error>, server: Server): Call {
    Call(input, Handler(pc, o, [], [], None), Link(false, broken, false, true), Backend(server, 0, []))
  }

  const DECIDE := OfHandler(Validate([0, 1, 2, 3]))

  lemma CanDecide(input: Input)
    ensures Can(NewCall(input), DECIDE)
  {
    var order: seq<Index> := [0, 1, 2, 3];
    assert order[0] == 0 && order[1] == 1 && order[2] == 2 && order[3] == 3;
  }

  lemma AskedIsAdmitted(maxLen: int, input: Input)
    requires maxLen >= 1 && (input == ASKED || input == STREAMED)
    ensures Can(NewCall(input), DECIDE)
    ensures Step(maxLen, NewCall(input), DECIDE) == Stage(input, Calling, Undecided, None, Requested)
  {
    CanDecide(input);
    Utf8.RuneCountOfEncoding([65]);
  }

  lemma GarbledIsRefused(maxLen: int)
    ensures Can(NewCall(GARBLED), DECIDE)
    ensures Step(maxLen, NewCall(GARBLED), DECIDE) == Stage(GARBLED, Refused, Invalid("EOF"), None, Idle)
  {
    CanDecide(GARBLED);
  }

  // An admitted prompt, read and validated in 14 s.
  lemma AdmittedRun(maxLen: int, model: nat, input: Input) returns (run: seq<Timed>)
    requires maxLen >= 1 && (input == ASKED || input == STREAMED)
    ensures Reaches(maxLen, model, run, Stage(input, Calling, Undecided, None, Requested),
                    Watch(14 * SECOND, 14 * SECOND, 14 * SECOND))
  {
    Begin(maxLen, model, input);
    run := [Timed(Arrive(input), 0)];
    AskedIsAdmitted(maxLen, input);
    Continue(maxLen, model, run, NewCall(input), Watch(0, 0, 0), DECIDE, 14 * SECOND);
    run := run + [Timed(At(0, DECIDE), 14 * SECOND)];
  }

  // Its RPC, or the creation of its client stream, expires after exactly the timeout.
  lemma ExpiredRun(maxLen: int, model: nat, input: Input) returns (run: seq<Timed>)
    requires maxLen >= 1 && (input == ASKED || input == STREAMED)
    ensures Reaches(maxLen, model, run, Stage(input, Called, CallFailed(EXPIRY), Some(EXPIRY), Requested),
                    Watch(14 * SECOND + model, 14 * SECOND, 14 * SECOND))
  {
    run := AdmittedRun(maxLen, model, input);
    var w := Watch(14 * SECOND, 14 * SECOND, 14 * SECOND);
    var expire := OfEnvironment(Break(EXPIRY));
    Continue(maxLen, model, run, Stage(input, Calling, Undecided, None, Requested), w, expire, 0);
    run := run + [Timed(At(0, expire), 0)];
    var give := OfHandler(if input.StreamInput? then Open(true) else Return(true));
    Continue(maxLen, model, run, Stage(input, Calling, Undecided, Some(EXPIRY), Requested), w, give, model);
    run := run + [Timed(At(0, give), model)];
  }

  lemma CountedRun(maxLen: int, model: nat, input: Input) returns (run: seq<Timed>)
    requires maxLen >= 1 && (input == ASKED || input == STREAMED)
    ensures Reaches(maxLen, model, run, Stage(input, Counted, CallFailed(EXPIRY), Some(EXPIRY), Requested),
                    Watch(14 * SECOND + model, 14 * SECOND, 14 * SECOND))
  {
    run := ExpiredRun(maxLen, model, input);
    var failed, w := CallFailed(EXPIRY), Watch(14 * SECOND + model, 14 * SECOND, 14 * SECOND);
    Continue(maxLen, model, run, Stage(input, Called, failed, Some(EXPIRY), Requested), w, OfHandler(Record), 0);
    run := run + [Timed(At(0, OfHandler(Record)), 0)];
    Continue(maxLen, model, run, Stage(input, Recorded, failed, Some(EXPIRY), Requested), w, OfHandler(Count), 0);
    run := run + [Timed(At(0, OfHandler(Count)), 0)];
  }

  // ... and its 504 answer takes the last second of the headroom.
  lemma LateTimeoutRun(maxLen: int, model: nat, input: Input) returns (run: seq<Timed>)
    requires maxLen >= 1 && (input == ASKED || input == STREAMED)
    ensures IsBrisk(maxLen, model, run, 0) && run != [] && IsWrite(Last(run), 0)
    ensures WatchOf(run, 0).clock == model + 15 * SECOND
    ensures StateAfter(maxLen, run).calls[0].handler.response
         == Some(Json(504, ErrorBody(ApiError("MODEL_TIMEOUT", "context deadline exceeded"))))
  {
    run := CountedRun(maxLen, model, input);
    var counted := Stage(input, Counted, CallFailed(EXPIRY), Some(EXPIRY), Requested);
    var w := Watch(14 * SECOND + model, 14 * SECOND, 14 * SECOND);
    FailureAnswer(EXPIRY);
    Continue(maxLen, model, run, counted, w, OfHandler(Commit), SECOND);
    run := run + [Timed(At(0, OfHandler(Commit)), SECOND)];
  }

  // A stream that is open after 14 s.
  lemma OpenedRun(maxLen: int, model: nat) returns (run: seq<Timed>)
    requires maxLen >= 1
    ensures Reaches(maxLen, model, run, Stage(STREAMED, Streaming, Opened, None, Requested),
                    Watch(14 * SECOND, 14 * SECOND, 14 * SECOND))
  {
    run := AdmittedRun(maxLen, model, STREAMED);
    var w := Watch(14 * SECOND, 14 * SECOND, 14 * SECOND);
    var create := OfHandler(Open(false));
    Continue(maxLen, model, run, Stage(STREAMED, Calling, Undecided, None, Requested), w, create, 0);
    run := run + [Timed(At(0, create), 0)];
    Continue(maxLen, model, run, Stage(STREAMED, Called, Opened, None, Requested), w, OfHandler(Record), 0);
    run := run + [Timed(At(0, OfHandler(Record)), 0)];
    Continue(maxLen, model, run, Stage(STREAMED, Recorded, Opened, None, Requested), w, OfHandler(Count), 0);
    run := run + [Timed(At(0, OfHandler(Count)), 0)];
    Continue(maxLen, model, run, Stage(STREAMED, Counted, Opened, None, Requested), w, OfHandler(Commit), 0);
    run := run + [Timed(At(0, OfHandler(Commit)), 0)];
  }

  // Its first Recv waits until the RPC expires, and the STREAM_ERROR takes the last second.
  lemma LateStreamRun(maxLen: int, model: nat) returns (run: seq<Timed>)
    requires maxLen >= 1
    ensures IsBrisk(maxLen, model, run, 0) && run != [] && IsWrite(Last(run), 0)
    ensures WatchOf(run, 0).clock == model + 15 * SECOND
    ensures StateAfter(maxLen, run).calls[0].handler.events == [EventFor(RecvError(EXPIRY))]
  {
    run := OpenedRun(maxLen, model);
    var w := Watch(14 * SECOND, 14 * SECOND, 14 * SECOND);
    var expire, receive, last := OfEnvironment(Break(EXPIRY)), OfHandler(Receive(true)), [RecvError(EXPIRY)];
    Continue(maxLen, model, run, Stage(STREAMED, Streaming, Opened, None, Requested), w, expire, 0);
    run := run + [Timed(At(0, expire), 0)];
    var open := Stage(STREAMED, Streaming, Opened, Some(EXPIRY), Requested);
    Continue(maxLen, model, run, open, w, receive, model);
    run := run + [Timed(At(0, receive), model)];
    assert [] + last == last;
    var held := open.(handler := open.handler.(pc := Holding, received := last));
    assert Step(maxLen, open, receive) == held;
    Continue(maxLen, model, run, held, Watch(14 * SECOND + model, 14 * SECOND, 14 * SECOND), OfHandler(Emit), SECOND);
    run := run + [Timed(At(0, OfHandler(Emit)), SECOND)];
  }

  // A malformed body, refused at once.
  lemma RefusedRun(maxLen: int, model: int) returns (run: seq<Timed>)
    ensures Reaches(maxLen, model, run, Stage(GARBLED, Refused, Invalid("EOF"), None, Idle), Watch(0, 0, 0))
  {
    Begin(maxLen, model, GARBLED);
    run := [Timed(Arrive(GARBLED), 0)];
    GarbledIsRefused(maxLen);
    Continue(maxLen, model, run, NewCall(GARBLED), Watch(0, 0, 0), DECIDE, 0);
    run := run + [Timed(At(0, DECIDE), 0)];
  }

  // ... and whose 400 answer takes all of the headroom.
  lemma LateRefusalRun(maxLen: int, model: int) returns (run: seq<Timed>)
    ensures IsBrisk(maxLen, model, run, 0) && run != [] && IsWrite(Last(run), 0)
    ensures WatchOf(run, 0).clock == 15 * SECOND
  {
    run := RefusedRun(maxLen, model);
    var refused := Invalid("EOF");
    Continue(maxLen, model, run, Stage(GARBLED, Refused, refused, None, Idle), Watch(0, 0, 0), OfHandler(Count), 0);
    run := run + [Timed(At(0, OfHandler(Count)), 0)];
    Continue(maxLen, model, run, Stage(GARBLED, Counted, refused, None, Idle), Watch(0, 0, 0),
             OfHandler(Commit), 15 * SECOND);
    run := run + [Timed(At(0, OfHandler(Commit)), 15 * SECOND)];
  }

  lemma LateRun(maxLen: int, model: int) returns (run: seq<Timed>)
    ensures IsBrisk(maxLen, model, run, 0) && run != [] && IsWrite(Last(run), 0)
    ensures WatchOf(run, 0).clock == RpcBudget(maxLen, model) + 15 * SECOND
  {
    if RpcBudget(maxLen, model) == 0 {
      run := LateRefusalRun(maxLen, model);
    } else {
      run := LateTimeoutRun(maxLen, model, ASKED);
    }
  }

  // ---------------------------------------------------------------------------------------
  // Exactly when the deadline leaves the headroom
  // ---------------------------------------------------------------------------------------

  lemma HeadroomMeaning(maxLen: int, write: int, model: int)
    ensures HeadroomHolds(maxLen, write, model)
       <==> write <= 0 || write >= RpcBudget(maxLen, model) + 15 * SECOND
  {
    if write <= 0 || write >= RpcBudget(maxLen, model) + 15 * SECOND {
      forall run, i: nat, k | IsBrisk(maxLen, model, run, i) && 0 <= k < |run| && IsWrite(run[k], i)
        ensures InTime(write, run, k, i)
      {
        WriteInTime(maxLen, write, model, run, i, k);
      }
    } else {
      var run := LateRun(maxLen, model);
      assert run[..|run| - 1 + 1] == run;
      assert !InTime(write, run, |run| - 1, 0);
    }
  }

  // With the timeouts and the prompt limit that Load takes from its environment, everything
  // that a model route writes is in time, whatever the interleaving, exactly when the write
  // deadline is disabled; or the model timeout is not negative and the guard's sum does not
  // overflow; or otherwise, when no RPC can take any time, 15 s were configured.
  lemma HeadroomCharacterized(env: Environment)
    ensures HeadroomHolds(PromptLimit(env), Guard(Configured(env), ModelTimeout(env)), ModelTimeout(env))
       <==> || Configured(env) <= 0
            || (ModelTimeout(env) >= 0 && FitsInt64(ModelTimeout(env) + 15 * SECOND))
            || ((ModelTimeout(env) < 0 || PromptLimit(env) < 1) && Configured(env) >= 15 * SECOND)
  {
    WrapFits(ModelTimeout(env) + 15 * SECOND);
    HeadroomMeaning(PromptLimit(env), Guard(Configured(env), ModelTimeout(env)), ModelTimeout(env));
  }

  // With MODEL_TIMEOUT at the largest int64 the guard overflows and does nothing: the default
  // deadline of 75 s stays, and answers are late.
  lemma OverflowIsLate()
    ensures var env := Environment(Unset, Unset, Unset, Parsed(MAX_INT64), Unset);
            var write := Guard(Configured(env), ModelTimeout(env));
            write == 75 * SECOND && !HeadroomHolds(PromptLimit(env), write, ModelTimeout(env))
  {
    HeadroomCharacterized(Environment(Unset, Unset, Unset, Parsed(MAX_INT64), Unset));
  }

  // With MODEL_TIMEOUT=-20s and HTTP_WRITE_TIMEOUT=1s the deadline of 1 s stays.
  lemma NegativeIsLate()
    ensures var env := Environment(Unset, Parsed(SECOND), Unset, Parsed(-20 * SECOND), Unset);
            var write := Guard(Configured(env), ModelTimeout(env));
            write == SECOND && !HeadroomHolds(PromptLimit(env), write, ModelTimeout(env))
  {
    HeadroomCharacterized(Environment(Unset, Parsed(SECOND), Unset, Parsed(-20 * SECOND), Unset));
  }
}
