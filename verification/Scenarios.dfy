// Particular runs of the serving system, at literal requests: what a client really gets, and
// that the environment really has its freedoms. They keep the results about all runs from
// being met by a system that does less.
module Scenarios {
  import opened Basics
  import opened IrisFeatures
  import opened Servicers
  import opened Gateway
  import opened Serving
  import opened Runs
  import Utf8

  // A state with this one request, and this many accepted and executing calls.
  ghost predicate Solo(maxLen: int, c: Call, accepted: int, executing: int) {
    exists s :: Reachable(maxLen, s) && s.calls == [c] && s.accepted == accepted && s.executing == executing
  }

  lemma Begin(maxLen: int, input: Input)
    ensures Solo(maxLen, NewCall(input), 0, 0)
  {
    assert ValidRun(maxLen, INITIAL, []);
    ReachableStep(maxLen, INITIAL, Arrive(input));
    assert Apply(maxLen, INITIAL, Arrive(input)).calls == [NewCall(input)];
  }

  lemma Go(maxLen: int, c: Call, l: Local, c': Call, accepted: int, executing: int)
    requires Solo(maxLen, c, accepted, executing) && Can(c, l) && Step(maxLen, c, l) == c'
    requires l != OfServer(Reject) && accepted < 20 && executing < 10
    ensures Solo(maxLen, c', accepted + SlotChange(l), executing + WorkerChange(l))
  {
    var s :| Reachable(maxLen, s) && s.calls == [c] && s.accepted == accepted && s.executing == executing;
    ReachableStep(maxLen, s, At(0, l));
    assert Apply(maxLen, s, At(0, l)).calls == [c'];
  }

  const HELLO := Chunk(Some("Hello"), None, None, None)
  const ME := Chunk(Some(" you"), Some(4), Some(2), Some(9))
  const HELLO_REPLY := Reply("Hello", "qwen", 0, 0, 0)
  const ME_REPLY := Reply(" you", "qwen", 4, 2, 9)

  const GREETING := StreamInput(Prompt([72, 105]), "qwen", Streams([HELLO, ME], None))

  const CONNECTED := Link(false, None, false, true)

  const DECIDE := OfHandler(Validate([0, 1, 2, 3]))

  function Greeting(pc: Pc, received: seq<Recv>, events: seq<Event>, link: Link, server: Server,
                    consumed: nat, channel: seq<Reply>): Call
  {
    Call(GREETING, Handler(pc, Opened, received, events, None), link, Backend(server, consumed, channel))
  }

  function Asked(pc: Pc, server: Server): Call {
    Call(GREETING, Handler(pc, Undecided, [], [], None), CONNECTED, Backend(server, 0, []))
  }

  lemma GreetingIsAdmitted(maxLen: int)
    requires maxLen >= 2
    ensures Can(NewCall(GREETING), DECIDE) && Step(maxLen, NewCall(GREETING), DECIDE) == Asked(Calling, Requested)
  {
    var order: seq<Index> := [0, 1, 2, 3];
    assert order[0] == 0 && order[1] == 1 && order[2] == 2 && order[3] == 3;
    Utf8.RuneCountOfEncoding([72, 105]);
  }

  lemma GreetingIsDispatched(maxLen: int)
    requires maxLen >= 2
    ensures Solo(maxLen, Asked(Calling, Started), 1, 1)
  {
    Begin(maxLen, GREETING);
    GreetingIsAdmitted(maxLen);
    Go(maxLen, NewCall(GREETING), DECIDE, Asked(Calling, Requested), 0, 0);
    Go(maxLen, Asked(Calling, Requested), OfServer(Accept), Asked(Calling, Queued), 0, 0);
    Go(maxLen, Asked(Calling, Queued), OfServer(Dispatch), Asked(Calling, Started), 1, 0);
  }

  lemma GreetingStarts(maxLen: int)
    requires maxLen >= 2
    ensures Solo(maxLen, Asked(Calling, Loop), 1, 1)
  {
    GreetingIsDispatched(maxLen);
    BlankMeaning([72, 105]);
    assert 72 in PromptOf(GREETING);
    Go(maxLen, Asked(Calling, Started), OfServer(Generate), Asked(Calling, Loop), 1, 1);
  }

  // The client stream is open.
  lemma GreetingOpens(maxLen: int)
    requires maxLen >= 2
    ensures Solo(maxLen, Greeting(Streaming, [], [], CONNECTED, Loop, 0, []), 1, 1)
  {
    GreetingStarts(maxLen);
    Go(maxLen, Asked(Calling, Loop), OfHandler(Open(false)), Greeting(Called, [], [], CONNECTED, Loop, 0, []), 1, 1);
    Go(maxLen, Greeting(Called, [], [], CONNECTED, Loop, 0, []), OfHandler(Record),
       Greeting(Recorded, [], [], CONNECTED, Loop, 0, []), 1, 1);
    Go(maxLen, Greeting(Recorded, [], [], CONNECTED, Loop, 0, []), OfHandler(Count),
       Greeting(Counted, [], [], CONNECTED, Loop, 0, []), 1, 1);
    Go(maxLen, Greeting(Counted, [], [], CONNECTED, Loop, 0, []), OfHandler(Commit),
       Greeting(Streaming, [], [], CONNECTED, Loop, 0, []), 1, 1);
  }

  function Next(n: nat): Reply {
    if n == 0 then HELLO_REPLY else ME_REPLY
  }

  lemma ChunkIsSent(maxLen: int, rs: seq<Recv>, es: seq<Event>, n: nat)
    requires n < 2 && Solo(maxLen, Greeting(Streaming, rs, es, CONNECTED, Loop, n, []), 1, 1)
    ensures Solo(maxLen, Greeting(Streaming, rs, es, CONNECTED, Loop, n + 1, [Next(n)]), 1, 1)
  {
    Go(maxLen, Greeting(Streaming, rs, es, CONNECTED, Loop, n, []), OfServer(Pull),
       Greeting(Streaming, rs, es, CONNECTED, Got, n + 1, []), 1, 1);
    Go(maxLen, Greeting(Streaming, rs, es, CONNECTED, Got, n + 1, []), OfServer(Check),
       Greeting(Streaming, rs, es, CONNECTED, Checked, n + 1, []), 1, 1);
    Go(maxLen, Greeting(Streaming, rs, es, CONNECTED, Checked, n + 1, []), OfServer(Yield),
       Greeting(Streaming, rs, es, CONNECTED, Loop, n + 1, [Next(n)]), 1, 1);
  }

  // One more chunk goes all the way to the client.
  lemma ChunkArrives(maxLen: int, rs: seq<Recv>, es: seq<Event>, n: nat)
    requires n < 2 && Solo(maxLen, Greeting(Streaming, rs, es, CONNECTED, Loop, n, []), 1, 1)
    ensures Solo(maxLen, Greeting(Streaming, rs + [Received(Next(n))], es + [Message(Next(n))], CONNECTED,
                                  Loop, n + 1, []), 1, 1)
  {
    var reply := Next(n);
    var got := rs + [Received(reply)];
    FrontSnoc(rs, Received(reply));
    ChunkIsSent(maxLen, rs, es, n);
    Go(maxLen, Greeting(Streaming, rs, es, CONNECTED, Loop, n + 1, [reply]), OfHandler(Receive(false)),
       Greeting(Holding, got, es, CONNECTED, Loop, n + 1, []), 1, 1);
    Go(maxLen, Greeting(Holding, got, es, CONNECTED, Loop, n + 1, []), OfHandler(Charge),
       Greeting(Charged, got, es, CONNECTED, Loop, n + 1, []), 1, 1);
    Go(maxLen, Greeting(Charged, got, es, CONNECTED, Loop, n + 1, []), OfHandler(Emit),
       Greeting(Streaming, got, es + [Message(reply)], CONNECTED, Loop, n + 1, []), 1, 1);
  }

  // The servicer has nothing more to send and frees its worker; the client reads to the end.
  lemma ServicerEnds(maxLen: int, rs: seq<Recv>, es: seq<Event>)
    requires Solo(maxLen, Greeting(Streaming, rs, es, CONNECTED, Loop, 2, []), 1, 1)
    ensures Solo(maxLen, Greeting(Streaming, rs, es, CONNECTED, Returned(Exhausted), 2, []), 0, 0)
  {
    Go(maxLen, Greeting(Streaming, rs, es, CONNECTED, Loop, 2, []), OfServer(Pull),
       Greeting(Streaming, rs, es, CONNECTED, Ended(Exhausted), 2, []), 1, 1);
    Go(maxLen, Greeting(Streaming, rs, es, CONNECTED, Ended(Exhausted), 2, []), OfServer(Release),
       Greeting(Streaming, rs, es, CONNECTED, Returned(Exhausted), 2, []), 1, 1);
  }

  lemma StreamEnds(maxLen: int, rs: seq<Recv>, es: seq<Event>)
    requires Solo(maxLen, Greeting(Streaming, rs, es, CONNECTED, Returned(Exhausted), 2, []), 0, 0)
    ensures Solo(maxLen, Greeting(Leaving, rs + [Eof], es + [Done], CONNECTED, Returned(Exhausted), 2, []), 0, 0)
  {
    var all := rs + [Eof];
    FrontSnoc(rs, Eof);
    Go(maxLen, Greeting(Streaming, rs, es, CONNECTED, Returned(Exhausted), 2, []), OfHandler(Receive(false)),
       Greeting(Holding, all, es, CONNECTED, Returned(Exhausted), 2, []), 0, 0);
    Go(maxLen, Greeting(Holding, all, es, CONNECTED, Returned(Exhausted), 2, []), OfHandler(Emit),
       Greeting(Leaving, all, es + [Done], CONNECTED, Returned(Exhausted), 2, []), 0, 0);
  }

  const CANCELLED := Link(false, None, true, true)

  lemma StreamFinishes(maxLen: int, rs: seq<Recv>, es: seq<Event>)
    requires Solo(maxLen, Greeting(Leaving, rs, es, CONNECTED, Returned(Exhausted), 2, []), 0, 0)
    ensures Solo(maxLen, Greeting(Finished, rs, es, CANCELLED, Returned(Exhausted), 2, []), 0, 0)
  {
    Go(maxLen, Greeting(Leaving, rs, es, CONNECTED, Returned(Exhausted), 2, []), OfHandler(Cancel),
       Greeting(Closing, rs, es, CANCELLED, Returned(Exhausted), 2, []), 0, 0);
    Go(maxLen, Greeting(Closing, rs, es, CANCELLED, Returned(Exhausted), 2, []), OfHandler(Observe),
       Greeting(Finished, rs, es, CANCELLED, Returned(Exhausted), 2, []), 0, 0);
  }

  // A prompt "Hi" that Ollama answers with "Hello" and " you" can be streamed to its end: the
  // client gets both texts with their counts, and done, and all slots are free.
  lemma StreamIsServed(maxLen: int) returns (s: System)
    requires maxLen >= 2
    ensures Reachable(maxLen, s) && |s.calls| == 1 && s.accepted == s.executing == 0
    ensures s.calls[0].handler.pc.Finished? && !s.calls[0].link.gone
    ensures s.calls[0].handler.events
         == [Message(Reply("Hello", "qwen", 0, 0, 0)), Message(Reply(" you", "qwen", 4, 2, 9)), Done]
  {
    GreetingOpens(maxLen);
    ChunkArrives(maxLen, [], [], 0);
    var rs, es := [Received(HELLO_REPLY)], [Message(HELLO_REPLY)];
    assert [] + rs == rs && [] + es == es;
    ChunkArrives(maxLen, rs, es, 1);
    ServicerEnds(maxLen, rs + [Received(ME_REPLY)], es + [Message(ME_REPLY)]);
    StreamEnds(maxLen, rs + [Received(ME_REPLY)], es + [Message(ME_REPLY)]);
    var received, events := rs + [Received(ME_REPLY)] + [Eof], es + [Message(ME_REPLY)] + [Done];
    StreamFinishes(maxLen, received, events);
    s :| Reachable(maxLen, s) && s.accepted == 0 && s.executing == 0
         && s.calls == [Greeting(Finished, received, events, CANCELLED, Returned(Exhausted), 2, [])];
  }

  const LEFT := Link(true, None, false, true)
  const LEFT_CANCELLED := Link(true, None, true, true)
  const LEFT_INACTIVE := Link(true, None, true, false)

  lemma ClientLeaves(maxLen: int, rs: seq<Recv>, es: seq<Event>)
    requires Solo(maxLen, Greeting(Streaming, rs, es, CONNECTED, Loop, 1, []), 1, 1)
    ensures Solo(maxLen, Greeting(Leaving, rs, es, LEFT, Loop, 1, []), 1, 1)
  {
    Go(maxLen, Greeting(Streaming, rs, es, CONNECTED, Loop, 1, []), OfEnvironment(Leave),
       Greeting(Streaming, rs, es, LEFT, Loop, 1, []), 1, 1);
    Go(maxLen, Greeting(Streaming, rs, es, LEFT, Loop, 1, []), OfHandler(Notice),
       Greeting(Leaving, rs, es, LEFT, Loop, 1, []), 1, 1);
  }

  lemma HandlerFinishes(maxLen: int, rs: seq<Recv>, es: seq<Event>)
    requires Solo(maxLen, Greeting(Leaving, rs, es, LEFT, Loop, 1, []), 1, 1)
    ensures Solo(maxLen, Greeting(Finished, rs, es, LEFT_INACTIVE, Loop, 1, []), 1, 1)
  {
    Go(maxLen, Greeting(Leaving, rs, es, LEFT, Loop, 1, []), OfHandler(Cancel),
       Greeting(Closing, rs, es, LEFT_CANCELLED, Loop, 1, []), 1, 1);
    Go(maxLen, Greeting(Closing, rs, es, LEFT_CANCELLED, Loop, 1, []), OfEnvironment(Deactivate),
       Greeting(Closing, rs, es, LEFT_INACTIVE, Loop, 1, []), 1, 1);
    Go(maxLen, Greeting(Closing, rs, es, LEFT_INACTIVE, Loop, 1, []), OfHandler(Observe),
       Greeting(Finished, rs, es, LEFT_INACTIVE, Loop, 1, []), 1, 1);
  }

  lemma GeneratorStops(maxLen: int, rs: seq<Recv>, es: seq<Event>)
    requires Solo(maxLen, Greeting(Finished, rs, es, LEFT_INACTIVE, Loop, 1, []), 1, 1)
    ensures Solo(maxLen, Greeting(Finished, rs, es, LEFT_INACTIVE, Returned(Cut), 2, []), 0, 0)
  {
    Go(maxLen, Greeting(Finished, rs, es, LEFT_INACTIVE, Loop, 1, []), OfServer(Pull),
       Greeting(Finished, rs, es, LEFT_INACTIVE, Got, 2, []), 1, 1);
    Go(maxLen, Greeting(Finished, rs, es, LEFT_INACTIVE, Got, 2, []), OfServer(Check),
       Greeting(Finished, rs, es, LEFT_INACTIVE, Ended(Cut), 2, []), 1, 1);
    Go(maxLen, Greeting(Finished, rs, es, LEFT_INACTIVE, Ended(Cut), 2, []), OfServer(Release),
       Greeting(Finished, rs, es, LEFT_INACTIVE, Returned(Cut), 2, []), 1, 1);
  }

  // If the client leaves after the first text, the handler can finish without a terminal
  // event, while the servicer still holds its worker; it takes one more chunk, drops it and
  // ends.
  lemma StreamIsAbandoned(maxLen: int) returns (finished: System, ended: System)
    requires maxLen >= 2
    ensures Reachable(maxLen, finished) && |finished.calls| == 1 && finished.executing == 1
    ensures finished.calls[0].handler.pc.Finished? && finished.calls[0].link.gone
    ensures finished.calls[0].handler.events == [Message(Reply("Hello", "qwen", 0, 0, 0))]
    ensures Reachable(maxLen, ended) && |ended.calls| == 1 && ended.accepted == ended.executing == 0
    ensures ended.calls[0].backend.server == Returned(Cut) && ended.calls[0].backend.consumed == 2
    ensures ended.calls[0].handler.events == [Message(Reply("Hello", "qwen", 0, 0, 0))]
  {
    GreetingOpens(maxLen);
    ChunkArrives(maxLen, [], [], 0);
    var rs, es := [Received(HELLO_REPLY)], [Message(HELLO_REPLY)];
    assert [] + rs == rs && [] + es == es;
    ClientLeaves(maxLen, rs, es);
    HandlerFinishes(maxLen, rs, es);
    finished :| Reachable(maxLen, finished) && finished.accepted == 1 && finished.executing == 1
                && finished.calls == [Greeting(Finished, rs, es, LEFT_INACTIVE, Loop, 1, [])];
    GeneratorStops(maxLen, rs, es);
    ended :| Reachable(maxLen, ended) && ended.accepted == 0 && ended.executing == 0
             && ended.calls == [Greeting(Finished, rs, es, LEFT_INACTIVE, Returned(Cut), 2, [])];
  }
}
