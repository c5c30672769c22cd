/** Reachable runs of Downlink whose plugin processes envelopes against the order they are read in,
    and against the order they were queued in. */
module OutOfOrder {
  import opened Downlink
  import opened Overtaking
  import opened Ranks

  const KEYS: Rank := map["a" := 2, "b" := 1]
  const A := Row("a", 2, NOTE, 0, 0)
  const B := Row("b", 1, NOTE, 0, 0)

  // Reached by a run that queued "a" first and "b" later.
  ghost predicate ReachedQueuing(st: State) {
    exists steps :: Run(steps) == st && QueuedFirst(Arrivals(steps))
  }

  ghost predicate QueuedFirst(rank: Rank) {
    "a" in rank && "b" in rank && rank["a"] < rank["b"]
  }

  lemma ReachedNext(st: State, step: Step, next: State)
    requires ReachedQueuing(st) && !step.Enqueue? && Next(st, step) == next
    ensures ReachedQueuing(next)
  {
    var steps :| Run(steps) == st && QueuedFirst(Arrivals(steps));
    var more := steps + [step];
    assert more[..|more| - 1] == steps && more[|more| - 1] == step;
    assert Run(more) == next && Arrivals(more) == Arrivals(steps);
  }

  lemma QueuingB(st: State)
    requires Reachable(st) && "a" in st.keys && Queues(st, Enqueue("b", 1, NOTE))
    ensures ReachedQueuing(Next(st, Enqueue("b", 1, NOTE)))
  {
    var steps :| Run(steps) == st;
    var step := Enqueue("b", 1, NOTE);
    var more := steps + [step];
    assert more[..|more| - 1] == steps && more[|more| - 1] == step;
    ArrivalsAreKeys(steps);
    QueuesRow(st, step);
    assert Run(more) == Next(st, step) && Arrivals(more) == Arrivals(steps)["b" := |steps|];
  }

  // ---- Against the order of queueing ----

  const BOTH := [Wire("b", 1, NOTE), Wire("a", 2, NOTE)]
  const BOTH_ROWS := [Row("b", 1, NOTE, 1, 1), Row("a", 2, NOTE, 1, 2)]

  function Both(polls: seq<Poll>, queue: seq<Row>, high: nat, given: seq<string>): State {
    State(Plugin(1, 0), Hub(1, [Sent(0, 0), Sent(high, 0)], queue), [ASK], polls, [], [[], given], [[], []], KEYS,
          map["a" := NOTE, "b" := NOTE], {})
  }

  // Both are queued before any poll reads, "b" with an id that sorts in front of "a".
  lemma BothQueued()
    ensures ReachedQueuing(Both([], [B, A], 0, []))
  {
    FirstQueued();
    var st := Polling([], [A], map["a" := 2], 0, []);
    assert Insert([A], B) == [B, A];
    assert Next(st, Enqueue("b", 1, NOTE)) == Both([], [B, A], 0, []);
    QueuingB(st);
  }

  lemma BothAcked()
    ensures ReachedQueuing(Both([Acked(1)], [B, A], 0, []))
  {
    BothQueued();
    ReachedNext(Both([], [B, A], 0, []), Arrive(0), Both([Arrived(ASK)], [B, A], 0, []));
    ReachedNext(Both([Arrived(ASK)], [B, A], 0, []), AckOutbound(0), Both([Acked(1)], [B, A], 0, []));
  }

  lemma BothRead()
    ensures ReachedQueuing(Both([Read(1, BOTH)], BOTH_ROWS, 2, ["b", "a"]))
  {
    BothAcked();
    var acked := Both([Acked(1)], [B, A], 0, []);
    BothReadIs(acked);
    ReachedNext(acked, NextOutbound(0), Both([Read(1, BOTH)], BOTH_ROWS, 2, ["b", "a"]));
  }

  lemma BothReadIs(st: State)
    requires st == Both([Acked(1)], [B, A], 0, [])
    ensures Next(st, NextOutbound(0)) == Both([Read(1, BOTH)], BOTH_ROWS, 2, ["b", "a"])
  {
    NumberBoth();
    var next := Next(st, NextOutbound(0));
    assert next.hub.sessions == [Sent(0, 0), Sent(2, 0)] && next.hub.queue == BOTH_ROWS;
    assert Wires(BOTH_ROWS) == BOTH;
    assert st.ledger[1] + ["b", "a"] == ["b", "a"];
    assert next.ledger == [[], ["b", "a"]];
  }

  lemma NumberBoth()
    ensures Number([B, A], 1, 0) == BOTH_ROWS && Assigned([B, A], 1) == ["b", "a"]
  {
    assert AssignedUpTo([B, A], 1, 0) == [] && AssignedUpTo([B, A], 1, 1) == ["b"];
  }

  function Taken(done: seq<seq<string>>, acked: nat): State {
    Both([Done], BOTH_ROWS, 2, ["b", "a"]).(plugin := Plugin(1, acked), responses := [Response(1, BOTH)], processed := done)
  }

  lemma BothSentIs()
    ensures Next(Both([Read(1, BOTH)], BOTH_ROWS, 2, ["b", "a"]), Respond(0)) == Taken([[], []], 0)
  {
  }

  lemma BothSent()
    ensures ReachedQueuing(Taken([[], []], 0))
  {
    BothRead();
    BothSentIs();
    ReachedNext(Both([Read(1, BOTH)], BOTH_ROWS, 2, ["b", "a"]), Respond(0), Taken([[], []], 0));
  }

  /** What was queued first can be processed last: ids minted in one millisecond sort arbitrarily, and
      a read that finds both hands them out by id. */
  lemma ProcessedAgainstArrival() returns (st: State)
    ensures ReachedQueuing(st) && st.processed == [[], ["b", "a"]]
  {
    BothSent();
    ProcessIs(0, BOTH, ["b", "a"]);
    Received(Taken([[], []], 0), 0, ["b", "a"]);
    assert [] + ["b", "a"] == ["b", "a"];
    st := Taken([[], ["b", "a"]], 2);
    ReachedNext(Taken([[], []], 0), Receive(0), st);
  }

  // A response of session 1 taken delivery of.
  lemma Received(st: State, i: nat, ids: seq<string>)
    requires i < |st.responses| && st.responses[i].session == 1 == st.plugin.session && |st.processed| == 2
    requires Process(st.plugin.inboundAck, st.responses[i].envelopes) == ids
    ensures Next(st, Receive(i)) == st.(plugin := Plugin(1, st.plugin.inboundAck + |ids|),
                                        processed := [st.processed[0], st.processed[1] + ids])
  {
    assert st.processed[1 := st.processed[1] + ids] == [st.processed[0], st.processed[1] + ids];
  }

  // ---- Against the order of reading ----

  // "a" has been read, processed and is being acked.
  lemma FirstProcessed()
    ensures Reachable(FirstDone([Done, Arrived(Request(1, 1))], [Row("a", 2, NOTE, 1, 1)], 0))
  {
    FirstRead();
    var st := Polling([Read(1, [Wire("a", 1, NOTE)])], [Row("a", 2, NOTE, 1, 1)], map["a" := 2], 1, ["a"]);
    ReachableNext(st, Respond(0));
    var sent := st.(polls := [Done], responses := [Response(1, [Wire("a", 1, NOTE)])]);
    assert Next(st, Respond(0)) == sent;
    FirstReceived(sent);
  }

  lemma FirstReceived(sent: State)
    requires Reachable(sent)
    requires sent == Polling([Done], [Row("a", 2, NOTE, 1, 1)], map["a" := 2], 1, ["a"])
                     .(responses := [Response(1, [Wire("a", 1, NOTE)])])
    ensures Reachable(FirstDone([Done, Arrived(Request(1, 1))], [Row("a", 2, NOTE, 1, 1)], 0))
  {
    ReachableNext(sent, Receive(0));
    ProcessIs(0, [Wire("a", 1, NOTE)], ["a"]);
    Received(sent, 0, ["a"]);
    assert [] + ["a"] == ["a"];
    FirstAsksAgain(Next(sent, Receive(0)));
  }

  function FirstDone(polls: seq<Poll>, queue: seq<Row>, acked: nat): State {
    State(Plugin(1, 1), Hub(1, [Sent(0, 0), Sent(1, acked)], queue), [ASK, Request(1, 1)], polls,
          [Response(1, [Wire("a", 1, NOTE)])], [[], ["a"]], [[], ["a"]], map["a" := 2], map["a" := NOTE], {})
  }

  lemma FirstAsksAgain(done: State)
    requires Reachable(done) && done == FirstDone([Done], [Row("a", 2, NOTE, 1, 1)], 0).(requests := [ASK])
    ensures Reachable(FirstDone([Done, Arrived(Request(1, 1))], [Row("a", 2, NOTE, 1, 1)], 0))
  {
    ReachableNext(done, Send);
    var asked := FirstDone([Done], [Row("a", 2, NOTE, 1, 1)], 0);
    assert Next(done, Send) == asked;
    ReachableNext(asked, Arrive(1));
    assert Next(asked, Arrive(1)) == asked.(polls := [Done, Arrived(Request(1, 1))]);
  }

  function BothKeyed(polls: seq<Poll>, queue: seq<Row>, high: nat, ledger: seq<string>): State {
    State(Plugin(1, 1), Hub(1, [Sent(0, 0), Sent(high, 1)], queue), [ASK, Request(1, 1)], polls,
          [Response(1, [Wire("a", 1, NOTE)])], [[], ledger], [[], ["a"]], KEYS, map["a" := NOTE, "b" := NOTE], {})
  }

  // Only now "b" is queued, with an id that sorts in front of the "a" that is gone.
  lemma SecondQueuedLate()
    ensures Reachable(BothKeyed([Done, Acked(1)], [B], 1, ["a"]))
  {
    FirstProcessed();
    var st := FirstDone([Done, Arrived(Request(1, 1))], [Row("a", 2, NOTE, 1, 1)], 0);
    ReachableNext(st, AckOutbound(1));
    var acked := FirstDone([Done, Acked(1)], [], 1);
    assert Unacked(st.hub.queue, 1, 1) == [];
    assert Next(st, AckOutbound(1)) == acked;
    ReachableNext(acked, Enqueue("b", 1, NOTE));
    assert Insert([], B) == [B];
    assert Next(acked, Enqueue("b", 1, NOTE)) == BothKeyed([Done, Acked(1)], [B], 1, ["a"]);
  }

  lemma SecondReadLate()
    ensures Reachable(BothKeyed([Done, Read(1, [Wire("b", 2, NOTE)])], [Row("b", 1, NOTE, 1, 2)], 2, ["a", "b"]))
  {
    SecondQueuedLate();
    var st := BothKeyed([Done, Acked(1)], [B], 1, ["a"]);
    ReachableNext(st, NextOutbound(1));
    SecondReadIs(st);
  }

  lemma SecondReadIs(st: State)
    requires st == BothKeyed([Done, Acked(1)], [B], 1, ["a"])
    ensures Next(st, NextOutbound(1)) ==
            BothKeyed([Done, Read(1, [Wire("b", 2, NOTE)])], [Row("b", 1, NOTE, 1, 2)], 2, ["a", "b"])
  {
    NumberSecond();
    var next := Next(st, NextOutbound(1));
    assert next.hub.sessions == [Sent(0, 0), Sent(2, 1)] && next.hub.queue == [Row("b", 1, NOTE, 1, 2)];
    assert Wires([Row("b", 1, NOTE, 1, 2)]) == [Wire("b", 2, NOTE)];
    assert st.ledger[1] + ["b"] == ["a", "b"];
    assert next.ledger == [[], ["a", "b"]];
  }

  lemma NumberSecond()
    ensures Number([B], 1, 1) == [Row("b", 1, NOTE, 1, 2)] && Assigned([B], 1) == ["b"]
  {
    assert AssignedUpTo([B], 1, 0) == [];
  }

  /** What is read in front can be processed last, even where every batch ascends: "b" is queued once
      "a" is processed, with an id that sorts in front of it. */
  lemma ProcessedAgainstKeys() returns (st: State)
    ensures Reachable(st) && st.processed == [[], ["a", "b"]] && st.keys == KEYS && KEYS["b"] < KEYS["a"]
  {
    SecondReadLate();
    var read := BothKeyed([Done, Read(1, [Wire("b", 2, NOTE)])], [Row("b", 1, NOTE, 1, 2)], 2, ["a", "b"]);
    ReachableNext(read, Respond(1));
    var sent := read.(polls := [Done, Done],
                      responses := [Response(1, [Wire("a", 1, NOTE)]), Response(1, [Wire("b", 2, NOTE)])]);
    assert Next(read, Respond(1)) == sent;
    ReachableNext(sent, Receive(1));
    st := Next(sent, Receive(1));
    ProcessIs(1, [Wire("b", 2, NOTE)], ["b"]);
    Received(sent, 1, ["b"]);
    assert ["a"] + ["b"] == ["a", "b"];
  }
}
