/** A reachable run of Downlink whose batch does not ascend. */
module Overtaking {
  import opened Downlink
  import opened QueueOrder

  ghost predicate Reachable(st: State) {
    exists steps :: Run(steps) == st
  }

  lemma ReachableNext(st: State, step: Step)
    requires Reachable(st)
    ensures Reachable(Next(st, step))
  {
    var steps :| Run(steps) == st;
    assert (steps + [step])[..|steps|] == steps;
    assert Run(steps + [step]) == Next(st, step);
  }

  const ASK := Request(1, 0)
  const NOTE := Content("example.note", 0, "{}")

  // Session 1, one poll that has acked nothing and is about to read.
  function Polling(polls: seq<Poll>, queue: seq<Row>, keys: map<string, int>, high: nat, given: seq<string>): State {
    State(Plugin(1, 0), Hub(1, [Sent(0, 0), Sent(high, 0)], queue), [ASK], polls, [], [[], given], [[], []], keys,
          map id | id in keys :: NOTE, {})
  }

  lemma Started()
    ensures Reachable(Polling([], [], map[], 0, []))
  {
    assert Run([]) == START;
    ReachableNext(START, StartSession);
    var started := START.(hub := Hub(1, [Sent(0, 0), Sent(0, 0)], []), ledger := [[], []], processed := [[], []]);
    assert Next(START, StartSession) == started;
    Adopted(started);
  }

  lemma Adopted(st: State)
    requires st == START.(hub := Hub(1, [Sent(0, 0), Sent(0, 0)], []), ledger := [[], []], processed := [[], []])
    requires Reachable(st)
    ensures Reachable(Polling([], [], map[], 0, []))
  {
    ReachableNext(st, Adopt(1));
    var adopted := st.(plugin := Plugin(1, 0));
    assert Next(st, Adopt(1)) == adopted;
    ReachableNext(adopted, Send);
    assert Next(adopted, Send) == Polling([], [], map[], 0, []);
  }

  lemma FirstQueued()
    ensures Reachable(Polling([], [Row("a", 2, NOTE, 0, 0)], map["a" := 2], 0, []))
  {
    Started();
    var st := Polling([], [], map[], 0, []);
    ReachableNext(st, Enqueue("a", 2, NOTE));
    assert Insert([], Row("a", 2, NOTE, 0, 0)) == [Row("a", 2, NOTE, 0, 0)];
  }

  lemma FirstPoll()
    ensures Reachable(Polling([Acked(1)], [Row("a", 2, NOTE, 0, 0)], map["a" := 2], 0, []))
  {
    FirstQueued();
    var st := Polling([], [Row("a", 2, NOTE, 0, 0)], map["a" := 2], 0, []);
    ReachableNext(st, Arrive(0));
    var arrived := st.(polls := [Arrived(ASK)]);
    assert Next(st, Arrive(0)) == arrived;
    FirstAcked(arrived);
  }

  lemma FirstAcked(arrived: State)
    requires arrived == Polling([Arrived(ASK)], [Row("a", 2, NOTE, 0, 0)], map["a" := 2], 0, []) && Reachable(arrived)
    ensures Reachable(arrived.(polls := [Acked(1)]))
  {
    ReachableNext(arrived, AckOutbound(0));
  }

  lemma FirstRead()
    ensures Reachable(Polling([Read(1, [Wire("a", 1, NOTE)])], [Row("a", 2, NOTE, 1, 1)], map["a" := 2], 1, ["a"]))
  {
    FirstPoll();
    var st := Polling([Acked(1)], [Row("a", 2, NOTE, 0, 0)], map["a" := 2], 0, []);
    ReachableNext(st, NextOutbound(0));
    FirstReadIs(st);
  }

  lemma FirstReadIs(st: State)
    requires st == Polling([Acked(1)], [Row("a", 2, NOTE, 0, 0)], map["a" := 2], 0, [])
    ensures Next(st, NextOutbound(0)) == Polling([Read(1, [Wire("a", 1, NOTE)])], [Row("a", 2, NOTE, 1, 1)], map["a" := 2], 1, ["a"])
  {
    NumberOne();
    var next := Next(st, NextOutbound(0));
    assert next.hub.sessions == [Sent(0, 0), Sent(1, 0)];
    assert next.hub.queue == [Row("a", 2, NOTE, 1, 1)];
    assert Wires([Row("a", 2, NOTE, 1, 1)]) == [Wire("a", 1, NOTE)];
    assert st.ledger[1] + ["a"] == ["a"];
    assert next.ledger == [[], ["a"]];
  }

  lemma NumberOne()
    ensures Number([Row("a", 2, NOTE, 0, 0)], 1, 0) == [Row("a", 2, NOTE, 1, 1)]
    ensures Assigned([Row("a", 2, NOTE, 0, 0)], 1) == ["a"]
  {
    var rows := [Row("a", 2, NOTE, 0, 0)];
    assert AssignedUpTo(rows, 1, 0) == [];
  }

  const OVERTAKEN := [Row("b", 1, NOTE, 0, 0), Row("a", 2, NOTE, 1, 1)]

  // "b" is queued with an id that sorts before "a".
  lemma SecondQueued()
    ensures Reachable(Polling([Read(1, [Wire("a", 1, NOTE)])], OVERTAKEN, map["a" := 2, "b" := 1], 1, ["a"]))
  {
    FirstRead();
    var st := Polling([Read(1, [Wire("a", 1, NOTE)])], [Row("a", 2, NOTE, 1, 1)], map["a" := 2], 1, ["a"]);
    ReachableNext(st, Enqueue("b", 1, NOTE));
    assert Insert(st.hub.queue, Row("b", 1, NOTE, 0, 0)) == OVERTAKEN;
    assert Next(st, Enqueue("b", 1, NOTE)) ==
           Polling([Read(1, [Wire("a", 1, NOTE)])], OVERTAKEN, map["a" := 2, "b" := 1], 1, ["a"]);
  }

  lemma SecondArrives(st: State)
    requires st == Polling([Read(1, [Wire("a", 1, NOTE)])], OVERTAKEN, map["a" := 2, "b" := 1], 1, ["a"])
    ensures Next(Next(st, Arrive(0)), AckOutbound(1)) == st.(polls := st.polls + [Acked(1)])
  {
    var arrived := st.(polls := st.polls + [Arrived(ASK)]);
    assert Next(st, Arrive(0)) == arrived;
    assert arrived.polls[1 := Acked(1)] == st.polls + [Acked(1)];
  }

  lemma OvertakenSends()
    ensures Sends(OVERTAKEN, 1, 1) == [Wire("b", 2, NOTE), Wire("a", 1, NOTE)]
  {
  }

  lemma SecondReads(st: State)
    requires st == Polling([Read(1, [Wire("a", 1, NOTE)]), Acked(1)], OVERTAKEN, map["a" := 2, "b" := 1], 1, ["a"])
    ensures var after := Next(st, NextOutbound(1));
            |after.polls| == 2 && after.polls[1] == Read(1, [Wire("b", 2, NOTE), Wire("a", 1, NOTE)])
  {
    ReadSends(st, 1);
    OvertakenSends();
  }

  /** The order can really be lost: after "a" is numbered, "b" is queued with an id that sorts
      before it, and the next poll is sent seq 2 ahead of seq 1. */
  lemma BatchOutOfOrder() returns (st: State)
    ensures Reachable(st) && |st.polls| == 2 && st.polls[1] == Read(1, [Wire("b", 2, NOTE), Wire("a", 1, NOTE)])
  {
    SecondQueued();
    var queued := Polling([Read(1, [Wire("a", 1, NOTE)])], OVERTAKEN, map["a" := 2, "b" := 1], 1, ["a"]);
    ReachableNext(queued, Arrive(0));
    ReachableNext(Next(queued, Arrive(0)), AckOutbound(1));
    SecondArrives(queued);
    var acked := queued.(polls := queued.polls + [Acked(1)]);
    assert acked == Polling([Read(1, [Wire("a", 1, NOTE)]), Acked(1)], OVERTAKEN, map["a" := 2, "b" := 1], 1, ["a"]);
    ReachableNext(acked, NextOutbound(1));
    SecondReads(acked);
    st := Next(acked, NextOutbound(1));
  }
}
