/** Whether a plugin processes envelopes in the order the queue is read in, by (created_at, id). */
module KeyOrder {
  import opened Downlink
  import opened QueueOrder
  import opened Ranks

  ghost predicate Keyed(queue: seq<Row>, keys: Rank) {
    forall row :: row in queue ==> row.id in keys && keys[row.id] == row.key
  }

  // What the session has not numbered sorts behind everything it has.
  ghost predicate Behind(queue: seq<Row>, session: nat, given: seq<string>, keys: Rank) {
    forall row, id :: row in queue && row.session != session && id in given && id in keys ==> keys[id] < row.key
  }

  // In a queue read in key order, sorting behind is all that numbering in that order takes.
  lemma BehindNumbers(rows: seq<Row>, session: nat, given: seq<string>, keys: Rank, n: nat)
    requires Sorted(rows) && Keyed(rows, keys) && Behind(rows, session, given, keys)
    ensures NumbersInOrder(rows, session, given, keys, n)
  {
    forall i | 0 <= i < |rows| && rows[i].session != session ensures Follows(rows, session, given, keys, i) {
      assert rows[i] in rows;
      forall j | 0 <= j < i ensures Precedes(rows[j].id, rows[i].id, keys) {
        assert rows[j] in rows && rows[j].key < rows[i].key;
      }
    }
  }

  lemma NumbersBehind(rows: seq<Row>, session: nat, given: seq<string>, keys: Rank)
    requires Keyed(rows, keys) && NumbersInOrder(rows, session, given, keys, |given| + |Assigned(rows, session)|)
    ensures Behind(rows, session, given, keys)
  {
    forall row, id | row in rows && row.session != session && id in given && id in keys ensures keys[id] < row.key {
      var i :| 0 <= i < |rows| && rows[i] == row;
      AssignedAt(rows, session, i, |rows|);
      assert Follows(rows, session, given, keys, i) && Precedes(id, rows[i].id, keys);
    }
  }

  /** A read numbers on in key order exactly when every row it numbers sorts behind all the session
      has numbered already. */
  lemma NumbersInOrderIff(queue: seq<Row>, session: nat, given: seq<string>, keys: Rank)
    requires Sorted(queue) && Keyed(queue, keys)
    ensures InRank(given + Assigned(Batch(queue), session), keys) <==>
            InRank(given, keys) && Behind(Batch(queue), session, given, keys)
  {
    var rows := Batch(queue);
    var n := |given| + |Assigned(rows, session)|;
    assert forall row :: row in rows ==> row in queue;
    assert First(given + Assigned(rows, session), n) == given + Assigned(rows, session) && First(given, n) == given;
    Ranks.NumbersInOrderIff(rows, session, given, keys, n);
    if Behind(rows, session, given, keys) {
      BehindNumbers(rows, session, given, keys, n);
    } else if NumbersInOrder(rows, session, given, keys, n) {
      NumbersBehind(rows, session, given, keys);
    }
  }

  lemma QueueKeyed(st: State)
    requires Inv(st)
    ensures Keyed(st.hub.queue, st.keys)
  {
    forall row | row in st.hub.queue ensures row.id in st.keys && st.keys[row.id] == row.key {
      assert RowInv(row, st.hub.sessions, st.ledger, st.keys);
    }
  }

  /** So it is of any read in any reachable state. */
  lemma ReadKeepsKeyOrderIff(steps: seq<Step>, i: nat)
    requires Reads(Run(steps), i)
    ensures var st := Run(steps);
            var session := st.polls[i].session;
            InRank(Next(st, NextOutbound(i)).ledger[session], st.keys) <==>
            InRank(st.ledger[session], st.keys) && Behind(Batch(st.hub.queue), session, st.ledger[session], st.keys)
  {
    RunKeeps(steps);
    var st := Run(steps);
    QueueKeyed(st);
    ReadParts(st, i);
    NumbersInOrderIff(st.hub.queue, st.polls[i].session, st.ledger[st.polls[i].session], st.keys);
  }

  // ---- Over runs ----

  /** At every read, what it numbers sorts behind all its session has numbered. */
  ghost predicate ReadsBehind(steps: seq<Step>) {
    steps != [] ==> ReadsBehind(steps[..|steps| - 1]) && StepReadsBehind(Run(steps[..|steps| - 1]), steps[|steps| - 1])
  }

  ghost predicate StepReadsBehind(st: State, step: Step) {
    step.NextOutbound? && Reads(st, step.poll) ==>
      var session := st.polls[step.poll].session;
      Behind(Batch(st.hub.queue), session, st.ledger[session], st.keys)
  }

  lemma StepNumbers(st: State, step: Step, session: nat, n: nat)
    requires Inv(st) && StepReadsBehind(st, step) && ReadsFor(st, step, session)
    ensures NumbersInOrder(Batch(st.hub.queue), session, st.ledger[session], st.keys, n)
  {
    QueueKeyed(st);
    BehindNumbers(Batch(st.hub.queue), session, st.ledger[session], st.keys, n);
  }

  lemma StepBehind(st: State, i: nat)
    requires Inv(st) && Reads(st, i)
    requires var session := st.polls[i].session;
             var rows := Batch(st.hub.queue);
             NumbersInOrder(rows, session, st.ledger[session], st.keys, |st.ledger[session]| + |Assigned(rows, session)|)
    ensures StepReadsBehind(st, NextOutbound(i))
  {
    QueueKeyed(st);
    NumbersBehind(Batch(st.hub.queue), st.polls[i].session, st.ledger[st.polls[i].session], st.keys);
  }

  lemma {:induction false} ReadsBehindReads(steps: seq<Step>, session: nat, n: nat)
    requires ReadsBehind(steps)
    ensures ReadsInOrder(ByKey, steps, session, n)
  {
    if steps != [] {
      var before, last := steps[..|steps| - 1], steps[|steps| - 1];
      ReadsBehindReads(before, session, n);
      if ReadsFor(Run(before), last, session) {
        RunKeeps(before);
        StepNumbers(Run(before), last, session, n);
      }
    }
  }

  lemma {:induction false} ReadsInOrderBehind(steps: seq<Step>)
    requires forall session: nat, n: nat :: ReadsInOrder(ByKey, steps, session, n)
    ensures ReadsBehind(steps)
  {
    if steps != [] {
      var before, last := steps[..|steps| - 1], steps[|steps| - 1];
      var st := Run(before);
      forall session: nat, n: nat ensures ReadsInOrder(ByKey, before, session, n) {
        assert ReadsInOrder(ByKey, steps, session, n);
      }
      ReadsInOrderBehind(before);
      if last.NextOutbound? && Reads(st, last.poll) {
        var session := st.polls[last.poll].session;
        RunKeeps(before);
        assert ReadsFor(st, last, session);
        assert ReadsInOrder(ByKey, steps, session, |st.ledger[session]| + |Assigned(Batch(st.hub.queue), session)|);
        StepBehind(st, last.poll);
      }
    }
  }

  ghost predicate AllInRank(ledger: seq<seq<string>>, rank: Rank) {
    forall s :: 0 <= s < |ledger| ==> InRank(ledger[s], rank)
  }

  /** Over every run, all sessions number in key order exactly when every read numbers behind what its
      session had numbered. */
  lemma NumberedInKeyOrderIff(steps: seq<Step>)
    ensures AllInRank(Run(steps).ledger, Run(steps).keys) <==> ReadsBehind(steps)
  {
    var st := Run(steps);
    if ReadsBehind(steps) {
      forall s | 0 <= s < |st.ledger| ensures InRank(st.ledger[s], st.keys) {
        ReadsBehindReads(steps, s, |st.ledger[s]|);
        NumberedInOrderIff(ByKey, steps, s, |st.ledger[s]|);
      }
    } else if AllInRank(st.ledger, st.keys) {
      forall session: nat, n: nat ensures ReadsInOrder(ByKey, steps, session, n) {
        NumberedReads(steps, session, n);
      }
      ReadsInOrderBehind(steps);
    }
  }

  lemma NumberedReads(steps: seq<Step>, session: nat, n: nat)
    requires session < |Run(steps).ledger| ==> InRank(Run(steps).ledger[session], Run(steps).keys)
    ensures ReadsInOrder(ByKey, steps, session, n)
  {
    if session < |Run(steps).ledger| {
      FrontInRank(Run(steps).ledger[session], Run(steps).keys, n);
      NumberedInOrderIff(ByKey, steps, session, n);
    } else {
      NoReadsYet(ByKey, steps, session, n);
    }
  }

  lemma FrontInRank(ids: seq<string>, rank: Rank, n: nat)
    requires InRank(ids, rank)
    ensures InRank(First(ids, n), rank)
  {
  }

  /** Every envelope is queued with a key behind all the latest session has numbered. */
  predicate SortsBehind(steps: seq<Step>) {
    QueuedInOrder(ByKey, steps)
  }

  /** What a caller can see to at each insert, and that is enough. */
  lemma SortsBehindReads(steps: seq<Step>)
    requires SortsBehind(steps)
    ensures ReadsBehind(steps)
  {
    forall session: nat, n: nat ensures ReadsInOrder(ByKey, steps, session, n) {
      QueuedInOrderReads(ByKey, steps, session, n);
    }
    ReadsInOrderBehind(steps);
  }

  /** Where every read numbers behind, and so where SortsBehind holds, the plugin processes each
      session's envelopes in key order. */
  lemma ProcessedInQueueOrder(steps: seq<Step>, session: nat, a: nat, b: nat)
    requires ReadsBehind(steps)
    requires session < |Run(steps).processed| && a < b < |Run(steps).processed[session]|
    ensures var st := Run(steps);
            var ids := st.processed[session];
            ids[a] in st.keys && ids[b] in st.keys && st.keys[ids[a]] < st.keys[ids[b]]
  {
    ReadsBehindReads(steps, session, |Run(steps).processed[session]|);
    ProcessedInOrderIff(ByKey, steps, session);
    ProcessedIsRanked(ByKey, steps, session, a);
    ProcessedIsRanked(ByKey, steps, session, b);
  }

  /** And then nothing is ever overtaken either. */
  lemma {:induction false} SortedBehindNotOvertaken(steps: seq<Step>)
    requires SortsBehind(steps)
    ensures NeverOvertaken(steps)
  {
    if steps != [] {
      var before, last := steps[..|steps| - 1], steps[|steps| - 1];
      SortedBehindNotOvertaken(before);
      RunKeeps(before);
      BehindIsNotOvertaking(Run(before), last);
    }
  }

  lemma BehindIsNotOvertaking(st: State, step: Step)
    requires Inv(st) && StepInOrder(ByKey, st, step)
    ensures !Overtakes(st, step)
  {
    if Queues(st, step) && |st.hub.sessions| > 1 {
      var latest := |st.hub.sessions| - 1;
      forall k | Place(st.hub.queue, step.key) <= k < |st.hub.queue| ensures st.hub.queue[k].session != latest {
        AtOrAfterPlace(st.hub.queue, step.key, k);
        assert st.hub.queue[k] in st.hub.queue && RowInv(st.hub.queue[k], st.hub.sessions, st.ledger, st.keys);
      }
    }
  }

  lemma AtOrAfterPlace(queue: seq<Row>, key: int, k: nat)
    requires Sorted(queue) && Place(queue, key) <= k < |queue|
    ensures key <= queue[k].key
  {
  }
}
