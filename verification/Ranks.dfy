/** The order in which sessions number envelopes and plugins process them, against an order of the
    envelopes themselves: the one the queue is read in, or the one they were queued in. */
module Ranks {
  import opened Downlink

  type Rank = map<string, int>

  ghost predicate InRank(ids: seq<string>, rank: Rank) {
    forall i, j :: 0 <= i < j < |ids| && ids[i] in rank && ids[j] in rank ==> rank[ids[i]] < rank[ids[j]]
  }

  function First(ids: seq<string>, n: nat): (front: seq<string>)
    ensures |front| == (if n < |ids| then n else |ids|) && forall i :: 0 <= i < |front| ==> front[i] == ids[i]
  {
    if n < |ids| then ids[..n] else ids
  }

  // The latter of two ids comes later, if both are ranked.
  ghost predicate Precedes(a: string, b: string, rank: Rank) {
    a in rank && b in rank ==> rank[a] < rank[b]
  }

  // ---- One read ----

  // A row comes after all a session has numbered, and after the rows in front of it that are
  // numbered with it.
  ghost predicate Follows(rows: seq<Row>, session: nat, given: seq<string>, rank: Rank, i: nat)
    requires i < |rows|
  {
    && (forall id :: id in given ==> Precedes(id, rows[i].id, rank))
    && (forall j :: 0 <= j < i && rows[j].session != session ==> Precedes(rows[j].id, rows[i].id, rank))
  }

  // Every row a read gives one of the first `n` seqs does.
  ghost predicate NumbersInOrder(rows: seq<Row>, session: nat, given: seq<string>, rank: Rank, n: nat) {
    forall i :: 0 <= i < |rows| && rows[i].session != session && |given| + |AssignedUpTo(rows, session, i)| < n ==>
      Follows(rows, session, given, rank, i)
  }

  lemma {:induction false} AssignedMonotone(rows: seq<Row>, session: nat, i: nat, n: nat)
    requires i <= n <= |rows|
    ensures |AssignedUpTo(rows, session, i)| <= |AssignedUpTo(rows, session, n)|
  {
    if i < n {
      AssignedMonotone(rows, session, i, n - 1);
    }
  }

  // The row at a place among the ids assigned.
  lemma {:induction false} AssignedRow(rows: seq<Row>, session: nat, n: nat, p: nat) returns (i: nat)
    requires n <= |rows| && p < |AssignedUpTo(rows, session, n)|
    ensures i < n && rows[i].session != session && |AssignedUpTo(rows, session, i)| == p
    ensures rows[i].id == AssignedUpTo(rows, session, n)[p]
  {
    if p == |AssignedUpTo(rows, session, n - 1)| {
      i := n - 1;
    } else {
      i := AssignedRow(rows, session, n - 1, p);
    }
  }

  lemma NumberedFollow(rows: seq<Row>, session: nat, given: seq<string>, rank: Rank, n: nat, i: nat)
    requires i < |rows| && rows[i].session != session && |given| + |AssignedUpTo(rows, session, i)| < n
    requires InRank(First(given + Assigned(rows, session), n), rank)
    ensures Follows(rows, session, given, rank, i)
  {
    var more := given + Assigned(rows, session);
    var p := |AssignedUpTo(rows, session, i)|;
    AssignedAt(rows, session, i, |rows|);
    assert First(more, n)[|given| + p] == rows[i].id;
    forall id | id in given ensures Precedes(id, rows[i].id, rank) {
      var a :| 0 <= a < |given| && given[a] == id;
      assert First(more, n)[a] == id;
    }
    forall j | 0 <= j < i && rows[j].session != session ensures Precedes(rows[j].id, rows[i].id, rank) {
      AssignedAt(rows, session, j, |rows|);
      AssignedAt(rows, session, j, i);
      assert First(more, n)[|given| + |AssignedUpTo(rows, session, j)|] == rows[j].id;
    }
  }

  lemma NumberedAscend(rows: seq<Row>, session: nat, given: seq<string>, rank: Rank, n: nat, a: nat, b: nat)
    requires NumbersInOrder(rows, session, given, rank, n)
    requires a < b < |First(given + Assigned(rows, session), n)| && |given| <= b
    ensures Precedes((given + Assigned(rows, session))[a], (given + Assigned(rows, session))[b], rank)
  {
    var ids := Assigned(rows, session);
    var i := AssignedRow(rows, session, |rows|, b - |given|);
    assert Follows(rows, session, given, rank, i);
    if a < |given| {
      assert given[a] in given;
    } else {
      var j := AssignedRow(rows, session, |rows|, a - |given|);
      if i <= j {
        AssignedMonotone(rows, session, i, j);
      }
      assert j < i;
    }
  }

  /** A read keeps the first `n` seqs of a session in an order exactly when every row it gives one of
      them comes after all it has numbered. */
  lemma NumbersInOrderIff(rows: seq<Row>, session: nat, given: seq<string>, rank: Rank, n: nat)
    ensures InRank(First(given + Assigned(rows, session), n), rank) <==>
            InRank(First(given, n), rank) && NumbersInOrder(rows, session, given, rank, n)
  {
    var more := given + Assigned(rows, session);
    if InRank(First(more, n), rank) {
      forall i, j | 0 <= i < j < |First(given, n)| ensures Precedes(First(given, n)[i], First(given, n)[j], rank) {
        assert First(more, n)[i] == given[i] && First(more, n)[j] == given[j];
      }
      forall i | 0 <= i < |rows| && rows[i].session != session && |given| + |AssignedUpTo(rows, session, i)| < n
        ensures Follows(rows, session, given, rank, i)
      {
        NumberedFollow(rows, session, given, rank, n, i);
      }
    }
    if InRank(First(given, n), rank) && NumbersInOrder(rows, session, given, rank, n) {
      forall a, b | 0 <= a < b < |First(more, n)| ensures Precedes(First(more, n)[a], First(more, n)[b], rank) {
        if |given| <= b {
          NumberedAscend(rows, session, given, rank, n, a, b);
        } else {
          assert First(given, n)[a] == more[a] && First(given, n)[b] == more[b];
        }
      }
    }
  }

  // ---- Over runs ----

  // A step that queues an envelope.
  predicate Queues(st: State, step: Step) {
    step.Enqueue? && Next(st, step) != st
  }

  lemma QueuesRow(st: State, step: Step)
    requires Queues(st, step)
    ensures var next := Next(st, step);
            && step.id !in st.keys && next.keys == st.keys[step.id := step.key]
            && next.hub.queue == Insert(st.hub.queue, Row(step.id, step.key, step.content, 0, 0))
            && |next.hub.sessions| == |st.hub.sessions| && next.ledger == st.ledger
  {
  }

  lemma KeepsKeys(st: State, step: Step)
    requires !Queues(st, step)
    ensures Next(st, step).keys == st.keys
  {
  }

  /** When each envelope was queued. */
  function Arrivals(steps: seq<Step>): (rank: Rank) {
    if steps == [] then map[]
    else
      var before, last := steps[..|steps| - 1], steps[|steps| - 1];
      if Queues(Run(before), last) then Arrivals(before)[last.id := |before|] else Arrivals(before)
  }

  datatype Order = ByKey | ByArrival

  function RankOf(order: Order, steps: seq<Step>): (rank: Rank) {
    match order
    case ByKey => Run(steps).keys
    case ByArrival => Arrivals(steps)
  }

  // Every read that gave the session one of its first `n` seqs gave it in order.
  ghost predicate ReadsInOrder(order: Order, steps: seq<Step>, session: nat, n: nat) {
    steps != [] ==>
      var before, last := steps[..|steps| - 1], steps[|steps| - 1];
      && ReadsInOrder(order, before, session, n)
      && (ReadsFor(Run(before), last, session) ==>
            NumbersInOrder(Batch(Run(before).hub.queue), session, Run(before).ledger[session], RankOf(order, before), n))
  }

  ghost predicate ReadsFor(st: State, step: Step, session: nat) {
    step.NextOutbound? && Reads(st, step.poll) && st.polls[step.poll].session == session
  }

  lemma {:induction false} ArrivalsAreKeys(steps: seq<Step>)
    ensures Arrivals(steps).Keys == Run(steps).keys.Keys
    ensures forall id :: id in Arrivals(steps) ==> Arrivals(steps)[id] < |steps|
  {
    if steps != [] {
      var before, last := steps[..|steps| - 1], steps[|steps| - 1];
      ArrivalsAreKeys(before);
      if Queues(Run(before), last) {
        QueuesRow(Run(before), last);
      } else {
        KeepsKeys(Run(before), last);
      }
    }
  }

  // A rank once given is kept.
  lemma RankKept(order: Order, steps: seq<Step>, id: string)
    requires steps != [] && id in Run(steps[..|steps| - 1]).keys
    ensures id in RankOf(order, steps[..|steps| - 1]) && id in RankOf(order, steps)
    ensures RankOf(order, steps)[id] == RankOf(order, steps[..|steps| - 1])[id]
  {
    var before, last := steps[..|steps| - 1], steps[|steps| - 1];
    ArrivalsAreKeys(before);
    if Queues(Run(before), last) {
      QueuesRow(Run(before), last);
    } else {
      KeepsKeys(Run(before), last);
    }
  }

  lemma SameRanks(ids: seq<string>, a: Rank, b: Rank)
    requires forall id :: id in ids ==> id in a && id in b && a[id] == b[id]
    ensures InRank(ids, a) <==> InRank(ids, b)
  {
  }

  lemma SameRankOf(order: Order, steps: seq<Step>)
    requires steps != [] && !Queues(Run(steps[..|steps| - 1]), steps[|steps| - 1])
    ensures RankOf(order, steps) == RankOf(order, steps[..|steps| - 1])
  {
    KeepsKeys(Run(steps[..|steps| - 1]), steps[|steps| - 1]);
  }

  lemma NewRankOf(order: Order, steps: seq<Step>)
    requires steps != [] && Queues(Run(steps[..|steps| - 1]), steps[|steps| - 1])
    ensures var before, last := steps[..|steps| - 1], steps[|steps| - 1];
            RankOf(order, steps) == RankOf(order, before)[last.id := if order == ByKey then last.key else |before|]
  {
    QueuesRow(Run(steps[..|steps| - 1]), steps[|steps| - 1]);
  }

  // What a step does to a session's ledger.
  lemma ReadLedger(st: State, step: Step, session: nat)
    requires ReadsFor(st, step, session)
    ensures var next := Next(st, step);
            && session < |st.ledger| == |next.ledger| && !Queues(st, step)
            && next.ledger[session] == st.ledger[session] + Assigned(Batch(st.hub.queue), session)
  {
  }

  lemma SameLedger(st: State, step: Step, session: nat)
    requires Inv(st) && session < |st.ledger| && !ReadsFor(st, step, session)
    ensures session < |Next(st, step).ledger| && Next(st, step).ledger[session] == st.ledger[session]
  {
  }

  lemma NewLedger(st: State, step: Step, session: nat)
    requires Inv(st) && |st.ledger| <= session
    ensures !ReadsFor(st, step, session)
    ensures session < |Next(st, step).ledger| ==> Next(st, step).ledger[session] == []
  {
  }

  lemma {:induction false} NoReadsYet(order: Order, steps: seq<Step>, session: nat, n: nat)
    requires session >= |Run(steps).ledger|
    ensures ReadsInOrder(order, steps, session, n)
  {
    if steps != [] {
      var before, last := steps[..|steps| - 1], steps[|steps| - 1];
      RunKeeps(before);
      if session < |Run(before).ledger| && !ReadsFor(Run(before), last, session) {
        SameLedger(Run(before), last, session);
      }
      NoReadsYet(order, before, session, n);
      NewLedger(Run(before), last, session);
    }
  }

  lemma LedgerRanksKept(order: Order, steps: seq<Step>, session: nat, n: nat)
    requires steps != [] && session < |Run(steps[..|steps| - 1]).ledger|
    ensures var before := steps[..|steps| - 1];
            var ids := First(Run(before).ledger[session], n);
            InRank(ids, RankOf(order, before)) <==> InRank(ids, RankOf(order, steps))
  {
    var before := steps[..|steps| - 1];
    var st := Run(before);
    RunKeeps(before);
    assert SessionInv(st.hub.sessions[session], st.ledger[session], st.processed[session], st.keys);
    var ids := First(st.ledger[session], n);
    forall id | id in ids
      ensures id in RankOf(order, before) && id in RankOf(order, steps) && RankOf(order, before)[id] == RankOf(order, steps)[id]
    {
      assert id in st.ledger[session];
      RankKept(order, steps, id);
    }
    SameRanks(ids, RankOf(order, before), RankOf(order, steps));
  }

  lemma ReadStepIff(order: Order, steps: seq<Step>, session: nat, n: nat)
    requires steps != [] && ReadsFor(Run(steps[..|steps| - 1]), steps[|steps| - 1], session)
    ensures var before := steps[..|steps| - 1];
            var st := Run(before);
            && session < |st.ledger| && session < |Run(steps).ledger|
            && (InRank(First(Run(steps).ledger[session], n), RankOf(order, steps)) <==>
                InRank(First(st.ledger[session], n), RankOf(order, before)) &&
                NumbersInOrder(Batch(st.hub.queue), session, st.ledger[session], RankOf(order, before), n))
  {
    var before := steps[..|steps| - 1];
    ReadLedger(Run(before), steps[|steps| - 1], session);
    SameRankOf(order, steps);
    NumbersInOrderIff(Batch(Run(before).hub.queue), session, Run(before).ledger[session], RankOf(order, before), n);
  }

  lemma OtherStepIff(order: Order, steps: seq<Step>, session: nat, n: nat)
    requires steps != [] && session < |Run(steps[..|steps| - 1]).ledger|
    requires !ReadsFor(Run(steps[..|steps| - 1]), steps[|steps| - 1], session)
    ensures session < |Run(steps).ledger|
    ensures var before := steps[..|steps| - 1];
            InRank(First(Run(steps).ledger[session], n), RankOf(order, steps)) <==>
            InRank(First(Run(before).ledger[session], n), RankOf(order, before))
  {
    var before := steps[..|steps| - 1];
    RunKeeps(before);
    SameLedger(Run(before), steps[|steps| - 1], session);
    LedgerRanksKept(order, steps, session, n);
  }

  /** Over every run, the first `n` envelopes a session numbers are in an order exactly when each of
      its reads numbered in order, as far as those go. */
  lemma {:induction false} NumberedInOrderIff(order: Order, steps: seq<Step>, session: nat, n: nat)
    requires session < |Run(steps).ledger|
    ensures InRank(First(Run(steps).ledger[session], n), RankOf(order, steps)) <==> ReadsInOrder(order, steps, session, n)
  {
    if steps != [] {
      var before, last := steps[..|steps| - 1], steps[|steps| - 1];
      if session >= |Run(before).ledger| {
        RunKeeps(before);
        NewLedger(Run(before), last, session);
        NoReadsYet(order, before, session, n);
      } else {
        NumberedInOrderIff(order, before, session, n);
        if ReadsFor(Run(before), last, session) {
          ReadStepIff(order, steps, session, n);
        } else {
          OtherStepIff(order, steps, session, n);
        }
      }
    }
  }

  /** And so what its plugin has processed is in an order exactly when each read that numbered any of
      it numbered that in order. */
  lemma ProcessedInOrderIff(order: Order, steps: seq<Step>, session: nat)
    requires session < |Run(steps).processed|
    ensures var done := Run(steps).processed[session];
            InRank(done, RankOf(order, steps)) <==> ReadsInOrder(order, steps, session, |done|)
  {
    RunKeeps(steps);
    var st := Run(steps);
    assert SessionInv(st.hub.sessions[session], st.ledger[session], st.processed[session], st.keys);
    assert First(st.ledger[session], |st.processed[session]|) == st.processed[session];
    NumberedInOrderIff(order, steps, session, |st.processed[session]|);
  }

  // ---- What a caller can see to at the insert ----

  // The queue holds the order, and what the session has not numbered comes after what it has.
  ghost predicate HoldsOrder(queue: seq<Row>, session: nat, given: seq<string>, rank: Rank) {
    && (forall r, q {:trigger Precedes(r.id, q.id, rank)} :: r in queue && q in queue && r.key < q.key ==> Precedes(r.id, q.id, rank))
    && (forall r, id {:trigger Precedes(id, r.id, rank)} :: r in queue && r.session != session && id in given ==> Precedes(id, r.id, rank))
  }

  ghost predicate OrderInv(st: State, rank: Rank) {
    var latest := |st.hub.sessions| - 1;
    0 <= latest < |st.ledger| && HoldsOrder(st.hub.queue, latest, st.ledger[latest], rank)
  }

  // Rows that stem from others, with the same id and key, and unnumbered only if those were.
  ghost predicate Stems(after: seq<Row>, before: seq<Row>, session: nat) {
    forall r :: r in after ==> exists q :: q in before && StemsFrom(r, q, session)
  }

  ghost predicate StemsFrom(r: Row, q: Row, session: nat) {
    r.id == q.id && r.key == q.key && (r.session != session ==> q.session != session)
  }

  lemma StemsHold(after: seq<Row>, before: seq<Row>, session: nat, given: seq<string>, rank: Rank)
    requires HoldsOrder(before, session, given, rank) && Stems(after, before, session)
    ensures HoldsOrder(after, session, given, rank)
  {
    forall r, q | r in after && q in after && r.key < q.key ensures Precedes(r.id, q.id, rank) {
      var r' :| r' in before && StemsFrom(r, r', session);
      var q' :| q' in before && StemsFrom(q, q', session);
    }
    forall r, id | r in after && r.session != session && id in given ensures Precedes(id, r.id, rank) {
      var r' :| r' in before && StemsFrom(r, r', session);
    }
  }

  lemma SubsetStems(after: seq<Row>, before: seq<Row>, session: nat)
    requires forall r :: r in after ==> r in before
    ensures Stems(after, before, session)
  {
    forall r | r in after ensures exists q :: q in before && StemsFrom(r, q, session) {
      assert StemsFrom(r, r, session);
    }
  }

  lemma RefreshStems(queue: seq<Row>, body: string, session: nat)
    ensures Stems(RefreshQueue(queue, body), queue, session)
  {
    var after := RefreshQueue(queue, body);
    forall r | r in after ensures exists q :: q in queue && StemsFrom(r, q, session) {
      var k :| 0 <= k < |after| && after[k] == r;
      assert queue[k] in queue && StemsFrom(r, queue[k], session);
    }
  }

  lemma NumberStems(queue: seq<Row>, session: nat, high: nat)
    ensures var rows := Batch(queue); Stems(Number(rows, session, high) + queue[|rows|..], queue, session)
  {
    var rows := Batch(queue);
    var after := Number(rows, session, high) + queue[|rows|..];
    forall r | r in after ensures exists q :: q in queue && StemsFrom(r, q, session) {
      var k :| 0 <= k < |after| && after[k] == r;
      assert queue[k] in queue && StemsFrom(r, queue[k], session);
    }
  }

  // What a read leaves unnumbered comes after what it numbers.
  lemma NumberHolds(queue: seq<Row>, session: nat, high: nat, given: seq<string>, rank: Rank)
    requires Sorted(queue) && HoldsOrder(queue, session, given, rank)
    ensures var rows := Batch(queue);
            HoldsOrder(Number(rows, session, high) + queue[|rows|..], session, given + Assigned(rows, session), rank)
  {
    var rows := Batch(queue);
    var numbered, rest, ids := Number(rows, session, high), queue[|rows|..], Assigned(rows, session);
    NumberStems(queue, session, high);
    StemsHold(numbered + rest, queue, session, given, rank);
    forall r: Row, id: string | r in numbered + rest && r.session != session && id in given + ids ensures Precedes(id, r.id, rank) {
      if id !in given {
        assert r !in numbered;
        var k :| |rows| <= k < |queue| && queue[k] == r;
        var j := AssignedFrom(rows, session, |rows|, id);
        assert queue[j] in queue && queue[k] in queue && queue[j].key < queue[k].key;
      }
    }
  }

  lemma HoldsNumbersInOrder(queue: seq<Row>, session: nat, given: seq<string>, rank: Rank, n: nat)
    requires Sorted(queue) && HoldsOrder(queue, session, given, rank)
    ensures NumbersInOrder(Batch(queue), session, given, rank, n)
  {
    var rows := Batch(queue);
    forall i | 0 <= i < |rows| && rows[i].session != session ensures Follows(rows, session, given, rank, i) {
      assert queue[i] in queue;
      forall j | 0 <= j < i ensures Precedes(rows[j].id, rows[i].id, rank) {
        assert queue[j] in queue && queue[j].key < queue[i].key;
      }
    }
  }

  // A step whose queue stems from the one before.
  lemma StemsKeepsOrder(before: State, after: State, rank: Rank)
    requires OrderInv(before, rank) && Stems(after.hub.queue, before.hub.queue, |before.hub.sessions| - 1)
    requires |after.hub.sessions| == |before.hub.sessions| && after.ledger == before.ledger
    ensures OrderInv(after, rank)
  {
    var latest := |before.hub.sessions| - 1;
    StemsHold(after.hub.queue, before.hub.queue, latest, before.ledger[latest], rank);
  }

  lemma ReadParts(st: State, i: nat)
    requires Reads(st, i)
    ensures var session, rows, next := st.polls[i].session, Batch(st.hub.queue), Next(st, NextOutbound(i));
            && session < |st.ledger| == |next.ledger| && |next.hub.sessions| == |st.hub.sessions|
            && next.hub.queue == Number(rows, session, st.hub.sessions[session].outboundSeq) + st.hub.queue[|rows|..]
            && next.ledger[session] == st.ledger[session] + Assigned(rows, session)
  {
  }

  lemma ReadsLatest(st: State, i: nat)
    requires Inv(st) && Reads(st, i)
    ensures Sorted(st.hub.queue) && st.polls[i].session == |st.hub.sessions| - 1
  {
  }

  lemma ReadKeepsOrder(st: State, i: nat, rank: Rank)
    requires OrderInv(st, rank) && Reads(st, i)
    requires Sorted(st.hub.queue) && st.polls[i].session == |st.hub.sessions| - 1
    ensures OrderInv(Next(st, NextOutbound(i)), rank)
  {
    var session := st.polls[i].session;
    ReadParts(st, i);
    NumberHolds(st.hub.queue, session, st.hub.sessions[session].outboundSeq, st.ledger[session], rank);
  }

  lemma AckKeepsOrder(st: State, i: nat, rank: Rank)
    requires OrderInv(st, rank) && Acks(st, i)
    ensures OrderInv(Next(st, AckOutbound(i)), rank)
  {
    SubsetStems(Next(st, AckOutbound(i)).hub.queue, st.hub.queue, |st.hub.sessions| - 1);
    StemsKeepsOrder(st, Next(st, AckOutbound(i)), rank);
  }

  lemma ExpireKeepsOrder(st: State, at: nat, rank: Rank)
    requires OrderInv(st, rank)
    ensures OrderInv(Next(st, Expire(at)), rank)
  {
    if at < |st.hub.queue| {
      SubsetStems(Next(st, Expire(at)).hub.queue, st.hub.queue, |st.hub.sessions| - 1);
      StemsKeepsOrder(st, Next(st, Expire(at)), rank);
    }
  }

  lemma RefreshKeepsOrder(st: State, body: string, rank: Rank)
    requires OrderInv(st, rank)
    ensures OrderInv(Next(st, Refresh(body)), rank)
  {
    RefreshStems(st.hub.queue, body, |st.hub.sessions| - 1);
    StemsKeepsOrder(st, Next(st, Refresh(body)), rank);
  }

  // A session that has numbered nothing has nothing to come after.
  lemma StartKeepsOrder(st: State, rank: Rank)
    requires Inv(st) && OrderInv(st, rank)
    ensures OrderInv(Next(st, StartSession), rank)
  {
  }

  // A step that leaves the queue and the ledger alone.
  lemma SameKeepsOrder(before: State, after: State, rank: Rank)
    requires OrderInv(before, rank) && after.hub.queue == before.hub.queue
    requires |after.hub.sessions| == |before.hub.sessions| && after.ledger == before.ledger
    ensures OrderInv(after, rank)
  {
  }

  lemma PollKeepsOrder(st: State, step: Step, rank: Rank)
    requires Inv(st) && OrderInv(st, rank) && (step.AckOutbound? || step.NextOutbound?)
    ensures OrderInv(Next(st, step), rank)
  {
    if step.AckOutbound? && Acks(st, step.poll) {
      AckKeepsOrder(st, step.poll, rank);
    } else if step.NextOutbound? && Reads(st, step.poll) {
      ReadsLatest(st, step.poll);
      ReadKeepsOrder(st, step.poll, rank);
    } else {
      SameKeepsOrder(st, Next(st, step), rank);
    }
  }

  lemma QuietKeepsOrder(st: State, step: Step, rank: Rank)
    requires Inv(st) && OrderInv(st, rank) && !Queues(st, step)
    ensures OrderInv(Next(st, step), rank)
  {
    match step
    case Enqueue(_, _, _) =>
    case Refresh(body) => RefreshKeepsOrder(st, body, rank);
    case Expire(at) => ExpireKeepsOrder(st, at, rank);
    case AckOutbound(_) => PollKeepsOrder(st, step, rank);
    case NextOutbound(_) => PollKeepsOrder(st, step, rank);
    case StartSession => StartKeepsOrder(st, rank);
    case _ => SameKeepsOrder(st, Next(st, step), rank);
  }

  // An insert in order: by key, behind all the latest session has numbered, and by arrival, behind
  // all that is queued.
  predicate StepInOrder(order: Order, st: State, step: Step) {
    Queues(st, step) ==>
      match order
      case ByKey => forall id :: id in st.keys && st.ledger != [] && id in st.ledger[|st.ledger| - 1] ==> st.keys[id] < step.key
      case ByArrival => forall row :: row in st.hub.queue ==> row.key < step.key
  }

  predicate QueuedInOrder(order: Order, steps: seq<Step>) {
    steps != [] ==>
      var before, last := steps[..|steps| - 1], steps[|steps| - 1];
      QueuedInOrder(order, before) && StepInOrder(order, Run(before), last)
  }

  lemma InsertHolds(queue: seq<Row>, row: Row, session: nat, given: seq<string>, rank: Rank, place: int)
    requires HoldsOrder(queue, session, given, rank)
    requires row.id !in given && forall r :: r in queue ==> r.id != row.id
    requires forall r :: r in queue && r.id in rank ==>
               (r.key < row.key ==> rank[r.id] < place) && (row.key < r.key ==> place < rank[r.id])
    requires forall id :: id in given && id in rank ==> rank[id] < place
    ensures HoldsOrder(Insert(queue, row), session, given, rank[row.id := place])
  {
    var longer := Insert(queue, row);
    forall r | r in longer ensures r == row || r in queue {
      var k :| 0 <= k < |longer| && longer[k] == r;
      InsertedAt(queue, row, k);
    }
    var after := rank[row.id := place];
    forall r, q | r in longer && q in longer && r.key < q.key ensures Precedes(r.id, q.id, after) {
      assert r != row && q != row ==> Precedes(r.id, q.id, rank);
    }
    forall r, id | r in longer && r.session != session && id in given ensures Precedes(id, r.id, after) {
      assert r != row ==> Precedes(id, r.id, rank);
    }
  }

  // The id of a new envelope is nowhere yet.
  lemma NewId(st: State, id: string, session: nat)
    requires Inv(st) && id !in st.keys && session < |st.ledger|
    ensures id !in st.ledger[session] && forall r :: r in st.hub.queue ==> r.id != id && r.id in st.keys && st.keys[r.id] == r.key
    ensures forall other :: other in st.ledger[session] ==> other in st.keys
  {
    assert SessionInv(st.hub.sessions[session], st.ledger[session], st.processed[session], st.keys);
    forall r | r in st.hub.queue ensures r.id != id && r.id in st.keys && st.keys[r.id] == r.key {
      assert RowInv(r, st.hub.sessions, st.ledger, st.keys);
    }
  }

  // Where a new envelope ranks among those there are.
  ghost predicate FitsAt(st: State, row: Row, rank: Rank, place: int) {
    var latest := |st.hub.sessions| - 1;
    && 0 <= latest < |st.ledger|
    && (forall r :: r in st.hub.queue && r.id in rank ==>
          (r.key < row.key ==> rank[r.id] < place) && (row.key < r.key ==> place < rank[r.id]))
    && (forall id :: id in st.ledger[latest] && id in rank ==> rank[id] < place)
  }

  lemma EnqueueHolds(st: State, next: State, row: Row, rank: Rank, place: int)
    requires Inv(st) && OrderInv(st, rank) && row.id !in st.keys && FitsAt(st, row, rank, place)
    requires next.hub.queue == Insert(st.hub.queue, row) && |next.hub.sessions| == |st.hub.sessions| && next.ledger == st.ledger
    ensures OrderInv(next, rank[row.id := place])
  {
    var latest := |st.hub.sessions| - 1;
    NewId(st, row.id, latest);
    InsertHolds(st.hub.queue, row, latest, st.ledger[latest], rank, place);
  }

  lemma RanksByKey(st: State, row: Row)
    requires Inv(st) && row.id !in st.keys
    requires forall id :: id in st.keys && st.ledger != [] && id in st.ledger[|st.ledger| - 1] ==> st.keys[id] < row.key
    ensures FitsAt(st, row, st.keys, row.key)
  {
    NewId(st, row.id, |st.hub.sessions| - 1);
  }

  lemma RanksByArrival(st: State, row: Row, rank: Rank, place: int)
    requires Inv(st) && forall id :: id in rank ==> rank[id] < place
    requires forall r :: r in st.hub.queue ==> r.key < row.key
    ensures FitsAt(st, row, rank, place)
  {
  }

  lemma EnqueueKeepsKeyOrder(st: State, step: Step)
    requires Inv(st) && OrderInv(st, st.keys) && Queues(st, step) && StepInOrder(ByKey, st, step)
    ensures OrderInv(Next(st, step), st.keys[step.id := step.key])
  {
    var row := Row(step.id, step.key, step.content, 0, 0);
    QueuesRow(st, step);
    RanksByKey(st, row);
    EnqueueHolds(st, Next(st, step), row, st.keys, step.key);
  }

  lemma EnqueueKeepsArrivals(st: State, step: Step, rank: Rank, place: int)
    requires Inv(st) && OrderInv(st, rank) && Queues(st, step) && StepInOrder(ByArrival, st, step)
    requires forall id :: id in rank ==> rank[id] < place
    ensures OrderInv(Next(st, step), rank[step.id := place])
  {
    var row := Row(step.id, step.key, step.content, 0, 0);
    QueuesRow(st, step);
    RanksByArrival(st, row, rank, place);
    EnqueueHolds(st, Next(st, step), row, rank, place);
  }

  lemma {:induction false} RunKeepsOrder(order: Order, steps: seq<Step>)
    requires QueuedInOrder(order, steps)
    ensures OrderInv(Run(steps), RankOf(order, steps))
  {
    if steps != [] {
      var before, last := steps[..|steps| - 1], steps[|steps| - 1];
      RunKeepsOrder(order, before);
      RunKeeps(before);
      if Queues(Run(before), last) {
        NewRankOf(order, steps);
        if order == ByKey {
          EnqueueKeepsKeyOrder(Run(before), last);
        } else {
          ArrivalsAreKeys(before);
          EnqueueKeepsArrivals(Run(before), last, Arrivals(before), |before|);
        }
      } else {
        QuietKeepsOrder(Run(before), last, RankOf(order, before));
        SameRankOf(order, steps);
      }
    }
  }

  lemma ReadInOrder(st: State, i: nat, rank: Rank, n: nat)
    requires Inv(st) && OrderInv(st, rank) && Reads(st, i)
    ensures NumbersInOrder(Batch(st.hub.queue), st.polls[i].session, st.ledger[st.polls[i].session], rank, n)
  {
    ReadsLatest(st, i);
    HoldsNumbersInOrder(st.hub.queue, st.polls[i].session, st.ledger[st.polls[i].session], rank, n);
  }

  /** Envelopes queued in order are numbered in order, in every session. */
  lemma {:induction false} QueuedInOrderReads(order: Order, steps: seq<Step>, session: nat, n: nat)
    requires QueuedInOrder(order, steps)
    ensures ReadsInOrder(order, steps, session, n)
  {
    if steps != [] {
      var before, last := steps[..|steps| - 1], steps[|steps| - 1];
      QueuedInOrderReads(order, before, session, n);
      if ReadsFor(Run(before), last, session) {
        RunKeeps(before);
        RunKeepsOrder(order, before);
        ReadInOrder(Run(before), last.poll, RankOf(order, before), n);
      }
    }
  }

  /** And processed in order. */
  lemma ProcessedInOrder(order: Order, steps: seq<Step>, session: nat, a: nat, b: nat)
    requires QueuedInOrder(order, steps) && session < |Run(steps).processed|
    requires a < b < |Run(steps).processed[session]|
    ensures var ids, rank := Run(steps).processed[session], RankOf(order, steps);
            ids[a] in rank && ids[b] in rank && rank[ids[a]] < rank[ids[b]]
  {
    QueuedInOrderReads(order, steps, session, |Run(steps).processed[session]|);
    ProcessedInOrderIff(order, steps, session);
    ProcessedIsRanked(order, steps, session, a);
    ProcessedIsRanked(order, steps, session, b);
  }

  lemma ProcessedIsRanked(order: Order, steps: seq<Step>, session: nat, a: nat)
    requires session < |Run(steps).processed| && a < |Run(steps).processed[session]|
    ensures Run(steps).processed[session][a] in RankOf(order, steps)
  {
    RunKeeps(steps);
    ArrivalsAreKeys(steps);
    var st := Run(steps);
    assert SessionInv(st.hub.sessions[session], st.ledger[session], st.processed[session], st.keys);
    assert st.ledger[session][a] in st.ledger[session];
  }
}
