/** The order in which the hub sends its queue: when a batch ascends by seq, which step alone can
    disorder the queue, and what holds over every run in which that step never happens. */
module QueueOrder {
  import opened Downlink

  predicate Ascending(wires: seq<Wire>) {
    forall i, j :: 0 <= i < j < |wires| ==> wires[i].seqNo < wires[j].seqNo
  }

  // The batch the session is sent from a queue.
  function Sends(queue: seq<Row>, session: nat, high: nat): (wires: seq<Wire>) {
    Wires(Number(Batch(queue), session, high))
  }

  // Rows numbered in the session come before the rest, in seq order.
  predicate InOrder(rows: seq<Row>, session: nat) {
    forall i, j :: 0 <= i < j < |rows| ==> PairInOrder(rows[i], rows[j], session)
  }

  predicate PairInOrder(first: Row, second: Row, session: nat) {
    second.session == session ==> first.session == session && first.seqNo < second.seqNo
  }

  // No seq of the session is above its mark.
  ghost predicate Below(rows: seq<Row>, session: nat, high: nat) {
    forall k :: 0 <= k < |rows| && rows[k].session == session ==> rows[k].seqNo <= high
  }

  // ---- One batch ----

  lemma PairAscends(rows: seq<Row>, session: nat, high: nat, i: nat, j: nat)
    requires Below(rows, session, high) && i < j < |rows|
    ensures Numbered(rows, session, high, i).seqNo < Numbered(rows, session, high, j).seqNo <==>
            PairInOrder(rows[i], rows[j], session)
  {
    if rows[i].session != session {
      AssignedAt(rows, session, i, j);
    }
  }

  /** A batch ascends by seq if and only if, in the rows read, those numbered in the session come
      first and in seq order. */
  lemma SendsAscendIff(queue: seq<Row>, session: nat, high: nat)
    requires Below(queue, session, high)
    ensures Ascending(Sends(queue, session, high)) <==> InOrder(Batch(queue), session)
  {
    var rows := Batch(queue);
    var wires := Sends(queue, session, high);
    forall i, j | 0 <= i < j < |rows|
      ensures wires[i].seqNo < wires[j].seqNo <==> PairInOrder(rows[i], rows[j], session)
    {
      PairAscends(rows, session, high, i, j);
    }
  }

  lemma QueueBelow(st: State, session: nat)
    requires Inv(st) && 0 < session < |st.hub.sessions|
    ensures Below(st.hub.queue, session, st.hub.sessions[session].outboundSeq)
  {
    forall k | 0 <= k < |st.hub.queue| && st.hub.queue[k].session == session
      ensures st.hub.queue[k].seqNo <= st.hub.sessions[session].outboundSeq
    {
      assert st.hub.queue[k] in st.hub.queue && RowInv(st.hub.queue[k], st.hub.sessions, st.ledger, st.keys);
      assert SessionInv(st.hub.sessions[session], st.ledger[session], st.processed[session], st.keys);
    }
  }

  // The batch a read hands out is the one its session is sent from the queue.
  lemma ReadSends(st: State, i: nat)
    requires Reads(st, i)
    ensures var session := st.polls[i].session;
            Next(st, NextOutbound(i)).polls[i] ==
              Read(session, Sends(st.hub.queue, session, st.hub.sessions[session].outboundSeq))
  {
  }

  /** When the hub keeps the ascending order the protocol asks of a sender, and when it does not,
      in every reachable state. Rows are read in (created_at, id) order, and ids minted in the same
      millisecond sort arbitrarily, so rows already numbered can stand behind later ones. */
  lemma BatchAscendsIff(steps: seq<Step>, i: nat)
    requires Reads(Run(steps), i)
    ensures var st := Run(steps);
            Ascending(Next(st, NextOutbound(i)).polls[i].envelopes) <==> InOrder(Batch(st.hub.queue), st.polls[i].session)
  {
    RunKeeps(steps);
    var st := Run(steps);
    var session := st.polls[i].session;
    QueueBelow(st, session);
    ReadSends(st, i);
    SendsAscendIff(st.hub.queue, session, st.hub.sessions[session].outboundSeq);
  }

  // ---- What disorders a queue ----

  // No row from a place on is numbered in the session.
  predicate NoneFrom(queue: seq<Row>, session: nat, at: nat) {
    forall k :: at <= k < |queue| ==> queue[k].session != session
  }

  lemma InsertDisorders(queue: seq<Row>, row: Row, session: nat, k: nat)
    requires row.session != session && Place(queue, row.key) <= k < |queue| && queue[k].session == session
    ensures !InOrder(Insert(queue, row), session)
  {
    var at := Place(queue, row.key);
    InsertedAt(queue, row, at);
    InsertedAt(queue, row, k + 1);
    assert !PairInOrder(Insert(queue, row)[at], Insert(queue, row)[k + 1], session);
  }

  lemma InsertKeepsOrder(queue: seq<Row>, row: Row, session: nat)
    requires row.session != session && NoneFrom(queue, session, Place(queue, row.key)) && InOrder(queue, session)
    ensures InOrder(Insert(queue, row), session)
  {
    var longer := Insert(queue, row);
    var at := Place(queue, row.key);
    forall i, j | 0 <= i < j < |longer| ensures PairInOrder(longer[i], longer[j], session) {
      InsertedAt(queue, row, i);
      InsertedAt(queue, row, j);
      assert j < at ==> PairInOrder(queue[i], queue[j], session);
    }
  }

  // How far a batch reaches into the queue that one more row joins.
  function Reach(queue: seq<Row>): (n: nat)
    ensures n <= |queue|
  {
    if |queue| < MAX_OUTBOUND_BATCH then |queue| else MAX_OUTBOUND_BATCH - 1
  }

  /** A row arriving at a queue in order leaves it in order if and only if it sorts behind every row
      numbered in the session. The batch sent next ascends if and only if it sorts behind all of
      them that the batch still holds. */
  lemma AscendsUnlessOvertaken(queue: seq<Row>, row: Row, session: nat, high: nat)
    requires Below(queue, session, high) && InOrder(queue, session) && row.session != session
    ensures var at := Place(queue, row.key);
            && (InOrder(Insert(queue, row), session) <==> NoneFrom(queue, session, at))
            && (Ascending(Sends(Insert(queue, row), session, high)) <==>
                NoneFrom(queue[..Reach(queue)], session, at))
  {
    var at := Place(queue, row.key);
    if NoneFrom(queue, session, at) {
      InsertKeepsOrder(queue, row, session);
    } else {
      var k :| at <= k < |queue| && queue[k].session == session;
      InsertDisorders(queue, row, session, k);
    }
    NextBatchAscends(queue, row, session, high);
  }

  lemma InsertBelow(queue: seq<Row>, row: Row, session: nat, high: nat)
    requires Below(queue, session, high) && row.session != session
    ensures Below(Insert(queue, row), session, high)
  {
    var longer := Insert(queue, row);
    forall k | 0 <= k < |longer| && longer[k].session == session ensures longer[k].seqNo <= high {
      InsertedAt(queue, row, k);
    }
  }

  lemma NextBatchAscends(queue: seq<Row>, row: Row, session: nat, high: nat)
    requires Below(queue, session, high) && InOrder(queue, session) && row.session != session
    ensures Ascending(Sends(Insert(queue, row), session, high)) <==>
            NoneFrom(queue[..Reach(queue)], session, Place(queue, row.key))
  {
    InsertBelow(queue, row, session, high);
    SendsAscendIff(Insert(queue, row), session, high);
    if NoneFrom(queue[..Reach(queue)], session, Place(queue, row.key)) {
      BatchKeepsOrder(queue, row, session);
    } else {
      BatchDisorders(queue, row, session);
    }
  }

  lemma BatchKeepsOrder(queue: seq<Row>, row: Row, session: nat)
    requires InOrder(queue, session) && row.session != session
    requires NoneFrom(queue[..Reach(queue)], session, Place(queue, row.key))
    ensures InOrder(Batch(Insert(queue, row)), session)
  {
    var rows := Batch(Insert(queue, row));
    var at, n := Place(queue, row.key), Reach(queue);
    forall k | at <= k < n ensures queue[k].session != session {
      assert queue[..n][k] == queue[k];
    }
    forall i, j | 0 <= i < j < |rows| ensures PairInOrder(rows[i], rows[j], session) {
      InsertedAt(queue, row, i);
      InsertedAt(queue, row, j);
      assert j < at ==> PairInOrder(queue[i], queue[j], session);
    }
  }

  lemma BatchDisorders(queue: seq<Row>, row: Row, session: nat)
    requires row.session != session && !NoneFrom(queue[..Reach(queue)], session, Place(queue, row.key))
    ensures !InOrder(Batch(Insert(queue, row)), session)
  {
    var rows := Batch(Insert(queue, row));
    var at, n := Place(queue, row.key), Reach(queue);
    var k :| at <= k < n && queue[..n][k].session == session;
    InsertedAt(queue, row, at);
    InsertedAt(queue, row, k + 1);
    assert !PairInOrder(rows[at], rows[k + 1], session);
  }

  // An enqueue that takes effect in front of a row numbered in the latest session.
  predicate Overtakes(st: State, step: Step) {
    && step.Enqueue? && Next(st, step) != st && |st.hub.sessions| > 1
    && !NoneFrom(st.hub.queue, |st.hub.sessions| - 1, Place(st.hub.queue, step.key))
  }

  // The queue is in the order of the latest session, if there was one.
  predicate Ordered(st: State) {
    |st.hub.sessions| > 1 ==> InOrder(st.hub.queue, |st.hub.sessions| - 1)
  }

  lemma EnqueueOrders(st: State, id: string, key: int, content: Content)
    requires Inv(st) && Ordered(st)
    ensures Ordered(Next(st, Enqueue(id, key, content))) <==> !Overtakes(st, Enqueue(id, key, content))
  {
    var next := Next(st, Enqueue(id, key, content));
    var latest := |st.hub.sessions| - 1;
    if next != st && latest > 0 {
      QueueBelow(st, latest);
      AscendsUnlessOvertaken(st.hub.queue, Row(id, key, content, 0, 0), latest, st.hub.sessions[latest].outboundSeq);
    }
  }

  lemma RefreshOrders(queue: seq<Row>, body: string, session: nat)
    requires InOrder(queue, session)
    ensures InOrder(RefreshQueue(queue, body), session)
  {
    var after := RefreshQueue(queue, body);
    forall i, j | 0 <= i < j < |after| ensures PairInOrder(after[i], after[j], session) {
      assert PairInOrder(queue[i], queue[j], session);
    }
  }

  lemma ExpireOrders(queue: seq<Row>, at: nat, session: nat)
    requires InOrder(queue, session) && at < |queue|
    ensures InOrder(queue[..at] + queue[at + 1..], session)
  {
    var rest := queue[..at] + queue[at + 1..];
    forall i, j | 0 <= i < j < |rest| ensures PairInOrder(rest[i], rest[j], session) {
      assert PairInOrder(queue[if i < at then i else i + 1], queue[if j < at then j else j + 1], session);
    }
  }

  lemma TailInOrder(queue: seq<Row>, session: nat)
    requires InOrder(queue, session) && queue != []
    ensures InOrder(queue[1..], session)
    ensures forall row :: row in queue[1..] ==> PairInOrder(queue[0], row, session)
  {
    var tail := queue[1..];
    forall i, j | 0 <= i < j < |tail| ensures PairInOrder(tail[i], tail[j], session) {
      assert PairInOrder(queue[i + 1], queue[j + 1], session);
    }
    forall row | row in tail ensures PairInOrder(queue[0], row, session) {
      var k :| 0 <= k < |tail| && tail[k] == row;
      assert PairInOrder(queue[0], queue[k + 1], session);
    }
  }

  lemma HeadInOrder(head: Row, rest: seq<Row>, session: nat)
    requires InOrder(rest, session) && forall row :: row in rest ==> PairInOrder(head, row, session)
    ensures InOrder([head] + rest, session)
  {
    var all := [head] + rest;
    forall i, j | 0 <= i < j < |all| ensures PairInOrder(all[i], all[j], session) {
      assert all[j] == rest[j - 1] && rest[j - 1] in rest;
      assert i > 0 ==> PairInOrder(rest[i - 1], rest[j - 1], session);
    }
  }

  lemma {:induction false} AckOrders(queue: seq<Row>, acked: nat, ack: nat, session: nat)
    requires InOrder(queue, session)
    ensures InOrder(Unacked(queue, acked, ack), session)
  {
    if queue != [] {
      TailInOrder(queue, session);
      AckOrders(queue[1..], acked, ack, session);
      var rest := Unacked(queue[1..], acked, ack);
      HeadInOrder(queue[0], rest, session);
    }
  }

  lemma ReadOrders(queue: seq<Row>, session: nat, high: nat)
    requires InOrder(queue, session) && Below(queue, session, high)
    ensures var rows := Batch(queue); InOrder(Number(rows, session, high) + queue[|rows|..], session)
  {
    var rows := Batch(queue);
    var numbered := Number(rows, session, high);
    var after := numbered + queue[|rows|..];
    forall i, j | 0 <= i < j < |after| ensures PairInOrder(after[i], after[j], session) {
      assert PairInOrder(queue[i], queue[j], session);
      if j < |rows| {
        PairAscends(rows, session, high, i, j);
      }
    }
  }

  lemma StartOrders(st: State)
    requires Inv(st)
    ensures Ordered(Next(st, StartSession))
  {
    forall k | 0 <= k < |st.hub.queue| ensures st.hub.queue[k].session < |st.hub.sessions| {
      assert st.hub.queue[k] in st.hub.queue && RowInv(st.hub.queue[k], st.hub.sessions, st.ledger, st.keys);
    }
  }

  lemma AckStepOrders(st: State, i: nat)
    requires Ordered(st)
    ensures Ordered(Next(st, AckOutbound(i)))
  {
    if Acks(st, i) {
      AckOrders(st.hub.queue, st.polls[i].request.session, st.polls[i].request.ack, |st.hub.sessions| - 1);
    }
  }

  lemma ReadStepOrders(st: State, i: nat)
    requires Inv(st) && Ordered(st)
    ensures Ordered(Next(st, NextOutbound(i)))
  {
    if Reads(st, i) {
      var latest := |st.hub.sessions| - 1;
      QueueBelow(st, latest);
      ReadOrders(st.hub.queue, latest, st.hub.sessions[latest].outboundSeq);
    }
  }

  // Every step other than an insert leaves the order alone.
  lemma QuietOrders(st: State, step: Step)
    requires Inv(st) && Ordered(st) && !step.Enqueue?
    ensures Ordered(Next(st, step))
  {
    var latest := |st.hub.sessions| - 1;
    match step
    case Refresh(body) => if latest > 0 { RefreshOrders(st.hub.queue, body, latest); }
    case Expire(at) => if latest > 0 && at < |st.hub.queue| { ExpireOrders(st.hub.queue, at, latest); }
    case AckOutbound(i) => AckStepOrders(st, i);
    case NextOutbound(i) => ReadStepOrders(st, i);
    case StartSession => StartOrders(st);
    case _ =>
  }

  lemma NextOrders(st: State, step: Step)
    requires Inv(st) && Ordered(st)
    ensures Ordered(Next(st, step)) <==> !Overtakes(st, step)
  {
    if step.Enqueue? {
      EnqueueOrders(st, step.id, step.key, step.content);
    } else {
      QuietOrders(st, step);
    }
  }

  /** Over every run, a queue in order is put out of order by exactly one kind of step: an envelope
      queued in front of one the latest session has numbered. */
  lemma OnlyOvertakingDisorders(steps: seq<Step>, step: Step)
    requires Ordered(Run(steps))
    ensures Ordered(Next(Run(steps), step)) <==> !Overtakes(Run(steps), step)
  {
    RunKeeps(steps);
    NextOrders(Run(steps), step);
  }

  // ---- Taking delivery of a whole batch ----

  // The rows read are the outstanding seqs above an ack, in turn, and then rows not yet numbered.
  predicate Continues(rows: seq<Row>, session: nat, ack: nat, high: nat)
    requires ack <= high
  {
    forall k :: 0 <= k < |rows| ==>
      if ack + k < high then rows[k].session == session && rows[k].seqNo == ack + 1 + k else rows[k].session != session
  }

  predicate Consecutive(wires: seq<Wire>, ack: nat) {
    forall k :: 0 <= k < |wires| ==> wires[k].seqNo == ack + 1 + k
  }

  lemma {:induction false} AssignedCount(rows: seq<Row>, session: nat, ack: nat, high: nat, i: nat)
    requires ack <= high && Continues(rows, session, ack, high) && i <= |rows|
    ensures |AssignedUpTo(rows, session, i)| == if ack + i <= high then 0 else ack + i - high
    decreases i
  {
    if i > 0 {
      AssignedCount(rows, session, ack, high, i - 1);
    }
  }

  lemma SendsConsecutiveIff(queue: seq<Row>, session: nat, ack: nat, high: nat)
    requires ack <= high && Below(queue, session, high)
    ensures Consecutive(Sends(queue, session, high), ack) <==> Continues(Batch(queue), session, ack, high)
  {
    var rows := Batch(queue);
    var wires := Sends(queue, session, high);
    if Continues(rows, session, ack, high) {
      forall k | 0 <= k < |wires| ensures wires[k].seqNo == ack + 1 + k {
        AssignedCount(rows, session, ack, high, k);
      }
    }
    if Consecutive(wires, ack) {
      forall k | 0 <= k < |rows|
        ensures if ack + k < high then rows[k].session == session && rows[k].seqNo == ack + 1 + k else rows[k].session != session
      {
        assert wires[k].seqNo == Numbered(rows, session, high, k).seqNo;
      }
    }
  }

  lemma {:induction false} ProcessLength(ack: nat, wires: seq<Wire>, length: nat)
    requires length <= |wires| && forall k :: 0 <= k < length ==> wires[k].seqNo == ack + 1 + k
    requires length < |wires| ==> wires[length].seqNo != ack + 1 + length
    ensures |Process(ack, wires)| == length
    decreases length
  {
    if length > 0 {
      ProcessLength(ack + 1, wires[1..], length - 1);
    }
  }

  lemma TakesAllIff(ack: nat, wires: seq<Wire>)
    ensures |Process(ack, wires)| == |wires| <==> Consecutive(wires, ack)
  {
    if Consecutive(wires, ack) {
      ProcessLength(ack, wires, |wires|);
    }
  }

  /** When a plugin whose acks have all arrived takes delivery of everything the next read gives it,
      in every reachable state: exactly when the rows read go on from its ack. */
  lemma UpToDateDeliversIff(steps: seq<Step>, i: nat)
    requires Reads(Run(steps), i)
    requires var st := Run(steps); st.plugin.inboundAck == st.hub.sessions[st.polls[i].session].outboundAck
    ensures var st := Run(steps);
            var session := st.polls[i].session;
            var sent := st.hub.sessions[session];
            var wires := Next(st, NextOutbound(i)).polls[i].envelopes;
            && sent.outboundAck <= sent.outboundSeq
            && (|Process(st.plugin.inboundAck, wires)| == |wires| <==>
                Continues(Batch(st.hub.queue), session, sent.outboundAck, sent.outboundSeq))
  {
    RunKeeps(steps);
    var st := Run(steps);
    var session := st.polls[i].session;
    assert SessionInv(st.hub.sessions[session], st.ledger[session], st.processed[session], st.keys);
    QueueBelow(st, session);
    ReadSends(st, i);
    SendsConsecutiveIff(st.hub.queue, session, st.plugin.inboundAck, st.hub.sessions[session].outboundSeq);
    TakesAllIff(st.plugin.inboundAck, Sends(st.hub.queue, session, st.hub.sessions[session].outboundSeq));
  }

  // ---- Runs without overtaking ----

  /** No envelope queued since the latest session began was queued in front of one it had numbered. */
  predicate NeverOvertaken(steps: seq<Step>) {
    steps != [] ==>
      var before, last := steps[..|steps| - 1], steps[|steps| - 1];
      last.StartSession? || (NeverOvertaken(before) && !Overtakes(Run(before), last))
  }

  // The whole queue goes on from the latest session's outbound ack.
  ghost predicate Flows(st: State) {
    var latest := |st.hub.sessions| - 1;
    latest > 0 ==>
      && st.hub.sessions[latest].outboundAck <= st.hub.sessions[latest].outboundSeq
      && Continues(st.hub.queue, latest, st.hub.sessions[latest].outboundAck, st.hub.sessions[latest].outboundSeq)
      && Outstanding(st.hub.queue, st.hub.sessions[latest])
  }

  // All of it is still queued.
  ghost predicate Outstanding(queue: seq<Row>, sent: Sent) {
    sent.outboundSeq - sent.outboundAck <= |queue|
  }

  lemma InsertFlows(queue: seq<Row>, row: Row, session: nat, ack: nat, high: nat)
    requires ack <= high <= ack + |queue| && Continues(queue, session, ack, high)
    requires row.session != session && NoneFrom(queue, session, Place(queue, row.key))
    ensures Continues(Insert(queue, row), session, ack, high)
  {
    var longer := Insert(queue, row);
    var at := Place(queue, row.key);
    assert at < |queue| ==> queue[at].session != session;
    forall k | 0 <= k < |longer|
      ensures if ack + k < high then longer[k].session == session && longer[k].seqNo == ack + 1 + k else longer[k].session != session
    {
      InsertedAt(queue, row, k);
    }
  }

  lemma RemoveFlows(queue: seq<Row>, at: nat, session: nat, ack: nat, high: nat)
    requires ack <= high <= ack + |queue| && Continues(queue, session, ack, high) && at < |queue| && queue[at].session != session
    ensures Continues(queue[..at] + queue[at + 1..], session, ack, high) && high <= ack + |queue| - 1
  {
    var rest := queue[..at] + queue[at + 1..];
    assert forall k :: 0 <= k < |rest| ==> rest[k] == if k < at then queue[k] else queue[k + 1];
  }

  lemma {:induction false} AckDrops(queue: seq<Row>, session: nat, base: nat, high: nat, ack: nat)
    requires base <= ack <= high <= base + |queue| && Continues(queue, session, base, high)
    ensures Unacked(queue, session, ack) == queue[ack - base..]
    decreases |queue|
  {
    if ack > base {
      var tail := queue[1..];
      assert forall k :: 0 <= k < |tail| ==> tail[k] == queue[k + 1];
      AckDrops(tail, session, base + 1, high, ack);
    } else {
      UnackedNone(queue, session, ack);
    }
  }

  lemma {:induction false} UnackedNone(queue: seq<Row>, session: nat, ack: nat)
    requires forall k :: 0 <= k < |queue| ==> queue[k].session != session || queue[k].seqNo > ack
    ensures Unacked(queue, session, ack) == queue
  {
    if queue != [] {
      UnackedNone(queue[1..], session, ack);
    }
  }

  lemma AckFlows(queue: seq<Row>, session: nat, base: nat, high: nat, ack: nat)
    requires base <= ack <= high <= base + |queue| && Continues(queue, session, base, high)
    ensures Continues(Unacked(queue, session, ack), session, ack, high) && high <= ack + |Unacked(queue, session, ack)|
  {
    AckDrops(queue, session, base, high, ack);
    var rest := queue[ack - base..];
    assert forall k :: 0 <= k < |rest| ==> rest[k] == queue[k + (ack - base)];
  }

  lemma ReadFlows(queue: seq<Row>, session: nat, ack: nat, high: nat)
    requires ack <= high <= ack + |queue| && Continues(queue, session, ack, high)
    ensures var rows := Batch(queue);
            var more := |Assigned(rows, session)|;
            && high + more <= ack + |queue|
            && Continues(Number(rows, session, high) + queue[|rows|..], session, ack, high + more)
  {
    var rows := Batch(queue);
    assert Continues(rows, session, ack, high);
    AssignedCount(rows, session, ack, high, |rows|);
    var after := Number(rows, session, high) + queue[|rows|..];
    forall k | 0 <= k < |rows| ensures after[k].session == session && after[k].seqNo == ack + 1 + k {
      AssignedCount(rows, session, ack, high, k);
    }
    assert forall k :: |rows| <= k < |queue| ==> after[k] == queue[k];
  }

  lemma EnqueueKeepsFlow(st: State, id: string, key: int, content: Content)
    requires Flows(st) && !Overtakes(st, Enqueue(id, key, content))
    ensures Flows(Next(st, Enqueue(id, key, content)))
  {
    var next := Next(st, Enqueue(id, key, content));
    var latest := |st.hub.sessions| - 1;
    if next != st && latest > 0 {
      InsertFlows(st.hub.queue, Row(id, key, content, 0, 0), latest,
                  st.hub.sessions[latest].outboundAck, st.hub.sessions[latest].outboundSeq);
    }
  }

  lemma ExpireKeepsFlow(st: State, at: nat)
    requires Flows(st)
    ensures Flows(Next(st, Expire(at)))
  {
    var latest := |st.hub.sessions| - 1;
    if at < |st.hub.queue| && st.hub.queue[at].session == 0 < latest {
      RemoveFlows(st.hub.queue, at, latest, st.hub.sessions[latest].outboundAck, st.hub.sessions[latest].outboundSeq);
    }
  }

  lemma RefreshKeepsFlow(st: State, body: string)
    requires Flows(st)
    ensures Flows(Next(st, Refresh(body)))
  {
  }

  lemma AckKeepsFlow(st: State, i: nat)
    requires Inv(st) && Flows(st)
    ensures Flows(Next(st, AckOutbound(i)))
  {
    if Acks(st, i) {
      var request := st.polls[i].request;
      var latest := |st.hub.sessions| - 1;
      var sent := st.hub.sessions[latest];
      AckFlows(st.hub.queue, latest, sent.outboundAck, sent.outboundSeq, request.ack);
      var next := Next(st, AckOutbound(i));
      assert request.session == latest && next.hub.queue == Unacked(st.hub.queue, latest, request.ack);
      assert next.hub.sessions[latest] == sent.(outboundAck := request.ack);
    }
  }

  lemma ReadKeepsFlow(st: State, i: nat)
    requires Inv(st) && Flows(st)
    ensures Flows(Next(st, NextOutbound(i)))
  {
    if Reads(st, i) {
      var session := st.polls[i].session;
      var sent := st.hub.sessions[session];
      ReadFlows(st.hub.queue, session, sent.outboundAck, sent.outboundSeq);
    }
  }

  lemma StartFlows(st: State)
    requires Inv(st)
    ensures Flows(Next(st, StartSession))
  {
    forall k | 0 <= k < |st.hub.queue| ensures st.hub.queue[k].session < |st.hub.sessions| {
      assert st.hub.queue[k] in st.hub.queue && RowInv(st.hub.queue[k], st.hub.sessions, st.ledger, st.keys);
    }
  }

  lemma NextKeepsFlow(st: State, step: Step)
    requires Inv(st) && (step.StartSession? || (Flows(st) && !Overtakes(st, step)))
    ensures Flows(Next(st, step))
  {
    match step
    case Enqueue(id, key, content) => EnqueueKeepsFlow(st, id, key, content);
    case Refresh(body) => RefreshKeepsFlow(st, body);
    case Expire(at) => ExpireKeepsFlow(st, at);
    case AckOutbound(i) => AckKeepsFlow(st, i);
    case NextOutbound(i) => ReadKeepsFlow(st, i);
    case StartSession => StartFlows(st);
    case _ =>
  }

  lemma {:induction false} RunFlows(steps: seq<Step>)
    requires NeverOvertaken(steps)
    ensures Flows(Run(steps))
  {
    if steps != [] {
      var before, last := steps[..|steps| - 1], steps[|steps| - 1];
      RunKeeps(before);
      if !last.StartSession? {
        RunFlows(before);
      }
      NextKeepsFlow(Run(before), last);
    }
  }

  lemma FlowSends(st: State, session: nat)
    requires Inv(st) && Flows(st) && Live(st.hub, session)
    ensures var sent := st.hub.sessions[session];
            var wires := Sends(st.hub.queue, session, sent.outboundSeq);
            |wires| == |Batch(st.hub.queue)| && Consecutive(wires, sent.outboundAck) &&
            forall k :: 0 <= k < |wires| ==> wires[k].id == st.hub.queue[k].id
  {
    var sent := st.hub.sessions[session];
    assert session == |st.hub.sessions| - 1;
    QueueBelow(st, session);
    assert Continues(Batch(st.hub.queue), session, sent.outboundAck, sent.outboundSeq);
    SendsConsecutiveIff(st.hub.queue, session, sent.outboundAck, sent.outboundSeq);
  }

  /** While nothing overtakes, every batch read is the front of the queue, numbered consecutively
      from just above the session's outbound ack. */
  lemma BatchesAscend(steps: seq<Step>, i: nat)
    requires NeverOvertaken(steps) && Reads(Run(steps), i)
    ensures var st := Run(steps);
            var wires := Next(st, NextOutbound(i)).polls[i].envelopes;
            |wires| == |Batch(st.hub.queue)| && Consecutive(wires, st.hub.sessions[st.polls[i].session].outboundAck) &&
            forall k :: 0 <= k < |wires| ==> wires[k].id == st.hub.queue[k].id
  {
    RunFlows(steps);
    RunKeeps(steps);
    ReadSends(Run(steps), i);
    FlowSends(Run(steps), Run(steps).polls[i].session);
  }

  /** No stall: while nothing overtakes, a plugin in the live session whose acks have all arrived
      takes delivery of the whole batch the next read gives it. */
  lemma UpToDatePollDelivers(steps: seq<Step>, i: nat)
    requires NeverOvertaken(steps) && Reads(Run(steps), i)
    requires var st := Run(steps);
             st.plugin.inboundAck == st.hub.sessions[st.polls[i].session].outboundAck
    ensures var st := Run(steps);
            var wires := Next(st, NextOutbound(i)).polls[i].envelopes;
            |Process(st.plugin.inboundAck, wires)| == |wires| == |Batch(st.hub.queue)|
  {
    BatchesAscend(steps, i);
    var st := Run(steps);
    TakesAllIff(st.plugin.inboundAck, Next(st, NextOutbound(i)).polls[i].envelopes);
  }

  /** A new session renumbers what is unacked from 1, in queue order, whatever it was before. */
  lemma NewSessionNumbersFromOne(steps: seq<Step>, i: nat)
    requires var st := Run(steps); Reads(st, i) && st.hub.sessions[st.polls[i].session].outboundSeq == 0
    ensures var st := Run(steps);
            var wires := Next(st, NextOutbound(i)).polls[i].envelopes;
            |wires| == |Batch(st.hub.queue)| && forall k :: 0 <= k < |wires| ==>
              wires[k] == Wire(st.hub.queue[k].id, k + 1, st.hub.queue[k].content)
  {
    RunKeeps(steps);
    var st := Run(steps);
    var session := st.polls[i].session;
    NothingNumberedYet(st, session);
    ReadSends(st, i);
    QueueBelow(st, session);
    SendsConsecutiveIff(st.hub.queue, session, 0, 0);
  }

  // Nothing on the queue is numbered in a session that has numbered nothing.
  lemma NothingNumberedYet(st: State, session: nat)
    requires Inv(st) && 0 < session < |st.hub.sessions| && st.hub.sessions[session].outboundSeq == 0
    ensures forall k :: 0 <= k < |st.hub.queue| ==> st.hub.queue[k].session != session
  {
    assert SessionInv(st.hub.sessions[session], st.ledger[session], st.processed[session], st.keys);
    forall k | 0 <= k < |st.hub.queue| ensures st.hub.queue[k].session != session {
      assert st.hub.queue[k] in st.hub.queue && RowInv(st.hub.queue[k], st.hub.sessions, st.ledger, st.keys);
    }
  }

  /** What an overtaking row costs the response it is first sent in: a plugin whose acks have all
      arrived takes delivery of the rows in front of it and of nothing from it on. */
  lemma OvertakenStalls(queue: seq<Row>, row: Row, session: nat, ack: nat, high: nat)
    requires ack <= high && Continues(queue, session, ack, high)
    requires row.session != session && !NoneFrom(queue[..Reach(queue)], session, Place(queue, row.key))
    ensures |Process(ack, Sends(Insert(queue, row), session, high))| == Place(queue, row.key)
  {
    var longer := Insert(queue, row);
    var rows, at := Batch(longer), Place(queue, row.key);
    var k :| at <= k < Reach(queue) && queue[..Reach(queue)][k].session == session;
    assert queue[k].session == session && ack + k < high;
    var wires := Sends(longer, session, high);
    forall j | 0 <= j < at ensures wires[j].seqNo == ack + 1 + j {
      InsertedAt(queue, row, j);
    }
    InsertedAt(queue, row, at);
    assert wires[at].seqNo > high;
    ProcessLength(ack, wires, at);
  }
}
