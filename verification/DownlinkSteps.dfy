/** What each step of Downlink does and what it leaves alone, over the fields of the state: which rows
    an ack frees, which seqs a read gives, which rows a refresh rewrites, what a plugin takes. */
module DownlinkSteps {
  import opened Downlink

  // ---- Acks ----

  ghost predicate Asks(st: State, i: nat, session: nat, ack: nat) {
    i < |st.polls| && st.polls[i] == Arrived(Request(session, ack))
  }

  ghost predicate IsLive(st: State, session: nat) {
    0 < session == st.hub.live < |st.hub.sessions|
  }

  /** Acks are cumulative: one of the live session, above the last and at most what was numbered, is
      the session's ack afterwards, and frees exactly the rows of the session up to it. */
  lemma AckFrees(st: State, i: nat, session: nat, ack: nat)
    requires Asks(st, i, session, ack) && IsLive(st, session)
    requires st.hub.sessions[session].outboundAck < ack <= st.hub.sessions[session].outboundSeq
    ensures var next := Next(st, AckOutbound(i));
            && (forall row :: row in next.hub.queue <==> row in st.hub.queue && !(row.session == session && row.seqNo <= ack))
            && (Sorted(st.hub.queue) ==> Sorted(next.hub.queue))
            && next.hub.sessions == st.hub.sessions[session := Sent(st.hub.sessions[session].outboundSeq, ack)]
            && next.hub.live == st.hub.live
            && next == st.(hub := next.hub, polls := st.polls[i := Acked(session)])
  {
    if Sorted(st.hub.queue) {
      UnackedSorted(st.hub.queue, session, ack);
    }
  }

  lemma {:induction false} UnackedSorted(queue: seq<Row>, session: nat, ack: nat)
    requires Sorted(queue)
    ensures Sorted(Unacked(queue, session, ack))
  {
    if queue != [] {
      UnackedSorted(queue[1..], session, ack);
    }
  }

  /** An ack of 0, and one the session is already at or past, frees nothing; one above what was
      numbered, or of a session that is not live, ends the poll. */
  lemma OtherAcks(st: State, i: nat, session: nat, ack: nat)
    requires Asks(st, i, session, ack)
    ensures ack == 0 || (IsLive(st, session) && ack <= st.hub.sessions[session].outboundAck <= st.hub.sessions[session].outboundSeq) ==>
              Next(st, AckOutbound(i)) == st.(polls := st.polls[i := Acked(session)])
    ensures ack > 0 && (!IsLive(st, session) || ack > st.hub.sessions[session].outboundSeq) ==>
              Next(st, AckOutbound(i)) == st.(polls := st.polls[i := Done])
  {
  }

  // ---- Reads ----

  // A poll past its ack that has been given nothing yet.
  ghost predicate Reads(st: State, i: nat, session: nat) {
    i < |st.polls| && (st.polls[i] == Acked(session) || st.polls[i] == Read(session, []))
  }

  // How many of the first `n` rows the session has not numbered.
  ghost function Unnumbered(queue: seq<Row>, session: nat, n: nat): (count: nat)
    requires n <= |queue|
  {
    if n == 0 then 0 else Unnumbered(queue, session, n - 1) + if queue[n - 1].session == session then 0 else 1
  }

  // A row of the session stays, another takes the next seq.
  ghost predicate RenumbersAt(queue: seq<Row>, row: Row, session: nat, high: nat, k: nat)
    requires k < |queue|
  {
    row == if queue[k].session == session then queue[k]
           else Row(queue[k].id, queue[k].key, queue[k].content, session, high + 1 + Unnumbered(queue, session, k))
  }

  // What the first `n` rows of the queue become; the rest stay.
  ghost predicate Renumbers(queue: seq<Row>, after: seq<Row>, session: nat, high: nat, n: nat)
    requires n <= |queue|
  {
    && |after| == |queue| && after[n..] == queue[n..]
    && (forall k :: 0 <= k < n ==> RenumbersAt(queue, after[k], session, high, k))
  }

  // What is sent of the first `n` rows: each as it is then queued.
  ghost predicate SendsFront(envelopes: seq<Wire>, queue: seq<Row>, n: nat)
    requires n <= |queue|
  {
    && |envelopes| == n
    && forall k :: 0 <= k < n ==> envelopes[k].id == queue[k].id && envelopes[k].seqNo == queue[k].seqNo && envelopes[k].content == queue[k].content
  }

  // The id of a row given a seq is at that seq.
  ghost predicate EntersAt(ids: seq<string>, queue: seq<Row>, session: nat, k: nat)
    requires k < |queue|
  {
    queue[k].session != session ==> Unnumbered(queue, session, k) < |ids| && ids[Unnumbered(queue, session, k)] == queue[k].id
  }

  // The ids newly given, by the seq each was given.
  ghost predicate Enters(ids: seq<string>, queue: seq<Row>, session: nat, n: nat)
    requires n <= |queue|
  {
    && |ids| == Unnumbered(queue, session, n)
    && forall k :: 0 <= k < n ==> EntersAt(ids, queue, session, k)
  }

  lemma {:induction false} CountsAlike(queue: seq<Row>, rows: seq<Row>, session: nat, n: nat)
    requires n <= |rows| && rows <= queue
    ensures |AssignedUpTo(rows, session, n)| == Unnumbered(queue, session, n)
  {
    if n > 0 {
      CountsAlike(queue, rows, session, n - 1);
      assert rows[n - 1] == queue[n - 1];
    }
  }

  lemma {:induction false} AssignedEnters(queue: seq<Row>, rows: seq<Row>, session: nat, n: nat)
    requires n <= |rows| && rows <= queue
    ensures Enters(AssignedUpTo(rows, session, n), queue, session, n)
  {
    CountsAlike(queue, rows, session, n);
    if n > 0 {
      AssignedEnters(queue, rows, session, n - 1);
      assert rows[n - 1] == queue[n - 1];
      EntersOneMore(AssignedUpTo(rows, session, n - 1), AssignedUpTo(rows, session, n), queue, session, n - 1);
    }
  }

  lemma EntersOneMore(before: seq<string>, after: seq<string>, queue: seq<Row>, session: nat, n: nat)
    requires n < |queue| && Enters(before, queue, session, n)
    requires after == if queue[n].session == session then before else before + [queue[n].id]
    requires |after| == Unnumbered(queue, session, n + 1)
    ensures Enters(after, queue, session, n + 1)
  {
    forall k | 0 <= k < n + 1 ensures EntersAt(after, queue, session, k) {
      if k < n {
        assert EntersAt(before, queue, session, k);
      }
    }
  }

  // What a read does to the queue and to its session's columns.
  ghost predicate NumbersFront(before: Hub, after: Hub, session: nat, n: nat)
    requires session < |before.sessions| && n <= |before.queue|
  {
    var sent := before.sessions[session];
    && Renumbers(before.queue, after.queue, session, sent.outboundSeq, n)
    && after.sessions == before.sessions[session := Sent(sent.outboundSeq + Unnumbered(before.queue, session, n), sent.outboundAck)]
    && after.live == before.live
  }

  /** A read of the live session sends the first 200 rows, or all there are: those the session has
      numbered as they were, the others under the seqs after its last, in queue order. */
  lemma ReadNumbers(st: State, i: nat, session: nat)
    requires Reads(st, i, session) && IsLive(st, session) && |st.ledger| == |st.hub.sessions|
    ensures var next := Next(st, NextOutbound(i));
            var n := if |st.hub.queue| < 200 then |st.hub.queue| else 200;
            && NumbersFront(st.hub, next.hub, session, n)
            && |next.polls| == |st.polls| && next.polls == st.polls[i := next.polls[i]]
            && next.polls[i].Read? && next.polls[i].session == session && SendsFront(next.polls[i].envelopes, next.hub.queue, n)
            && next == st.(hub := next.hub, polls := next.polls, ledger := next.ledger)
  {
    HubNumbers(st.hub, session);
    ReadIs(st, i, session);
  }

  lemma ReadIs(st: State, i: nat, session: nat)
    requires Reads(st, i, session) && IsLive(st, session) && |st.ledger| == |st.hub.sessions|
    ensures var next, rows := Next(st, NextOutbound(i)), Batch(st.hub.queue);
            && next.hub == AfterRead(st.hub, session)
            && next.polls == st.polls[i := Read(session, Wires(Number(rows, session, st.hub.sessions[session].outboundSeq)))]
            && next == st.(hub := next.hub, polls := next.polls, ledger := next.ledger)
  {
  }

  ghost function AfterRead(hub: Hub, session: nat): Hub
    requires session < |hub.sessions|
  {
    var rows, sent := Batch(hub.queue), hub.sessions[session];
    hub.(queue := Number(rows, session, sent.outboundSeq) + hub.queue[|rows|..],
         sessions := hub.sessions[session := sent.(outboundSeq := sent.outboundSeq + |Assigned(rows, session)|)])
  }

  lemma HubNumbers(hub: Hub, session: nat)
    requires session < |hub.sessions|
    ensures var rows, high := Batch(hub.queue), hub.sessions[session].outboundSeq;
            && NumbersFront(hub, AfterRead(hub, session), session, |rows|)
            && SendsFront(Wires(Number(rows, session, high)), AfterRead(hub, session).queue, |rows|)
  {
    var rows := Batch(hub.queue);
    NumberRenumbers(hub.queue, rows, AfterRead(hub, session).queue, session, hub.sessions[session].outboundSeq);
    CountsAlike(hub.queue, rows, session, |rows|);
  }

  lemma NumberRenumbers(queue: seq<Row>, rows: seq<Row>, after: seq<Row>, session: nat, high: nat)
    requires rows <= queue && after == Number(rows, session, high) + queue[|rows|..]
    ensures Renumbers(queue, after, session, high, |rows|)
    ensures SendsFront(Wires(Number(rows, session, high)), after, |rows|)
  {
    forall k | 0 <= k < |rows| ensures RenumbersAt(queue, after[k], session, high, k) {
      CountsAlike(queue, rows, session, k);
      assert after[k] == Numbered(rows, session, high, k) && rows[k] == queue[k];
    }
  }

  /** And the session's ledger goes on with the ids that were given seqs, each at its seq. */
  lemma ReadEnters(st: State, i: nat, session: nat)
    requires Reads(st, i, session) && IsLive(st, session) && |st.ledger| == |st.hub.sessions|
    ensures var next := Next(st, NextOutbound(i));
            var n := if |st.hub.queue| < 200 then |st.hub.queue| else 200;
            exists ids :: Enters(ids, st.hub.queue, session, n) && next.ledger == st.ledger[session := st.ledger[session] + ids]
  {
    var rows := Batch(st.hub.queue);
    var ids := Assigned(rows, session);
    AssignedEnters(st.hub.queue, rows, session, |rows|);
    assert Next(st, NextOutbound(i)).ledger == st.ledger[session := st.ledger[session] + ids];
  }

  /** A read of any other session ends the poll and numbers nothing. */
  lemma OtherSessionReadsNothing(st: State, i: nat, session: nat)
    requires Reads(st, i, session) && !IsLive(st, session)
    ensures Next(st, NextOutbound(i)) == st.(polls := st.polls[i := Done])
  {
  }

  // ---- The queue ----

  // A row in key order: behind every smaller key, in front of every other.
  ghost predicate Inserts(queue: seq<Row>, after: seq<Row>, row: Row, at: nat) {
    && at <= |queue| && after == queue[..at] + [row] + queue[at..]
    && (forall k :: 0 <= k < at ==> queue[k].key < row.key)
    && (at < |queue| ==> row.key <= queue[at].key)
  }

  /** An envelope with a new id and key joins the queue unnumbered, at its place in key order, unless
      the queue holds 5000 rows; a refused one changes nothing. */
  lemma Enqueues(st: State, id: string, key: int, content: Content)
    ensures var next := Next(st, Enqueue(id, key, content));
            if id !in st.keys && (forall other :: other in st.keys ==> st.keys[other] != key) && |st.hub.queue| < 5000 then
              && (exists at :: Inserts(st.hub.queue, next.hub.queue, Row(id, key, content, 0, 0), at))
              && next == st.(hub := st.hub.(queue := next.hub.queue), keys := st.keys[id := key], contents := st.contents[id := content])
            else next == st
  {
    assert key in st.keys.Values <==> exists other :: other in st.keys && st.keys[other] == key;
    assert Inserts(st.hub.queue, Insert(st.hub.queue, Row(id, key, content, 0, 0)), Row(id, key, content, 0, 0), Place(st.hub.queue, key));
  }

  /** A ban revision rewrites the body of the bans.changed notices no session has numbered, and of
      nothing else. */
  lemma RefreshRewrites(st: State, body: string)
    ensures var next := Next(st, Refresh(body));
            && |next.hub.queue| == |st.hub.queue|
            && (forall k :: 0 <= k < |st.hub.queue| ==>
                  var row := st.hub.queue[k];
                  next.hub.queue[k] ==
                    if row.session == 0 && row.content.kind == "bans.changed" then
                      Row(row.id, row.key, Content(row.content.kind, row.content.ts, body), row.session, row.seqNo)
                    else row)
            && next == st.(hub := st.hub.(queue := next.hub.queue), contents := next.contents)
    ensures var next := Next(st, Refresh(body));
            && next.contents.Keys == st.contents.Keys
            && forall id :: id in st.contents ==>
                 next.contents[id] ==
                   if exists k :: 0 <= k < |st.hub.queue| && st.hub.queue[k].id == id && st.hub.queue[k].session == 0
                                  && st.hub.queue[k].content.kind == "bans.changed"
                   then st.contents[id].(body := body) else st.contents[id]
  {
  }

  /** Expiry takes out one row, and only one never numbered. */
  lemma ExpireRetires(st: State, at: nat)
    ensures var next := Next(st, Expire(at));
            if at < |st.hub.queue| && st.hub.queue[at].session == 0 then
              && |next.hub.queue| == |st.hub.queue| - 1
              && (forall k :: 0 <= k < |next.hub.queue| ==> next.hub.queue[k] == st.hub.queue[if k < at then k else k + 1])
              && next == st.(hub := st.hub.(queue := next.hub.queue), expired := st.expired + {st.hub.queue[at].id})
            else next == st
  {
  }

  // ---- The plugin and the network ----

  /** The plugin polls with what it has processed; a request, a poll and a response carry what they
      were made of. */
  lemma NetworkSteps(st: State, i: nat)
    ensures Next(st, Send) == st.(requests := st.requests + [Request(st.plugin.session, st.plugin.inboundAck)])
    ensures i < |st.requests| ==> Next(st, Arrive(i)) == st.(polls := st.polls + [Arrived(st.requests[i])])
    ensures i < |st.polls| && st.polls[i].Read? ==>
              Next(st, Respond(i)) ==
                st.(polls := st.polls[i := Done], responses := st.responses + [Response(st.polls[i].session, st.polls[i].envelopes)])
  {
  }

  // The longest run that continues the ack.
  ghost predicate Takes(ids: seq<string>, inboundAck: nat, envelopes: seq<Wire>) {
    && |ids| <= |envelopes|
    && (forall k :: 0 <= k < |ids| ==> envelopes[k].id == ids[k] && envelopes[k].seqNo == inboundAck + 1 + k)
    && (|ids| < |envelopes| ==> envelopes[|ids|].seqNo != inboundAck + 1 + |ids|)
  }

  /** Of a response of its own session a plugin takes the longest run that continues its ack, of
      another nothing. */
  lemma ReceiveTakes(st: State, i: nat)
    requires i < |st.responses|
    ensures var next, session := Next(st, Receive(i)), st.plugin.session;
            if st.responses[i].session == session < |st.processed| then
              exists ids :: Takes(ids, st.plugin.inboundAck, st.responses[i].envelopes) &&
                            next == st.(plugin := Plugin(session, st.plugin.inboundAck + |ids|),
                                        processed := st.processed[session := st.processed[session] + ids])
            else next == st
  {
    var ids := Process(st.plugin.inboundAck, st.responses[i].envelopes);
    assert Takes(ids, st.plugin.inboundAck, st.responses[i].envelopes);
  }

  /** A new session is live with nothing numbered or acked, and the queue is as it was; an ended one
      leaves none live; a plugin adopts only a later session, with nothing processed in it. */
  lemma SessionSteps(st: State, session: nat)
    ensures Next(st, StartSession) ==
              st.(hub := Hub(|st.hub.sessions|, st.hub.sessions + [Sent(0, 0)], st.hub.queue),
                  ledger := st.ledger + [[]], processed := st.processed + [[]])
    ensures Next(st, EndSession) == st.(hub := Hub(0, st.hub.sessions, st.hub.queue))
    ensures Next(st, Adopt(session)) ==
              if st.plugin.session < session < |st.hub.sessions| then st.(plugin := Plugin(session, 0)) else st
  {
  }

  // ---- Over runs ----

  /** Over every run a session's columns move only while it is live: its ack by an ack of a poll of
      that session, its last seq by a read of one. */
  lemma OnlyLiveMoves(steps: seq<Step>, step: Step, session: nat)
    requires session < |Run(steps).hub.sessions|
    ensures var st, next := Run(steps), Next(Run(steps), step);
            && session < |next.hub.sessions|
            && (next.hub.sessions[session].outboundAck != st.hub.sessions[session].outboundAck ==>
                  step.AckOutbound? && IsLive(st, session) && step.poll < |st.polls| &&
                  st.polls[step.poll].Arrived? && st.polls[step.poll].request == Request(session, next.hub.sessions[session].outboundAck))
            && (next.hub.sessions[session].outboundSeq != st.hub.sessions[session].outboundSeq ==>
                  step.NextOutbound? && IsLive(st, session) && Reads(st, step.poll, session))
  {
  }

  /** A run takes its steps one after another from the start. */
  lemma RunGoesOn(steps: seq<Step>, step: Step)
    ensures Run([]) == START && Run(steps + [step]) == Next(Run(steps), step)
  {
    assert (steps + [step])[..|steps|] == steps;
  }
}
