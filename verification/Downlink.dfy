/** Hub to plugin, over whole runs: the durable queue of hub/store/envelopes.go, the polls of
    hub/poll.go that ack and read it, and the plugin loop of conformance/hub/plugin.go, with a
    network that may lose, duplicate and delay every request and every response. */
module Downlink {
  const MAX_OUTBOUND_BATCH: nat := 200
  const OUTBOUND_QUEUE_LIMIT: nat := 5000

  // What an envelope says, beside its id: everything a plugin may deduplicate or act on.
  datatype Content = Content(kind: string, ts: int, body: string)

  const BANS_CHANGED := "bans.changed"

  /** An unacked queue row. `key` stands for (created_at, id), the order the queue is read in;
      `session` is 0 until the row is first numbered. */
  datatype Row = Row(id: string, key: int, content: Content, session: nat, seqNo: nat)

  // A session's outbound columns.
  datatype Sent = Sent(outboundSeq: nat, outboundAck: nat)

  // Sessions are numbered from 1 in the order they are started; `live` is 0 while there is none.
  datatype Hub = Hub(live: nat, sessions: seq<Sent>, queue: seq<Row>)

  datatype Plugin = Plugin(session: nat, inboundAck: nat)

  // An envelope on the wire.
  datatype Wire = Wire(id: string, seqNo: nat, content: Content)

  datatype Request = Request(session: nat, ack: nat)

  datatype Response = Response(session: nat, envelopes: seq<Wire>)

  datatype Poll =
    | Arrived(request: Request)
    | Acked(session: nat)
    | Read(session: nat, envelopes: seq<Wire>)
    | Done

  /** `ledger` lists, per session, the ids its seqs were given to; `processed` what the plugin
      processed in it; `keys` every id ever queued and `contents` what it last said in the queue;
      `expired` those retired unsent. All are history: no step reads them, but that a new envelope
      takes an id and a key never used. */
  datatype State = State(
    plugin: Plugin,
    hub: Hub,
    requests: seq<Request>,
    polls: seq<Poll>,
    responses: seq<Response>,
    ledger: seq<seq<string>>,
    processed: seq<seq<string>>,
    keys: map<string, int>,
    contents: map<string, Content>,
    expired: set<string>)

  const START := State(Plugin(0, 0), Hub(0, [Sent(0, 0)], []), [], [], [], [[]], [[]], map[], map[], {})

  datatype Step =
    | Enqueue(id: string, key: int, content: Content)
    | Refresh(body: string)       // noticeBanRevision rewrites the notices no session has numbered
    | Expire(at: nat)             // ExpireActions retires a dispatch that was never numbered
    | Send                        // the plugin polls with its ack
    | Arrive(request: nat)        // a request reaches the hub: never, once, or again
    | AckOutbound(poll: nat)
    | NextOutbound(poll: nat)     // again and again while the batch stays empty
    | Respond(poll: nat)
    | Receive(response: nat)      // a response reaches the plugin: never, once, or again
    | StartSession
    | EndSession
    | Adopt(session: nat)

  predicate Live(hub: Hub, session: nat) {
    0 < session == hub.live < |hub.sessions|
  }

  // Where a row with this key goes in key order.
  function Place(queue: seq<Row>, key: int): (at: nat)
    ensures at <= |queue|
    ensures forall i :: 0 <= i < at ==> queue[i].key < key
    ensures at < |queue| ==> key <= queue[at].key
  {
    if queue == [] || key <= queue[0].key then 0 else 1 + Place(queue[1..], key)
  }

  function Insert(queue: seq<Row>, row: Row): seq<Row> {
    var at := Place(queue, row.key); queue[..at] + [row] + queue[at..]
  }

  lemma InsertedAt(queue: seq<Row>, row: Row, k: nat)
    requires k <= |queue|
    ensures var at := Place(queue, row.key);
            Insert(queue, row)[k] == if k < at then queue[k] else if k == at then row else queue[k - 1]
  {
  }

  predicate Refreshable(row: Row) {
    row.session == 0 && row.content.kind == BANS_CHANGED
  }

  function Refreshed(row: Row, body: string): Row {
    if Refreshable(row) then row.(content := row.content.(body := body)) else row
  }

  function RefreshQueue(queue: seq<Row>, body: string): (after: seq<Row>)
    ensures |after| == |queue| && forall k :: 0 <= k < |queue| ==> after[k] == Refreshed(queue[k], body)
  {
    seq(|queue|, k requires 0 <= k < |queue| => Refreshed(queue[k], body))
  }

  predicate RefreshesId(queue: seq<Row>, id: string) {
    exists k :: 0 <= k < |queue| && queue[k].id == id && Refreshable(queue[k])
  }

  function RefreshContents(contents: map<string, Content>, queue: seq<Row>, body: string): map<string, Content> {
    map id | id in contents :: if RefreshesId(queue, id) then contents[id].(body := body) else contents[id]
  }

  // The ids a read of NextOutbound numbers among the first `n` rows, in order: those of the rows
  // not yet numbered in this session.
  function AssignedUpTo(rows: seq<Row>, session: nat, n: nat): (ids: seq<string>)
    requires n <= |rows|
  {
    if n == 0 then []
    else
      var ids := AssignedUpTo(rows, session, n - 1);
      if rows[n - 1].session == session then ids else ids + [rows[n - 1].id]
  }

  function Assigned(rows: seq<Row>, session: nat): (ids: seq<string>) {
    AssignedUpTo(rows, session, |rows|)
  }

  // Rows numbered in this session keep their seq, the rest get the next.
  function Numbered(rows: seq<Row>, session: nat, high: nat, i: nat): (row: Row)
    requires i < |rows|
    ensures row.id == rows[i].id && row.key == rows[i].key && row.content == rows[i].content && row.session == session
    ensures rows[i].session == session ==> row == rows[i]
  {
    if rows[i].session == session then rows[i]
    else Row(rows[i].id, rows[i].key, rows[i].content, session, high + |AssignedUpTo(rows, session, i)| + 1)
  }

  function Number(rows: seq<Row>, session: nat, high: nat): (numbered: seq<Row>)
    ensures |numbered| == |rows|
    ensures forall i :: 0 <= i < |rows| ==> numbered[i] == Numbered(rows, session, high, i)
  {
    seq(|rows|, i requires 0 <= i < |rows| => Numbered(rows, session, high, i))
  }

  /** The loop NextOutbound runs over the rows it read. */
  method NumberBatch(rows: seq<Row>, session: nat, high: nat) returns (numbered: seq<Row>, next: nat)
    ensures numbered == Number(rows, session, high)
    ensures next == high + |Assigned(rows, session)|
  {
    numbered, next := [], high;
    for i := 0 to |rows|
      invariant |numbered| == i && next == high + |AssignedUpTo(rows, session, i)|
      invariant forall k :: 0 <= k < i ==> numbered[k] == Numbered(rows, session, high, k)
    {
      if rows[i].session == session {
        numbered := numbered + [rows[i]];
      } else {
        next := next + 1;
        numbered := numbered + [Row(rows[i].id, rows[i].key, rows[i].content, session, next)];
      }
    }
  }

  function Wires(rows: seq<Row>): (wires: seq<Wire>)
    ensures |wires| == |rows| && forall i :: 0 <= i < |rows| ==> wires[i] == Wire(rows[i].id, rows[i].seqNo, rows[i].content)
  {
    seq(|rows|, i requires 0 <= i < |rows| => Wire(rows[i].id, rows[i].seqNo, rows[i].content))
  }

  // The rows an ack leaves behind.
  function Unacked(queue: seq<Row>, session: nat, ack: nat): (rows: seq<Row>)
    ensures forall row :: row in rows <==> row in queue && !(row.session == session && row.seqNo <= ack)
  {
    if queue == [] then []
    else (if queue[0].session == session && queue[0].seqNo <= ack then [] else [queue[0]]) + Unacked(queue[1..], session, ack)
  }

  // pollAndAck: take delivery while each envelope is the next one, then stop.
  function Process(inboundAck: nat, envelopes: seq<Wire>): (ids: seq<string>)
    ensures |ids| <= |envelopes|
    ensures forall k :: 0 <= k < |ids| ==> envelopes[k].id == ids[k] && envelopes[k].seqNo == inboundAck + 1 + k
    ensures |ids| < |envelopes| ==> envelopes[|ids|].seqNo != inboundAck + 1 + |ids|
    decreases |envelopes|
  {
    if envelopes == [] || envelopes[0].seqNo != inboundAck + 1 then []
    else [envelopes[0].id] + Process(inboundAck + 1, envelopes[1..])
  }

  // What Process answers is the longest run that continues the ack.
  lemma ProcessIs(inboundAck: nat, envelopes: seq<Wire>, ids: seq<string>)
    requires |ids| <= |envelopes|
    requires forall k :: 0 <= k < |ids| ==> envelopes[k].id == ids[k] && envelopes[k].seqNo == inboundAck + 1 + k
    requires |ids| < |envelopes| ==> envelopes[|ids|].seqNo != inboundAck + 1 + |ids|
    ensures ids == Process(inboundAck, envelopes)
  {
    LongestRun(inboundAck, envelopes, |ids|, |Process(inboundAck, envelopes)|);
    LongestRun(inboundAck, envelopes, |Process(inboundAck, envelopes)|, |ids|);
  }

  lemma LongestRun(inboundAck: nat, envelopes: seq<Wire>, m: nat, n: nat)
    requires m <= |envelopes| && n <= |envelopes|
    requires m < |envelopes| ==> envelopes[m].seqNo != inboundAck + 1 + m
    requires forall k :: 0 <= k < n ==> envelopes[k].seqNo == inboundAck + 1 + k
    ensures n <= m
  {
  }

  function Batch(queue: seq<Row>): seq<Row> {
    if |queue| <= MAX_OUTBOUND_BATCH then queue else queue[..MAX_OUTBOUND_BATCH]
  }

  function ReadQueue(st: State, i: nat, session: nat): State
    requires i < |st.polls| && session < |st.hub.sessions| && |st.ledger| == |st.hub.sessions|
  {
    var sent := st.hub.sessions[session];
    var rows := Batch(st.hub.queue);
    var numbered := Number(rows, session, sent.outboundSeq);
    var ids := Assigned(rows, session);
    st.(hub := st.hub.(queue := numbered + st.hub.queue[|rows|..],
                       sessions := st.hub.sessions[session := sent.(outboundSeq := sent.outboundSeq + |ids|)]),
        polls := st.polls[i := Read(session, Wires(numbered))],
        ledger := st.ledger[session := st.ledger[session] + ids])
  }

  function ApplyAck(st: State, i: nat, request: Request): State
    requires i < |st.polls|
  {
    if request.ack == 0 then st.(polls := st.polls[i := Acked(request.session)])
    else if !Live(st.hub, request.session) then st.(polls := st.polls[i := Done])
    else
      var sent := st.hub.sessions[request.session];
      if request.ack > sent.outboundSeq then st.(polls := st.polls[i := Done])
      else if request.ack <= sent.outboundAck then st.(polls := st.polls[i := Acked(request.session)])
      else
        st.(hub := st.hub.(queue := Unacked(st.hub.queue, request.session, request.ack),
                           sessions := st.hub.sessions[request.session := sent.(outboundAck := request.ack)]),
            polls := st.polls[i := Acked(request.session)])
  }

  function Next(st: State, step: Step): State {
    match step
    case Enqueue(id, key, content) =>
      if id in st.keys || key in st.keys.Values || |st.hub.queue| >= OUTBOUND_QUEUE_LIMIT then st
      else st.(hub := st.hub.(queue := Insert(st.hub.queue, Row(id, key, content, 0, 0))),
               keys := st.keys[id := key], contents := st.contents[id := content])
    case Refresh(body) =>
      st.(hub := st.hub.(queue := RefreshQueue(st.hub.queue, body)),
          contents := RefreshContents(st.contents, st.hub.queue, body))
    case Expire(at) =>
      if at < |st.hub.queue| && st.hub.queue[at].session == 0 then
        st.(hub := st.hub.(queue := st.hub.queue[..at] + st.hub.queue[at + 1..]), expired := st.expired + {st.hub.queue[at].id})
      else st
    case Send => st.(requests := st.requests + [Request(st.plugin.session, st.plugin.inboundAck)])
    case Arrive(i) => if i < |st.requests| then st.(polls := st.polls + [Arrived(st.requests[i])]) else st
    case AckOutbound(i) =>
      if i < |st.polls| && st.polls[i].Arrived? then ApplyAck(st, i, st.polls[i].request) else st
    case NextOutbound(i) =>
      if i < |st.polls| && (st.polls[i].Acked? || (st.polls[i].Read? && st.polls[i].envelopes == [])) then
        var session := st.polls[i].session;
        if Live(st.hub, session) && |st.ledger| == |st.hub.sessions| then ReadQueue(st, i, session)
        else st.(polls := st.polls[i := Done])
      else st
    case Respond(i) =>
      if i < |st.polls| && st.polls[i].Read? then
        st.(polls := st.polls[i := Done], responses := st.responses + [Response(st.polls[i].session, st.polls[i].envelopes)])
      else st
    case Receive(i) =>
      if i < |st.responses| && st.responses[i].session == st.plugin.session < |st.processed| then
        var ids := Process(st.plugin.inboundAck, st.responses[i].envelopes);
        st.(plugin := st.plugin.(inboundAck := st.plugin.inboundAck + |ids|),
            processed := st.processed[st.plugin.session := st.processed[st.plugin.session] + ids])
      else st
    case StartSession =>
      st.(hub := st.hub.(live := |st.hub.sessions|, sessions := st.hub.sessions + [Sent(0, 0)]),
          ledger := st.ledger + [[]], processed := st.processed + [[]])
    case EndSession => st.(hub := st.hub.(live := 0))
    case Adopt(session) =>
      if st.plugin.session < session < |st.hub.sessions| then st.(plugin := Plugin(session, 0)) else st
  }

  function Run(steps: seq<Step>): State {
    if steps == [] then START else Next(Run(steps[..|steps| - 1]), steps[|steps| - 1])
  }

  // ---- The invariant ----

  // A seq of a session names one id, for good.
  ghost predicate Names(ledger: seq<seq<string>>, session: nat, seqNo: nat, id: string) {
    session < |ledger| && 1 <= seqNo <= |ledger[session]| && ledger[session][seqNo - 1] == id
  }

  ghost predicate Distinct(ids: seq<string>) {
    forall i, j :: 0 <= i < j < |ids| ==> ids[i] != ids[j]
  }

  ghost predicate Sorted(queue: seq<Row>) {
    forall i, j :: 0 <= i < j < |queue| ==> queue[i].key < queue[j].key
  }

  ghost predicate InNoLedger(ledger: seq<seq<string>>, id: string) {
    forall s :: 0 <= s < |ledger| ==> id !in ledger[s]
  }

  ghost predicate RowInv(row: Row, sessions: seq<Sent>, ledger: seq<seq<string>>, keys: map<string, int>)
    requires 0 < |sessions| == |ledger|
  {
    var latest := |sessions| - 1;
    && row.id in keys && keys[row.id] == row.key
    && row.session <= latest
    && (row.session == 0 ==> row.seqNo == 0 && InNoLedger(ledger, row.id))
    && (row.session > 0 ==> Names(ledger, row.session, row.seqNo, row.id) && row.seqNo > sessions[row.session].outboundAck)
    && (row.session < latest ==> row.id !in ledger[latest])
  }

  ghost predicate QueueInv(hub: Hub, ledger: seq<seq<string>>, keys: map<string, int>) {
    && 0 < |hub.sessions| == |ledger|
    && Sorted(hub.queue)
    && forall row :: row in hub.queue ==> RowInv(row, hub.sessions, ledger, keys)
  }

  ghost predicate SessionInv(sent: Sent, given: seq<string>, done: seq<string>, keys: map<string, int>) {
    && |given| == sent.outboundSeq
    && Distinct(given)
    && (forall id :: id in given ==> id in keys)
    && done <= given
    && sent.outboundAck <= |done|
  }

  ghost predicate KeysInjective(keys: map<string, int>) {
    forall id, other :: id in keys && other in keys && keys[id] == keys[other] ==> id == other
  }

  ghost predicate LedgerInv(st: State) {
    && 0 < |st.hub.sessions| == |st.ledger| == |st.processed|
    && (st.hub.live == 0 || st.hub.live == |st.hub.sessions| - 1)
    && KeysInjective(st.keys)
    && (forall s :: 0 <= s < |st.ledger| ==> SessionInv(st.hub.sessions[s], st.ledger[s], st.processed[s], st.keys))
    && (forall s :: st.plugin.session < s < |st.ledger| ==> st.processed[s] == [])
  }

  ghost predicate WiresInv(ledger: seq<seq<string>>, session: nat, envelopes: seq<Wire>) {
    forall wire :: wire in envelopes ==> Names(ledger, session, wire.seqNo, wire.id)
  }

  ghost predicate RequestInv(request: Request, processed: seq<seq<string>>) {
    request.session < |processed| && request.ack <= |processed[request.session]|
  }

  ghost predicate TravelInv(st: State) {
    && st.plugin.session < |st.processed| && st.plugin.inboundAck == |st.processed[st.plugin.session]|
    && (forall i :: 0 <= i < |st.requests| ==> RequestInv(st.requests[i], st.processed))
    && (forall i :: 0 <= i < |st.polls| && st.polls[i].Arrived? ==> RequestInv(st.polls[i].request, st.processed))
    && (forall i :: 0 <= i < |st.polls| && st.polls[i].Read? ==> WiresInv(st.ledger, st.polls[i].session, st.polls[i].envelopes))
    && (forall i :: 0 <= i < |st.responses| ==> WiresInv(st.ledger, st.responses[i].session, st.responses[i].envelopes))
  }

  ghost predicate Queued(hub: Hub, id: string) {
    exists row :: row in hub.queue && row.id == id
  }

  ghost predicate WasProcessed(processed: seq<seq<string>>, id: string) {
    exists s :: 0 <= s < |processed| && id in processed[s]
  }

  // Whatever was queued is queued still, was processed, or was retired without ever being sent.
  ghost predicate Accounted(st: State) {
    && (forall id :: id in st.keys ==> Queued(st.hub, id) || WasProcessed(st.processed, id) || id in st.expired)
    && (forall id, s :: 0 <= s < |st.ledger| && id in st.ledger[s] ==> id !in st.expired)
    && (forall row :: row in st.hub.queue ==> row.id !in st.expired)
    && st.expired <= st.keys.Keys
  }

  ghost predicate Inv(st: State) {
    LedgerInv(st) && QueueInv(st.hub, st.ledger, st.keys) && TravelInv(st) && Accounted(st)
  }

  // ---- Every step keeps the invariant ----

  lemma InsertKeeps(queue: seq<Row>, row: Row)
    requires Sorted(queue) && forall r :: r in queue ==> r.key != row.key
    ensures Sorted(Insert(queue, row)) && forall r :: r in Insert(queue, row) <==> r == row || r in queue
  {
    var at := Place(queue, row.key);
    var front, back := queue[..at], queue[at..];
    assert queue == front + back;
    forall i | 0 <= i < |front| ensures front[i].key < row.key {
      assert front[i] == queue[i];
    }
    forall i | 0 <= i < |back| ensures row.key < back[i].key {
      assert back[i] == queue[at + i] && queue[at] in queue;
    }
    SortedJoin(front, row, back);
  }

  lemma SortedJoin(front: seq<Row>, row: Row, back: seq<Row>)
    requires Sorted(front) && Sorted(back)
    requires forall i :: 0 <= i < |front| ==> front[i].key < row.key
    requires forall i :: 0 <= i < |back| ==> row.key < back[i].key
    ensures Sorted(front + [row] + back)
  {
  }

  lemma EnqueueKeeps(st: State, id: string, key: int, content: Content)
    requires Inv(st)
    ensures Inv(Next(st, Enqueue(id, key, content)))
  {
    if !(id in st.keys || key in st.keys.Values || |st.hub.queue| >= OUTBOUND_QUEUE_LIMIT) {
      var next := Next(st, Enqueue(id, key, content));
      var row := Row(id, key, content, 0, 0);
      forall r | r in st.hub.queue ensures r.key != key {
        assert RowInv(r, st.hub.sessions, st.ledger, st.keys);
      }
      InsertKeeps(st.hub.queue, row);
      assert InNoLedger(st.ledger, id) by {
        forall s | 0 <= s < |st.ledger| ensures id !in st.ledger[s] {
          assert SessionInv(st.hub.sessions[s], st.ledger[s], st.processed[s], st.keys);
        }
      }
      assert LedgerInv(next) by {
        forall s | 0 <= s < |st.ledger| ensures SessionInv(st.hub.sessions[s], st.ledger[s], st.processed[s], next.keys) {
          assert SessionInv(st.hub.sessions[s], st.ledger[s], st.processed[s], st.keys);
        }
      }
      forall r | r in next.hub.queue ensures RowInv(r, st.hub.sessions, st.ledger, next.keys) {
        assert r in st.hub.queue ==> RowInv(r, st.hub.sessions, st.ledger, st.keys);
      }
      EnqueueAccounted(st, next, row);
    }
  }

  lemma EnqueueAccounted(st: State, next: State, row: Row)
    requires Accounted(st) && row.id !in st.keys
    requires next.keys == st.keys[row.id := row.key] && next.expired == st.expired
    requires next.processed == st.processed && next.ledger == st.ledger
    requires forall r :: r in next.hub.queue <==> r == row || r in st.hub.queue
    ensures Accounted(next)
  {
    forall id | id in next.keys ensures Queued(next.hub, id) || WasProcessed(next.processed, id) || id in next.expired {
      if id == row.id {
        assert row in next.hub.queue;
      } else if r :| r in st.hub.queue && r.id == id {
        assert r in next.hub.queue;
      }
    }
  }

  // Refreshing rewrites bodies and nothing else.
  lemma RefreshKeeps(st: State, body: string)
    requires Inv(st)
    ensures Inv(Next(st, Refresh(body)))
  {
    var before, after := st.hub.queue, RefreshQueue(st.hub.queue, body);
    SameKeysSorted(before, after);
    forall row | row in after ensures RowInv(row, st.hub.sessions, st.ledger, st.keys) && Queued(st.hub, row.id) {
      var k :| 0 <= k < |after| && after[k] == row;
      assert before[k] in before && RowInv(before[k], st.hub.sessions, st.ledger, st.keys);
    }
    var next := Next(st, Refresh(body));
    forall row | row in before ensures Queued(next.hub, row.id) {
      var k :| 0 <= k < |before| && before[k] == row;
      assert after[k] in after;
    }
    AccountedGrows(st, next);
  }

  lemma Removed(queue: seq<Row>, at: nat)
    requires at < |queue| && Sorted(queue)
    ensures var rest := queue[..at] + queue[at + 1..];
            Sorted(rest) && forall row :: row in rest <==> row in queue && row.key != queue[at].key
  {
    var rest := queue[..at] + queue[at + 1..];
    forall row | row in queue && row.key != queue[at].key ensures row in rest {
      var i :| 0 <= i < |queue| && queue[i] == row;
      assert rest[if i < at then i else i - 1] == row;
    }
  }

  lemma ExpireKeeps(st: State, at: nat)
    requires Inv(st)
    ensures Inv(Next(st, Expire(at)))
  {
    if at < |st.hub.queue| && st.hub.queue[at].session == 0 {
      Removed(st.hub.queue, at);
      var gone := st.hub.queue[at];
      assert gone in st.hub.queue && RowInv(gone, st.hub.sessions, st.ledger, st.keys);
      forall r | r in st.hub.queue ensures r.key == gone.key <==> r.id == gone.id {
        assert RowInv(r, st.hub.sessions, st.ledger, st.keys);
      }
      ExpireAccounted(st, Next(st, Expire(at)), gone);
    }
  }

  lemma ExpireAccounted(st: State, next: State, gone: Row)
    requires Accounted(st) && gone.id in st.keys && InNoLedger(st.ledger, gone.id)
    requires next.keys == st.keys && next.expired == st.expired + {gone.id}
    requires next.processed == st.processed && next.ledger == st.ledger
    requires forall r :: r in next.hub.queue <==> r in st.hub.queue && r.id != gone.id
    ensures Accounted(next)
  {
    forall id | id in st.keys ensures Queued(next.hub, id) || WasProcessed(st.processed, id) || id in next.expired {
      if id != gone.id && Queued(st.hub, id) {
        var row :| row in st.hub.queue && row.id == id;
        assert row in next.hub.queue;
      }
    }
  }

  lemma SendKeeps(st: State)
    requires Inv(st)
    ensures Inv(Next(st, Send))
  {
  }

  lemma ArriveKeeps(st: State, i: nat)
    requires Inv(st)
    ensures Inv(Next(st, Arrive(i)))
  {
  }

  lemma RespondKeeps(st: State, i: nat)
    requires Inv(st)
    ensures Inv(Next(st, Respond(i)))
  {
  }

  lemma EndKeeps(st: State)
    requires Inv(st)
    ensures Inv(Next(st, EndSession))
  {
  }

  // What was accounted for stays so while processing only grows and the queue loses only what
  // was processed.
  lemma AccountedGrows(before: State, after: State)
    requires Accounted(before) && after.keys == before.keys && after.expired == before.expired
    requires |before.processed| <= |after.processed|
    requires forall s :: 0 <= s < |before.processed| ==> before.processed[s] <= after.processed[s]
    requires forall row :: row in before.hub.queue ==> Queued(after.hub, row.id) || WasProcessed(after.processed, row.id)
    requires forall row :: row in after.hub.queue ==> Queued(before.hub, row.id)
    requires forall s, id :: 0 <= s < |after.ledger| && id in after.ledger[s] ==>
               Queued(before.hub, id) || (s < |before.ledger| && id in before.ledger[s])
    ensures Accounted(after)
  {
    forall id | id in after.keys
      ensures Queued(after.hub, id) || WasProcessed(after.processed, id) || id in after.expired
    {
      if WasProcessed(before.processed, id) {
        var s :| 0 <= s < |before.processed| && id in before.processed[s];
        assert id in after.processed[s];
      }
    }
  }

  lemma StartKeepsLedger(st: State)
    requires LedgerInv(st)
    ensures LedgerInv(Next(st, StartSession))
  {
    var next := Next(st, StartSession);
    forall s | 0 <= s < |next.ledger| ensures SessionInv(next.hub.sessions[s], next.ledger[s], next.processed[s], next.keys) {
      if s < |st.ledger| {
        assert SessionInv(st.hub.sessions[s], st.ledger[s], st.processed[s], st.keys);
      }
    }
  }

  lemma StartKeepsQueue(hub: Hub, ledger: seq<seq<string>>, keys: map<string, int>)
    requires QueueInv(hub, ledger, keys)
    ensures QueueInv(hub.(live := |hub.sessions|, sessions := hub.sessions + [Sent(0, 0)]), ledger + [[]], keys)
  {
    forall row | row in hub.queue ensures RowInv(row, hub.sessions + [Sent(0, 0)], ledger + [[]], keys) {
      assert RowInv(row, hub.sessions, ledger, keys);
    }
  }

  lemma StartAccounted(st: State)
    requires Accounted(st)
    ensures Accounted(Next(st, StartSession))
  {
    var next := Next(st, StartSession);
    forall row | row in st.hub.queue ensures Queued(next.hub, row.id) && Queued(st.hub, row.id) {
      assert row in next.hub.queue;
    }
    AccountedGrows(st, next);
  }

  lemma StartKeeps(st: State)
    requires Inv(st)
    ensures Inv(Next(st, StartSession))
  {
    StartKeepsLedger(st);
    StartKeepsQueue(st.hub, st.ledger, st.keys);
    StartAccounted(st);
  }

  lemma AdoptKeeps(st: State, session: nat)
    requires Inv(st)
    ensures Inv(Next(st, Adopt(session)))
  {
  }

  lemma NamedInOrder(ledger: seq<seq<string>>, session: nat, inboundAck: nat, envelopes: seq<Wire>, ids: seq<string>)
    requires WiresInv(ledger, session, envelopes) && |ids| <= |envelopes|
    requires forall k :: 0 <= k < |ids| ==> envelopes[k].id == ids[k] && envelopes[k].seqNo == inboundAck + 1 + k
    ensures forall k :: 0 <= k < |ids| ==> Names(ledger, session, inboundAck + k + 1, ids[k])
  {
    forall k | 0 <= k < |ids| ensures Names(ledger, session, inboundAck + k + 1, ids[k]) {
      assert envelopes[k] in envelopes;
    }
  }

  // Taking delivery moves along the ledger, one seq at a time.
  lemma ProcessFollowsLedger(ledger: seq<seq<string>>, session: nat, inboundAck: nat, envelopes: seq<Wire>)
    requires session < |ledger| && inboundAck <= |ledger[session]| && WiresInv(ledger, session, envelopes)
    ensures var ids := Process(inboundAck, envelopes);
            inboundAck + |ids| <= |ledger[session]| && ids == ledger[session][inboundAck..inboundAck + |ids|]
  {
    var ids := Process(inboundAck, envelopes);
    NamedInOrder(ledger, session, inboundAck, envelopes, ids);
    NamedRun(ledger, session, inboundAck, ids);
  }

  lemma NamedRun(ledger: seq<seq<string>>, session: nat, from: nat, ids: seq<string>)
    requires session < |ledger| && from <= |ledger[session]|
    requires forall k :: 0 <= k < |ids| ==> Names(ledger, session, from + k + 1, ids[k])
    ensures from + |ids| <= |ledger[session]| && ids == ledger[session][from..from + |ids|]
  {
    if ids != [] {
      var last := |ids| - 1;
      assert Names(ledger, session, from + last + 1, ids[last]);
    }
  }

  ghost predicate Receivable(st: State, i: nat) {
    i < |st.responses| && st.responses[i].session == st.plugin.session < |st.processed|
  }

  lemma SessionDelivers(sent: Sent, given: seq<string>, done: seq<string>, ids: seq<string>, keys: map<string, int>)
    requires SessionInv(sent, given, done, keys) && |done| + |ids| <= |given|
    requires ids == given[|done|..|done| + |ids|]
    ensures SessionInv(sent, given, done + ids, keys)
  {
    assert done == given[..|done|];
    assert done + ids == given[..|done| + |ids|];
  }

  lemma ReceiveKeepsLedger(st: State, i: nat)
    requires Inv(st) && Receivable(st, i)
    ensures LedgerInv(Next(st, Receive(i)))
  {
    var session := st.plugin.session;
    var envelopes := st.responses[i].envelopes;
    assert SessionInv(st.hub.sessions[session], st.ledger[session], st.processed[session], st.keys);
    ProcessFollowsLedger(st.ledger, session, st.plugin.inboundAck, envelopes);
    SessionDelivers(st.hub.sessions[session], st.ledger[session], st.processed[session],
                    Process(st.plugin.inboundAck, envelopes), st.keys);
  }

  lemma ReceiveKeepsTravel(st: State, i: nat)
    requires Inv(st) && Receivable(st, i)
    ensures TravelInv(Next(st, Receive(i)))
  {
    var next := Next(st, Receive(i));
    forall request: Request | RequestInv(request, st.processed) ensures RequestInv(request, next.processed) {
    }
  }

  lemma ReceiveKeeps(st: State, i: nat)
    requires Inv(st)
    ensures Inv(Next(st, Receive(i)))
  {
    if Receivable(st, i) {
      ReceiveKeepsLedger(st, i);
      ReceiveKeepsTravel(st, i);
      ReceiveAccounted(st, Next(st, Receive(i)));
    }
  }

  lemma ReceiveAccounted(st: State, next: State)
    requires Accounted(st) && next.keys == st.keys && next.expired == st.expired && next.hub == st.hub && next.ledger == st.ledger
    requires |next.processed| == |st.processed|
    requires forall s :: 0 <= s < |st.processed| ==> st.processed[s] <= next.processed[s]
    ensures Accounted(next)
  {
    forall row | row in st.hub.queue ensures Queued(st.hub, row.id) {
    }
    AccountedGrows(st, next);
  }

  lemma {:induction false} UnackedSorted(queue: seq<Row>, session: nat, ack: nat)
    requires Sorted(queue)
    ensures Sorted(Unacked(queue, session, ack))
  {
    if queue != [] {
      UnackedSorted(queue[1..], session, ack);
      var rest := Unacked(queue[1..], session, ack);
      forall j | 0 <= j < |rest| ensures queue[0].key < rest[j].key {
        assert rest[j] in rest;
      }
    }
  }

  // An ack that takes effect.
  ghost predicate Acks(st: State, i: nat) {
    && i < |st.polls| && st.polls[i].Arrived?
    && var request := st.polls[i].request;
    && request.ack > 0 && Live(st.hub, request.session)
    && st.hub.sessions[request.session].outboundAck < request.ack <= st.hub.sessions[request.session].outboundSeq
  }

  /** The rows an ack removes were processed: their ids are at their seqs in what the plugin did. */
  lemma AckedWereProcessed(st: State, i: nat, row: Row)
    requires Inv(st) && Acks(st, i) && row in st.hub.queue
    requires row.session == st.polls[i].request.session && row.seqNo <= st.polls[i].request.ack
    ensures WasProcessed(st.processed, row.id)
  {
    var request := st.polls[i].request;
    assert RowInv(row, st.hub.sessions, st.ledger, st.keys) && RequestInv(request, st.processed);
    assert SessionInv(st.hub.sessions[row.session], st.ledger[row.session], st.processed[row.session], st.keys);
    assert st.processed[row.session][row.seqNo - 1] == row.id;
  }

  lemma AckKeepsQueue(st: State, i: nat)
    requires Inv(st) && Acks(st, i)
    ensures QueueInv(Next(st, AckOutbound(i)).hub, st.ledger, st.keys)
  {
    var request := st.polls[i].request;
    var next := Next(st, AckOutbound(i));
    UnackedSorted(st.hub.queue, request.session, request.ack);
    forall row | row in next.hub.queue ensures RowInv(row, next.hub.sessions, st.ledger, st.keys) {
      assert RowInv(row, st.hub.sessions, st.ledger, st.keys);
    }
  }

  lemma AckKeepsLedger(st: State, i: nat)
    requires Inv(st) && Acks(st, i)
    ensures LedgerInv(Next(st, AckOutbound(i)))
  {
    var next := Next(st, AckOutbound(i));
    assert RequestInv(st.polls[i].request, st.processed);
    forall s | 0 <= s < |st.ledger| ensures SessionInv(next.hub.sessions[s], st.ledger[s], st.processed[s], st.keys) {
      assert SessionInv(st.hub.sessions[s], st.ledger[s], st.processed[s], st.keys);
    }
  }

  lemma AckAccounted(st: State, i: nat)
    requires Inv(st) && Acks(st, i)
    ensures Accounted(Next(st, AckOutbound(i)))
  {
    var next := Next(st, AckOutbound(i));
    forall row | row in st.hub.queue ensures Queued(next.hub, row.id) || WasProcessed(next.processed, row.id) {
      if row !in next.hub.queue {
        AckedWereProcessed(st, i, row);
      }
    }
    forall row | row in next.hub.queue ensures Queued(st.hub, row.id) {
      assert row in st.hub.queue;
    }
    AccountedGrows(st, next);
  }

  lemma AckKeeps(st: State, i: nat)
    requires Inv(st)
    ensures Inv(Next(st, AckOutbound(i)))
  {
    if Acks(st, i) {
      AckKeepsQueue(st, i);
      AckKeepsLedger(st, i);
      AckAccounted(st, i);
    }
  }

  // ---- Numbering ----

  ghost predicate IdsDistinct(rows: seq<Row>) {
    forall i, j :: 0 <= i < j < |rows| ==> rows[i].id != rows[j].id
  }

  // The row an id was assigned for.
  lemma {:induction false} AssignedFrom(rows: seq<Row>, session: nat, n: nat, id: string) returns (k: nat)
    requires n <= |rows| && id in AssignedUpTo(rows, session, n)
    ensures k < n && rows[k].session != session && rows[k].id == id
  {
    if rows[n - 1].session != session && rows[n - 1].id == id {
      k := n - 1;
    } else {
      k := AssignedFrom(rows, session, n - 1, id);
    }
  }

  lemma {:induction false} AssignedDistinct(rows: seq<Row>, session: nat, n: nat)
    requires n <= |rows| && IdsDistinct(rows)
    ensures Distinct(AssignedUpTo(rows, session, n))
  {
    if n > 0 {
      var ids := AssignedUpTo(rows, session, n - 1);
      AssignedDistinct(rows, session, n - 1);
      forall j | 0 <= j < |ids| ensures ids[j] != rows[n - 1].id {
        var k := AssignedFrom(rows, session, n - 1, ids[j]);
        assert rows[k].id != rows[n - 1].id;
      }
    }
  }

  // A row not yet numbered in the session gets the next place among the ids assigned.
  lemma {:induction false} AssignedAt(rows: seq<Row>, session: nat, i: nat, n: nat)
    requires i < n <= |rows| && rows[i].session != session
    ensures |AssignedUpTo(rows, session, i)| < |AssignedUpTo(rows, session, n)|
    ensures AssignedUpTo(rows, session, n)[|AssignedUpTo(rows, session, i)|] == rows[i].id
  {
    if i < n - 1 {
      AssignedAt(rows, session, i, n - 1);
    }
  }

  // A read that finds the session live.
  ghost predicate Reads(st: State, i: nat) {
    && i < |st.polls| && (st.polls[i].Acked? || (st.polls[i].Read? && st.polls[i].envelopes == []))
    && Live(st.hub, st.polls[i].session) && |st.ledger| == |st.hub.sessions|
  }

  lemma QueueIdsDistinct(st: State)
    requires Inv(st)
    ensures IdsDistinct(st.hub.queue)
  {
    forall i, j | 0 <= i < j < |st.hub.queue| ensures st.hub.queue[i].id != st.hub.queue[j].id {
      assert st.hub.queue[i] in st.hub.queue && st.hub.queue[j] in st.hub.queue;
      assert RowInv(st.hub.queue[i], st.hub.sessions, st.ledger, st.keys);
      assert RowInv(st.hub.queue[j], st.hub.sessions, st.ledger, st.keys);
    }
  }

  // An id a read numbers is a queued id the session has not numbered before.
  lemma NumberedIsNew(st: State, i: nat, id: string)
    requires Inv(st) && Reads(st, i) && id in Assigned(Batch(st.hub.queue), st.polls[i].session)
    ensures id in st.keys && id !in st.ledger[st.polls[i].session]
  {
    var rows := Batch(st.hub.queue);
    var k := AssignedFrom(rows, st.polls[i].session, |rows|, id);
    assert st.hub.queue[k] in st.hub.queue && RowInv(st.hub.queue[k], st.hub.sessions, st.ledger, st.keys);
  }

  lemma NumberedAreNew(st: State, i: nat)
    requires Inv(st) && Reads(st, i)
    ensures var ids := Assigned(Batch(st.hub.queue), st.polls[i].session);
            Distinct(ids) && forall id :: id in ids ==> id in st.keys && id !in st.ledger[st.polls[i].session]
  {
    QueueIdsDistinct(st);
    AssignedDistinct(Batch(st.hub.queue), st.polls[i].session, |Batch(st.hub.queue)|);
    forall id | id in Assigned(Batch(st.hub.queue), st.polls[i].session)
      ensures id in st.keys && id !in st.ledger[st.polls[i].session]
    {
      NumberedIsNew(st, i, id);
    }
  }

  lemma ReadKeepsLedger(st: State, i: nat)
    requires Inv(st) && Reads(st, i)
    ensures LedgerInv(Next(st, NextOutbound(i)))
  {
    var session := st.polls[i].session;
    NumberedAreNew(st, i);
    assert SessionInv(st.hub.sessions[session], st.ledger[session], st.processed[session], st.keys);
    SessionNumbers(st.hub.sessions[session], st.ledger[session], st.processed[session],
                   Assigned(Batch(st.hub.queue), session), st.keys);
  }

  lemma SessionNumbers(sent: Sent, given: seq<string>, done: seq<string>, ids: seq<string>, keys: map<string, int>)
    requires SessionInv(sent, given, done, keys) && Distinct(ids)
    requires forall id :: id in ids ==> id in keys && id !in given
    ensures SessionInv(sent.(outboundSeq := sent.outboundSeq + |ids|), given + ids, done, keys)
  {
    forall i, j | 0 <= i < j < |given + ids| ensures (given + ids)[i] != (given + ids)[j] {
      if i < |given| <= j {
        assert ids[j - |given|] in ids && given[i] in given;
      }
    }
  }

  lemma NamesGrow(ledger: seq<seq<string>>, session: nat, ids: seq<string>, s: nat, seqNo: nat, id: string)
    requires session < |ledger| && Names(ledger, s, seqNo, id)
    ensures Names(ledger[session := ledger[session] + ids], s, seqNo, id)
  {
  }

  // The ledger, grown by the ids numbered, names each of them at its seq.
  lemma LaterName(ledger: seq<seq<string>>, session: nat, ids: seq<string>, seqNo: nat, id: string)
    requires session < |ledger|
    requires |ledger[session]| < seqNo <= |ledger[session]| + |ids| && ids[seqNo - |ledger[session]| - 1] == id
    ensures Names(ledger[session := ledger[session] + ids], session, seqNo, id)
  {
  }

  // What numbering `ids` in the latest session does to its mark and its ledger.
  ghost predicate Grows(sessions: seq<Sent>, after: seq<Sent>, ledger: seq<seq<string>>, grown: seq<seq<string>>,
                        session: nat, ids: seq<string>)
  {
    && 0 < |sessions| == |ledger| == session + 1
    && after == sessions[session := sessions[session].(outboundSeq := sessions[session].outboundSeq + |ids|)]
    && grown == ledger[session := ledger[session] + ids]
  }

  // A row already numbered in the session is as good as before.
  lemma KeptRow(row: Row, sessions: seq<Sent>, after: seq<Sent>, ledger: seq<seq<string>>, grown: seq<seq<string>>,
                session: nat, ids: seq<string>, keys: map<string, int>)
    requires Grows(sessions, after, ledger, grown, session, ids) && 0 < session
    requires RowInv(row, sessions, ledger, keys) && row.session == session
    ensures RowInv(row, after, grown, keys)
  {
    NamesGrow(ledger, session, ids, session, row.seqNo, row.id);
  }

  // A row numbered just now carries the seq the ledger now records for it.
  lemma FreshRow(row: Row, sessions: seq<Sent>, after: seq<Sent>, ledger: seq<seq<string>>, grown: seq<seq<string>>,
                 session: nat, ids: seq<string>, keys: map<string, int>, at: nat)
    requires Grows(sessions, after, ledger, grown, session, ids) && 0 < session
    requires at < |ids| && ids[at] == row.id && row.session == session && row.seqNo == |ledger[session]| + at + 1
    requires sessions[session].outboundAck <= |ledger[session]| && row.id in keys && keys[row.id] == row.key
    ensures RowInv(row, after, grown, keys)
  {
    LaterName(ledger, session, ids, row.seqNo, row.id);
  }

  // A row behind the batch is untouched, and none of the ids just numbered is its own.
  lemma UntouchedRow(row: Row, sessions: seq<Sent>, after: seq<Sent>, ledger: seq<seq<string>>, grown: seq<seq<string>>,
                     session: nat, ids: seq<string>, keys: map<string, int>)
    requires Grows(sessions, after, ledger, grown, session, ids)
    requires RowInv(row, sessions, ledger, keys) && row.id !in ids
    ensures RowInv(row, after, grown, keys)
  {
    if row.session > 0 {
      NamesGrow(ledger, session, ids, row.session, row.seqNo, row.id);
    }
  }

  lemma ReadGrows(st: State, i: nat)
    requires Inv(st) && Reads(st, i)
    ensures var session := st.polls[i].session;
            var next := Next(st, NextOutbound(i));
            && 0 < session && next.keys == st.keys
            && Grows(st.hub.sessions, next.hub.sessions, st.ledger, next.ledger, session, Assigned(Batch(st.hub.queue), session))
            && |st.ledger[session]| == st.hub.sessions[session].outboundSeq
            && st.hub.sessions[session].outboundAck <= |st.ledger[session]|
  {
    var session := st.polls[i].session;
    assert SessionInv(st.hub.sessions[session], st.ledger[session], st.processed[session], st.keys);
  }

  lemma ReadRow(st: State, i: nat, k: nat)
    requires Inv(st) && Reads(st, i) && k < |Batch(st.hub.queue)|
    ensures var session := st.polls[i].session;
            var next := Next(st, NextOutbound(i));
            RowInv(Number(Batch(st.hub.queue), session, st.hub.sessions[session].outboundSeq)[k],
                   next.hub.sessions, next.ledger, next.keys)
  {
    var session := st.polls[i].session;
    var rows := Batch(st.hub.queue);
    var ids := Assigned(rows, session);
    var next := Next(st, NextOutbound(i));
    ReadGrows(st, i);
    assert rows[k] in st.hub.queue && RowInv(rows[k], st.hub.sessions, st.ledger, st.keys);
    if rows[k].session == session {
      KeptRow(rows[k], st.hub.sessions, next.hub.sessions, st.ledger, next.ledger, session, ids, st.keys);
    } else {
      AssignedAt(rows, session, k, |rows|);
      FreshRow(Numbered(rows, session, st.hub.sessions[session].outboundSeq, k), st.hub.sessions, next.hub.sessions,
               st.ledger, next.ledger, session, ids, st.keys, |AssignedUpTo(rows, session, k)|);
    }
  }

  lemma UnreadRow(st: State, i: nat, k: nat)
    requires Inv(st) && Reads(st, i) && |Batch(st.hub.queue)| <= k < |st.hub.queue|
    ensures var next := Next(st, NextOutbound(i));
            RowInv(st.hub.queue[k], next.hub.sessions, next.ledger, next.keys)
  {
    var session := st.polls[i].session;
    var rows := Batch(st.hub.queue);
    var row := st.hub.queue[k];
    var ids := Assigned(rows, session);
    var next := Next(st, NextOutbound(i));
    assert row in st.hub.queue && RowInv(row, st.hub.sessions, st.ledger, st.keys);
    QueueIdsDistinct(st);
    forall id | id in ids ensures id != row.id {
      var j := AssignedFrom(rows, session, |rows|, id);
      assert st.hub.queue[j].id != st.hub.queue[k].id;
    }
    ReadGrows(st, i);
    UntouchedRow(row, st.hub.sessions, next.hub.sessions, st.ledger, next.ledger, session, ids, st.keys);
  }

  lemma ReadRows(st: State, i: nat, k: nat)
    requires Inv(st) && Reads(st, i) && k < |st.hub.queue|
    ensures var next := Next(st, NextOutbound(i));
            && |next.hub.queue| == |st.hub.queue| && next.hub.queue[k].key == st.hub.queue[k].key
            && RowInv(next.hub.queue[k], next.hub.sessions, next.ledger, next.keys)
  {
    if k < |Batch(st.hub.queue)| {
      ReadRow(st, i, k);
    } else {
      UnreadRow(st, i, k);
    }
  }

  lemma ReadKeepsQueue(st: State, i: nat)
    requires Inv(st) && Reads(st, i)
    ensures QueueInv(Next(st, NextOutbound(i)).hub, Next(st, NextOutbound(i)).ledger, st.keys)
  {
    var next := Next(st, NextOutbound(i));
    assert |next.hub.queue| == |st.hub.queue| && |next.hub.sessions| == |next.ledger| > 0;
    forall k | 0 <= k < |st.hub.queue|
      ensures next.hub.queue[k].key == st.hub.queue[k].key
      ensures RowInv(next.hub.queue[k], next.hub.sessions, next.ledger, st.keys)
    {
      ReadRows(st, i, k);
    }
    SameKeysSorted(st.hub.queue, next.hub.queue);
  }

  lemma SameKeysSorted(before: seq<Row>, after: seq<Row>)
    requires Sorted(before) && |after| == |before|
    requires forall k :: 0 <= k < |before| ==> after[k].key == before[k].key
    ensures Sorted(after)
  {
    forall i, j | 0 <= i < j < |after| ensures after[i].key < after[j].key {
      assert before[i].key < before[j].key;
    }
  }

  lemma ReadKeepsTravel(st: State, i: nat)
    requires Inv(st) && Reads(st, i)
    ensures TravelInv(Next(st, NextOutbound(i)))
  {
    var session := st.polls[i].session;
    var next := Next(st, NextOutbound(i));
    var rows := Batch(st.hub.queue);
    var ids := Assigned(rows, session);
    forall s: nat, wires: seq<Wire> | WiresInv(st.ledger, s, wires) ensures WiresInv(next.ledger, s, wires) {
      forall wire | wire in wires ensures Names(next.ledger, s, wire.seqNo, wire.id) {
        NamesGrow(st.ledger, session, ids, s, wire.seqNo, wire.id);
      }
    }
    var numbered := Number(rows, session, st.hub.sessions[session].outboundSeq);
    forall wire | wire in Wires(numbered) ensures Names(next.ledger, session, wire.seqNo, wire.id) {
      var k :| 0 <= k < |numbered| && Wires(numbered)[k] == wire;
      ReadRow(st, i, k);
    }
  }

  // A read hands out rows but adds and removes none.
  lemma ReadKeepsIds(st: State, i: nat, id: string)
    requires Reads(st, i)
    ensures Queued(Next(st, NextOutbound(i)).hub, id) <==> Queued(st.hub, id)
  {
    var before, after := st.hub.queue, Next(st, NextOutbound(i)).hub.queue;
    assert |before| == |after| && forall k :: 0 <= k < |before| ==> after[k].id == before[k].id;
    if Queued(st.hub, id) {
      var k :| 0 <= k < |before| && before[k].id == id;
      assert after[k] in after;
    }
    if row :| row in after && row.id == id {
      var k :| 0 <= k < |after| && after[k] == row;
      assert before[k] in before;
    }
  }

  lemma ReadAccounted(st: State, i: nat)
    requires Inv(st) && Reads(st, i)
    ensures Accounted(Next(st, NextOutbound(i)))
  {
    var session := st.polls[i].session;
    var next := Next(st, NextOutbound(i));
    var rows := Batch(st.hub.queue);
    forall row | row in st.hub.queue ensures Queued(next.hub, row.id) {
      ReadKeepsIds(st, i, row.id);
    }
    forall row | row in next.hub.queue ensures Queued(st.hub, row.id) {
      ReadKeepsIds(st, i, row.id);
    }
    forall id | id in Assigned(rows, session) ensures Queued(st.hub, id) {
      var k := AssignedFrom(rows, session, |rows|, id);
      assert rows[k] in st.hub.queue;
    }
    assert next.ledger == st.ledger[session := st.ledger[session] + Assigned(rows, session)];
    AccountedGrows(st, next);
  }

  lemma ReadKeeps(st: State, i: nat)
    requires Inv(st)
    ensures Inv(Next(st, NextOutbound(i)))
  {
    if Reads(st, i) {
      ReadKeepsLedger(st, i);
      ReadKeepsQueue(st, i);
      ReadKeepsTravel(st, i);
      ReadAccounted(st, i);
    }
  }

  lemma NextKeeps(st: State, step: Step)
    requires Inv(st)
    ensures Inv(Next(st, step))
  {
    match step
    case Enqueue(id, key, content) => EnqueueKeeps(st, id, key, content);
    case Refresh(body) => RefreshKeeps(st, body);
    case Expire(at) => ExpireKeeps(st, at);
    case Send => SendKeeps(st);
    case Arrive(i) => ArriveKeeps(st, i);
    case AckOutbound(i) => AckKeeps(st, i);
    case NextOutbound(i) => ReadKeeps(st, i);
    case Respond(i) => RespondKeeps(st, i);
    case Receive(i) => ReceiveKeeps(st, i);
    case StartSession => StartKeeps(st);
    case EndSession => EndKeeps(st);
    case Adopt(session) => AdoptKeeps(st, session);
  }

  lemma {:induction false} RunKeeps(steps: seq<Step>)
    ensures Inv(Run(steps))
  {
    if steps != [] {
      RunKeeps(steps[..|steps| - 1]);
      NextKeeps(Run(steps[..|steps| - 1]), steps[|steps| - 1]);
    }
  }

  // ---- The guarantees, over every run ----

  /** Whatever was queued is still queued, was processed by the plugin in some session, or was a
      dispatch retired on expiry that no session had ever numbered. */
  lemma NothingLost(steps: seq<Step>, id: string)
    requires id in Run(steps).keys
    ensures var st := Run(steps);
            || Queued(st.hub, id)
            || WasProcessed(st.processed, id)
            || (id in st.expired && InNoLedger(st.ledger, id))
  {
    RunKeeps(steps);
  }

  lemma EnqueueStays(st: State, id: string, key: int, content: Content, row: Row)
    requires row in st.hub.queue
    ensures row in Next(st, Enqueue(id, key, content)).hub.queue
  {
    var at := Place(st.hub.queue, key);
    assert st.hub.queue == st.hub.queue[..at] + st.hub.queue[at..];
  }

  lemma RefreshStays(st: State, body: string, row: Row)
    requires row in st.hub.queue
    ensures Queued(Next(st, Refresh(body)).hub, row.id)
  {
    var next := Next(st, Refresh(body));
    var k :| 0 <= k < |st.hub.queue| && st.hub.queue[k] == row;
    assert next.hub.queue[k] in next.hub.queue;
  }

  lemma ExpireStays(st: State, at: nat, row: Row)
    requires Inv(st) && row in st.hub.queue && row.session != 0
    ensures row in Next(st, Expire(at)).hub.queue
  {
    if at < |st.hub.queue| && st.hub.queue[at].session == 0 {
      Removed(st.hub.queue, at);
      var k :| 0 <= k < |st.hub.queue| && st.hub.queue[k] == row;
      assert k != at;
    }
  }

  lemma AckRemovesProcessed(st: State, i: nat, row: Row)
    requires Inv(st) && row in st.hub.queue && row !in Next(st, AckOutbound(i)).hub.queue
    ensures 0 < row.session < |st.processed| && 1 <= row.seqNo <= |st.processed[row.session]|
    ensures st.processed[row.session][row.seqNo - 1] == row.id
  {
    assert Acks(st, i);
    assert RowInv(row, st.hub.sessions, st.ledger, st.keys);
    assert RequestInv(st.polls[i].request, st.processed);
    assert SessionInv(st.hub.sessions[row.session], st.ledger[row.session], st.processed[row.session], st.keys);
  }

  lemma ReadStays(st: State, i: nat, row: Row)
    requires row in st.hub.queue
    ensures Queued(Next(st, NextOutbound(i)).hub, row.id)
  {
    var next := Next(st, NextOutbound(i));
    var k :| 0 <= k < |st.hub.queue| && st.hub.queue[k] == row;
    assert next.hub.queue[k] in next.hub.queue;
  }

  /** A row leaves the queue in two ways only: acked, after the plugin processed it in the very
      session and at the very seq the row carried, or retired while it had never been numbered. */
  lemma LeavesOnlyProcessed(steps: seq<Step>, step: Step, row: Row)
    requires row in Run(steps).hub.queue && !Queued(Next(Run(steps), step).hub, row.id)
    ensures var st := Run(steps);
            || (step.Expire? && row.session == 0)
            || (step.AckOutbound? && 0 < row.session < |st.processed| && 1 <= row.seqNo <= |st.processed[row.session]| &&
                st.processed[row.session][row.seqNo - 1] == row.id)
  {
    RunKeeps(steps);
    var st := Run(steps);
    assert row !in Next(st, step).hub.queue;
    match step {
      case Enqueue(id, key, content) => EnqueueStays(st, id, key, content, row);
      case Refresh(body) => RefreshStays(st, body, row);
      case Expire(at) => if row.session != 0 { ExpireStays(st, at, row); }
      case AckOutbound(i) => AckRemovesProcessed(st, i, row);
      case NextOutbound(i) => ReadStays(st, i, row);
      case _ =>
    }
  }

  /** Within a session the plugin processes seq 1, 2, ... as the hub gave them out, with no gap and
      no repeat. */
  lemma ProcessedInSeqOrder(steps: seq<Step>, session: nat)
    requires session < |Run(steps).processed|
    ensures var st := Run(steps);
            && session < |st.ledger| && st.processed[session] <= st.ledger[session]
            && Distinct(st.processed[session])
  {
    RunKeeps(steps);
    var st := Run(steps);
    assert SessionInv(st.hub.sessions[session], st.ledger[session], st.processed[session], st.keys);
  }
}
