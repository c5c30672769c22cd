/** What a retransmission says: over every run of Downlink, an envelope once handed to the plugin is
    handed out unchanged ever after, though the queue rewrites notices in place before that. */
module Redelivery {
  import opened Downlink

  // Wires that say what the history of contents says.
  ghost predicate Carried(envelopes: seq<Wire>, contents: map<string, Content>) {
    forall k :: 0 <= k < |envelopes| ==> Says(envelopes[k].id, envelopes[k].content, contents)
  }

  ghost predicate Says(id: string, content: Content, contents: map<string, Content>) {
    id in contents && contents[id] == content
  }

  ghost predicate ContentInv(st: State) {
    && st.contents.Keys == st.keys.Keys
    && (forall k :: 0 <= k < |st.hub.queue| ==> Says(st.hub.queue[k].id, st.hub.queue[k].content, st.contents))
    && (forall i :: 0 <= i < |st.polls| && st.polls[i].Read? ==> Carried(st.polls[i].envelopes, st.contents))
    && (forall i :: 0 <= i < |st.responses| ==> Carried(st.responses[i].envelopes, st.contents))
  }

  // A wire keeps saying what the history says while that only changes for other ids.
  lemma CarriedStays(envelopes: seq<Wire>, before: map<string, Content>, after: map<string, Content>)
    requires Carried(envelopes, before)
    requires forall k :: 0 <= k < |envelopes| ==>
               envelopes[k].id in before ==> envelopes[k].id in after && after[envelopes[k].id] == before[envelopes[k].id]
    ensures Carried(envelopes, after)
  {
  }

  lemma EnqueueKeepsRows(st: State, row: Row, k: nat)
    requires Inv(st) && ContentInv(st) && row.id !in st.keys && k <= |st.hub.queue|
    ensures var r := Insert(st.hub.queue, row)[k]; Says(r.id, r.content, st.contents[row.id := row.content])
  {
    InsertedAt(st.hub.queue, row, k);
    var at := Place(st.hub.queue, row.key);
    if k != at {
      var r := st.hub.queue[if k < at then k else k - 1];
      assert r in st.hub.queue && RowInv(r, st.hub.sessions, st.ledger, st.keys);
    }
  }

  lemma EnqueueKeepsContent(st: State, id: string, key: int, content: Content)
    requires Inv(st) && ContentInv(st)
    ensures ContentInv(Next(st, Enqueue(id, key, content)))
  {
    var next := Next(st, Enqueue(id, key, content));
    if next != st {
      forall k | 0 <= k < |next.hub.queue| ensures Says(next.hub.queue[k].id, next.hub.queue[k].content, next.contents) {
        EnqueueKeepsRows(st, Row(id, key, content, 0, 0), k);
      }
      forall envelopes: seq<Wire> | Carried(envelopes, st.contents) ensures Carried(envelopes, next.contents) {
        CarriedStays(envelopes, st.contents, next.contents);
      }
    }
  }

  // A refreshed id has never been on a wire.
  lemma RefreshSparesSent(st: State, session: nat, envelopes: seq<Wire>, k: nat)
    requires Inv(st) && WiresInv(st.ledger, session, envelopes) && k < |envelopes|
    ensures !RefreshesId(st.hub.queue, envelopes[k].id)
  {
    assert envelopes[k] in envelopes && Names(st.ledger, session, envelopes[k].seqNo, envelopes[k].id);
    forall j | 0 <= j < |st.hub.queue| && Refreshable(st.hub.queue[j]) ensures st.hub.queue[j].id != envelopes[k].id {
      assert st.hub.queue[j] in st.hub.queue && RowInv(st.hub.queue[j], st.hub.sessions, st.ledger, st.keys);
    }
  }

  lemma RefreshKeepsCarried(st: State, session: nat, envelopes: seq<Wire>, body: string)
    requires Inv(st) && WiresInv(st.ledger, session, envelopes) && Carried(envelopes, st.contents)
    ensures Carried(envelopes, RefreshContents(st.contents, st.hub.queue, body))
  {
    forall k | 0 <= k < |envelopes| ensures !RefreshesId(st.hub.queue, envelopes[k].id) {
      RefreshSparesSent(st, session, envelopes, k);
    }
  }

  lemma RefreshKeepsRow(st: State, body: string, k: nat)
    requires Inv(st) && k < |st.hub.queue| && Says(st.hub.queue[k].id, st.hub.queue[k].content, st.contents)
    ensures var row := Refreshed(st.hub.queue[k], body);
            Says(row.id, row.content, RefreshContents(st.contents, st.hub.queue, body))
  {
    QueueIdsDistinct(st);
    var row := st.hub.queue[k];
    if !Refreshable(row) {
      forall j | 0 <= j < |st.hub.queue| && Refreshable(st.hub.queue[j]) ensures st.hub.queue[j].id != row.id {
        assert j != k;
      }
    }
  }

  lemma RefreshKeepsContent(st: State, body: string)
    requires Inv(st) && ContentInv(st)
    ensures ContentInv(Next(st, Refresh(body)))
  {
    var next := Next(st, Refresh(body));
    forall k | 0 <= k < |st.hub.queue| ensures Says(next.hub.queue[k].id, next.hub.queue[k].content, next.contents) {
      RefreshKeepsRow(st, body, k);
    }
    forall i | 0 <= i < |st.polls| && st.polls[i].Read? ensures Carried(st.polls[i].envelopes, next.contents) {
      RefreshKeepsCarried(st, st.polls[i].session, st.polls[i].envelopes, body);
    }
    forall i | 0 <= i < |st.responses| ensures Carried(st.responses[i].envelopes, next.contents) {
      RefreshKeepsCarried(st, st.responses[i].session, st.responses[i].envelopes, body);
    }
  }

  lemma UnackedFrom(queue: seq<Row>, session: nat, ack: nat, k: nat) returns (j: nat)
    requires k < |Unacked(queue, session, ack)|
    ensures j < |queue| && queue[j] == Unacked(queue, session, ack)[k]
  {
    var row := Unacked(queue, session, ack)[k];
    assert row in Unacked(queue, session, ack);
    j :| 0 <= j < |queue| && queue[j] == row;
  }

  lemma AckKeepsContent(st: State, i: nat)
    requires ContentInv(st)
    ensures ContentInv(Next(st, AckOutbound(i)))
  {
    if Acks(st, i) {
      var request := st.polls[i].request;
      var rest := Unacked(st.hub.queue, request.session, request.ack);
      forall k | 0 <= k < |rest| ensures Says(rest[k].id, rest[k].content, st.contents) {
        var j := UnackedFrom(st.hub.queue, request.session, request.ack, k);
      }
    }
  }

  lemma ExpireKeepsContent(st: State, at: nat)
    requires ContentInv(st)
    ensures ContentInv(Next(st, Expire(at)))
  {
    if at < |st.hub.queue| {
      var rest := st.hub.queue[..at] + st.hub.queue[at + 1..];
      assert forall k :: 0 <= k < |rest| ==> rest[k] == st.hub.queue[if k < at then k else k + 1];
    }
  }

  lemma ReadKeepsContent(st: State, i: nat)
    requires ContentInv(st)
    ensures ContentInv(Next(st, NextOutbound(i)))
  {
    if Reads(st, i) {
      var session := st.polls[i].session;
      var rows := Batch(st.hub.queue);
      var high := st.hub.sessions[session].outboundSeq;
      var next := Next(st, NextOutbound(i));
      var numbered := Number(rows, session, high);
      forall k | 0 <= k < |rows| ensures Says(numbered[k].id, numbered[k].content, st.contents) {
        assert rows[k] == st.hub.queue[k];
      }
      assert forall k :: |rows| <= k < |next.hub.queue| ==> next.hub.queue[k] == st.hub.queue[k];
      assert Carried(Wires(numbered), st.contents);
    }
  }

  lemma NextKeepsContent(st: State, step: Step)
    requires Inv(st) && ContentInv(st)
    ensures ContentInv(Next(st, step))
  {
    match step
    case Enqueue(id, key, content) => EnqueueKeepsContent(st, id, key, content);
    case Refresh(body) => RefreshKeepsContent(st, body);
    case Expire(at) => ExpireKeepsContent(st, at);
    case AckOutbound(i) => AckKeepsContent(st, i);
    case NextOutbound(i) => ReadKeepsContent(st, i);
    case _ =>
  }

  lemma {:induction false} RunKeepsContent(steps: seq<Step>)
    ensures ContentInv(Run(steps))
  {
    if steps != [] {
      var before := steps[..|steps| - 1];
      RunKeepsContent(before);
      RunKeeps(before);
      NextKeepsContent(Run(before), steps[|steps| - 1]);
    }
  }

  // ---- The guarantees, over every run ----

  /** A retransmission is identical. Two deliveries of one id say the same, in whatever sessions; and
      within a session two deliveries of one seq are the same envelope, id and content, and an id
      always comes with the same seq. */
  lemma RetransmittedUnchanged(steps: seq<Step>, i: nat, j: nat, a: Wire, b: Wire)
    requires var responses := Run(steps).responses;
             && i < |responses| && j < |responses|
             && a in responses[i].envelopes && b in responses[j].envelopes
    ensures a.id == b.id ==> a.content == b.content
    ensures Run(steps).responses[i].session == Run(steps).responses[j].session ==>
              (a.seqNo == b.seqNo <==> a == b) && (a.id == b.id <==> a == b)
  {
    RunKeepsContent(steps);
    var st := Run(steps);
    var x :| 0 <= x < |st.responses[i].envelopes| && st.responses[i].envelopes[x] == a;
    var y :| 0 <= y < |st.responses[j].envelopes| && st.responses[j].envelopes[y] == b;
    assert Says(a.id, a.content, st.contents) && Says(b.id, b.content, st.contents);
    SeqNamesId(steps, i, j, a, b);
  }

  // Within a session a seq names one id and an id one seq.
  lemma SeqNamesId(steps: seq<Step>, i: nat, j: nat, a: Wire, b: Wire)
    requires var responses := Run(steps).responses;
             && i < |responses| && j < |responses|
             && a in responses[i].envelopes && b in responses[j].envelopes
    ensures Run(steps).responses[i].session == Run(steps).responses[j].session ==> (a.seqNo == b.seqNo <==> a.id == b.id)
  {
    RunKeeps(steps);
    var st := Run(steps);
    if st.responses[i].session == st.responses[j].session {
      SeqsOfOneLedger(st, st.responses[i].session, a, b);
    }
  }

  lemma SeqsOfOneLedger(st: State, session: nat, a: Wire, b: Wire)
    requires LedgerInv(st) && Names(st.ledger, session, a.seqNo, a.id) && Names(st.ledger, session, b.seqNo, b.id)
    ensures a.seqNo == b.seqNo <==> a.id == b.id
  {
    assert SessionInv(st.hub.sessions[session], st.ledger[session], st.processed[session], st.keys);
  }

  /** What is still queued after it was sent says what was sent, whatever is refreshed meanwhile. */
  lemma QueuedAsSent(steps: seq<Step>, i: nat, a: Wire, k: nat)
    requires var st := Run(steps);
             && i < |st.responses| && a in st.responses[i].envelopes
             && k < |st.hub.queue| && st.hub.queue[k].id == a.id
    ensures Run(steps).hub.queue[k].content == a.content && !Refreshable(Run(steps).hub.queue[k])
  {
    RunKeepsContent(steps);
    RunKeeps(steps);
    var st := Run(steps);
    var x :| 0 <= x < |st.responses[i].envelopes| && st.responses[i].envelopes[x] == a;
    assert Says(a.id, a.content, st.contents);
    RefreshSparesSent(st, st.responses[i].session, st.responses[i].envelopes, x);
  }
}
