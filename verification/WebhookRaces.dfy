/** Registrations, edits, deliveries and replays of webhooks in any interleaving (hub/webhooks.go,
    hub/store/webhooks.go). An edit is authorized twice, on what it read when it opened and on the
    locked row when it commits, and the second is what decides. */
module WebhookRaces {
  import opened Wrappers
  import opened Scopes
  import opened Webhooks

  // A delivery: the caller whose filter, retarget or replay last sent it where it goes, and whether
  // it is still owed.
  datatype Delivery = Delivery(n: string, exporter: Principal, pending: bool)

  // `writer` is history: who last registered or edited the row.
  datatype Row = Row(
    url: string,
    events: seq<string>,
    serverIDs: seq<string>,
    auditGranted: bool,
    deliveries: seq<Delivery>,
    writer: Principal)

  datatype Update = Update(url: Option<string>, events: Option<seq<string>>, serverIDs: Option<seq<string>>)

  // An edit past its first authorization, waiting for the store's transaction.
  datatype Edit = Edit(id: string, caller: Principal, update: Update)

  datatype State = State(rows: map<string, Row>, edits: seq<Edit>)

  const EMPTY := State(map[], [])

  function MergedEvents(row: Row, update: Update): seq<string> {
    if update.events.Some? then update.events.value else row.events
  }

  function MergedServers(row: Row, update: Update): seq<string> {
    if update.serverIDs.Some? then update.serverIDs.value else row.serverIDs
  }

  predicate Moves(row: Row, update: Update) {
    update.url.Some? && update.url.value != row.url
  }

  // The authorize closure, over a row and the pending types a moved URL would carry.
  predicate Authorized(caller: Principal, row: Row, update: Update) {
    && SubscriptionCovered(caller, MergedEvents(row, update), MergedServers(row, update) != [])
    && (Moves(row, update) ==> forall d :: d in row.deliveries && d.pending ==> NotificationCovered(caller, d.n))
  }

  function Retargeted(deliveries: seq<Delivery>, caller: Principal): (moved: seq<Delivery>)
    ensures |moved| == |deliveries|
    ensures forall i :: 0 <= i < |deliveries| ==>
              moved[i] == if deliveries[i].pending then deliveries[i].(exporter := caller) else deliveries[i]
  {
    seq(|deliveries|, i requires 0 <= i < |deliveries| =>
      if deliveries[i].pending then deliveries[i].(exporter := caller) else deliveries[i])
  }

  /** UpdateWebhook's write. The pending deliveries of a moved URL follow it. */
  function Written(row: Row, caller: Principal, update: Update): Row {
    Row(
      if update.url.Some? then update.url.value else row.url,
      MergedEvents(row, update),
      MergedServers(row, update),
      FilterAdmitsAudit(MergedEvents(row, update)),
      if Moves(row, update) then Retargeted(row.deliveries, caller) else row.deliveries,
      caller)
  }

  /** webhookMatches. */
  predicate Matches(row: Row, n: string, serverID: string) {
    && (row.serverIDs != [] ==> serverID in row.serverIDs)
    && (OptIn(n) ==> row.auditGranted)
    && (if row.events == [] then !OptIn(n) else exists filter :: filter in row.events && PatternAdmits(filter, n))
  }

  datatype Step =
    | Register(id: string, caller: Principal, url: string, events: seq<string>, serverIDs: seq<string>)
    | OpenEdit(edit: Edit)
    | CommitEdit(index: nat)
    | FanOut(id: string, n: string, serverID: string)
    | Settle(id: string, index: nat)                     // delivered, or given up
    | Replay(id: string, index: nat, caller: Principal)  // owed again, as it was rendered
    | Prune(id: string, index: nat)
    | Delete(id: string)

  function DropAt<T>(s: seq<T>, index: nat): seq<T>
    requires index < |s|
  {
    s[..index] + s[index + 1..]
  }

  function WithDelivery(s: State, id: string, index: nat, delivery: Delivery): State
    requires id in s.rows && index < |s.rows[id].deliveries|
  {
    s.(rows := s.rows[id := s.rows[id].(deliveries := s.rows[id].deliveries[index := delivery])])
  }

  /** One atomic step. A refused registration, edit or commit leaves every row as it was. */
  function Next(s: State, step: Step): State {
    match step
    case Register(id, caller, url, events, serverIDs) =>
      if id !in s.rows && SubscriptionCovered(caller, events, serverIDs != []) then
        s.(rows := s.rows[id := Row(url, events, serverIDs, FilterAdmitsAudit(events), [], caller)])
      else s
    case OpenEdit(edit) =>
      // Its first check reads the row and the pending types separately: whatever it let through.
      s.(edits := s.edits + [edit])
    case CommitEdit(index) =>
      if index >= |s.edits| then s
      else
        var edit := s.edits[index];
        var rest := DropAt(s.edits, index);
        if edit.id in s.rows && Authorized(edit.caller, s.rows[edit.id], edit.update) then
          State(s.rows[edit.id := Written(s.rows[edit.id], edit.caller, edit.update)], rest)
        else s.(edits := rest)
    case FanOut(id, n, serverID) =>
      if id in s.rows && Notification(n) && Matches(s.rows[id], n, serverID) then
        var row := s.rows[id];
        s.(rows := s.rows[id := row.(deliveries := row.deliveries + [Delivery(n, row.writer, true)])])
      else s
    case Settle(id, index) =>
      if id in s.rows && index < |s.rows[id].deliveries| then
        WithDelivery(s, id, index, s.rows[id].deliveries[index].(pending := false))
      else s
    case Replay(id, index, caller) =>
      if id in s.rows && index < |s.rows[id].deliveries| && NotificationCovered(caller, s.rows[id].deliveries[index].n) then
        WithDelivery(s, id, index, Delivery(s.rows[id].deliveries[index].n, caller, true))
      else s
    case Prune(id, index) =>
      if id in s.rows && index < |s.rows[id].deliveries| && !s.rows[id].deliveries[index].pending then
        s.(rows := s.rows[id := s.rows[id].(deliveries := DropAt(s.rows[id].deliveries, index))])
      else s
    case Delete(id) => s.(rows := s.rows - {id})
  }

  function Run(steps: seq<Step>): State {
    if steps == [] then EMPTY else Next(Run(steps[..|steps| - 1]), steps[|steps| - 1])
  }

  /** A row never exports more than its last writer could: its filter was covered by that writer,
      the audit grant is held only by a filter an admin wrote, and each delivery is of a type
      covered by whoever last sent it where it goes. */
  ghost predicate RowSafe(row: Row) {
    && SubscriptionCovered(row.writer, row.events, row.serverIDs != [])
    && (row.auditGranted <==> FilterAdmitsAudit(row.events))
    && (row.auditGranted ==> row.writer.IsAdmin())
    && (forall d :: d in row.deliveries ==> Notification(d.n) && NotificationCovered(d.exporter, d.n))
  }

  lemma AuditWriterIsAdmin(writer: Principal, events: seq<string>, namesServers: bool)
    requires SubscriptionCovered(writer, events, namesServers) && FilterAdmitsAudit(events)
    ensures writer.IsAdmin()
  {
    var filter :| filter in events && PatternAdmits(filter, AUDIT_RECORDED);
    assert filter in Subscribed(events) && PatternCovered(writer, filter);
  }

  lemma WrittenSafe(row: Row, caller: Principal, update: Update)
    requires RowSafe(row) && Authorized(caller, row, update)
    ensures RowSafe(Written(row, caller, update))
  {
    var written := Written(row, caller, update);
    if written.auditGranted {
      AuditWriterIsAdmin(caller, written.events, written.serverIDs != []);
    }
    forall d | d in written.deliveries ensures Notification(d.n) && NotificationCovered(d.exporter, d.n) {
      if Moves(row, update) {
        var i :| 0 <= i < |written.deliveries| && written.deliveries[i] == d;
        assert row.deliveries[i] in row.deliveries;
      }
    }
  }

  lemma FanOutSafe(row: Row, n: string, serverID: string)
    requires RowSafe(row) && Notification(n) && Matches(row, n, serverID)
    ensures RowSafe(row.(deliveries := row.deliveries + [Delivery(n, row.writer, true)]))
  {
    if row.events == [] {
      assert "*" in Subscribed(row.events) && PatternAdmits("*", n);
    }
    assert Admits(row.events, n);
    SubscriptionCoversExports(row.writer, row.events, row.serverIDs != [], n);
  }

  lemma DeliverySafe(row: Row, index: nat, delivery: Delivery)
    requires RowSafe(row) && index < |row.deliveries|
    requires delivery.n == row.deliveries[index].n && NotificationCovered(delivery.exporter, delivery.n)
    ensures RowSafe(row.(deliveries := row.deliveries[index := delivery]))
  {
    assert row.deliveries[index] in row.deliveries;
  }

  lemma NextSafe(s: State, step: Step)
    requires forall id :: id in s.rows ==> RowSafe(s.rows[id])
    ensures forall id :: id in Next(s, step).rows ==> RowSafe(Next(s, step).rows[id])
  {
    match step
    case Register(id, caller, url, events, serverIDs) =>
      if SubscriptionCovered(caller, events, serverIDs != []) && FilterAdmitsAudit(events) {
        AuditWriterIsAdmin(caller, events, serverIDs != []);
      }
    case CommitEdit(index) =>
      if index < |s.edits| {
        var edit := s.edits[index];
        if edit.id in s.rows && Authorized(edit.caller, s.rows[edit.id], edit.update) {
          WrittenSafe(s.rows[edit.id], edit.caller, edit.update);
        }
      }
    case FanOut(id, n, serverID) =>
      if id in s.rows && Notification(n) && Matches(s.rows[id], n, serverID) {
        FanOutSafe(s.rows[id], n, serverID);
      }
    case Settle(id, index) =>
      if id in s.rows && index < |s.rows[id].deliveries| {
        var d := s.rows[id].deliveries[index];
        DeliverySafe(s.rows[id], index, d.(pending := false));
      }
    case Replay(id, index, caller) =>
      if id in s.rows && index < |s.rows[id].deliveries| && NotificationCovered(caller, s.rows[id].deliveries[index].n) {
        DeliverySafe(s.rows[id], index, Delivery(s.rows[id].deliveries[index].n, caller, true));
      }
    case _ =>
  }

  /** Over any race of registrations, edits, fan-outs, deliveries and replays, every row stays safe. */
  lemma {:induction false} RacesNeverWiden(steps: seq<Step>, id: string)
    requires id in Run(steps).rows
    ensures RowSafe(Run(steps).rows[id])
  {
    RunSafe(steps);
  }

  lemma {:induction false} RunSafe(steps: seq<Step>)
    ensures forall id :: id in Run(steps).rows ==> RowSafe(Run(steps).rows[id])
  {
    if steps != [] {
      RunSafe(steps[..|steps| - 1]);
      NextSafe(Run(steps[..|steps| - 1]), steps[|steps| - 1]);
    }
  }

  /** An edit commits only if its caller covers the row it finds: whatever happened since it was
      opened, the row afterwards was covered by its editor, and a URL that moved took along only
      types the editor covers. */
  lemma CommitCovers(s: State, index: nat)
    requires index < |s.edits| && s.edits[index].id in s.rows
    ensures var edit := s.edits[index];
            var before := s.rows[edit.id];
            var next := Next(s, CommitEdit(index));
            && edit.id in next.rows
            && var after := next.rows[edit.id];
            && (after != before ==> after.writer == edit.caller &&
                                    SubscriptionCovered(edit.caller, after.events, after.serverIDs != []))
            && (after.url != before.url ==> forall d :: d in after.deliveries && d.pending ==>
                  d.exporter == edit.caller && NotificationCovered(edit.caller, d.n))
  {
    var edit := s.edits[index];
    var before := s.rows[edit.id];
    if Authorized(edit.caller, before, edit.update) && Moves(before, edit.update) {
      var after := Written(before, edit.caller, edit.update);
      forall d | d in after.deliveries && d.pending ensures d.exporter == edit.caller && NotificationCovered(edit.caller, d.n) {
        var i :| 0 <= i < |after.deliveries| && after.deliveries[i] == d;
        assert before.deliveries[i] in before.deliveries;
      }
    }
  }

  // ---- What each step does ----

  // The notification concerns the webhook: its server is named or none is, a filter admits it or
  // there is none, and the audit namespace is asked for by a pattern and by whoever may grant it.
  ghost predicate Concerns(row: Row, n: string, serverID: string) {
    && (row.serverIDs == [] || serverID in row.serverIDs)
    && (row.events == [] || exists filter :: filter in row.events && Match(filter, n) && !("audit." <= n && filter == "*"))
    && ("audit." <= n ==> row.auditGranted && row.events != [])
  }

  /** The two searches of webhookMatches. */
  method WebhookMatches(row: Row, n: string, serverID: string) returns (matches: bool)
    ensures matches == Matches(row, n, serverID)
    ensures matches <==> Concerns(row, n, serverID)
  {
    if row.serverIDs != [] {
      var observed := false;
      for i := 0 to |row.serverIDs|
        invariant observed <==> serverID in row.serverIDs[..i]
      {
        observed := observed || row.serverIDs[i] == serverID;
      }
      assert row.serverIDs[..|row.serverIDs|] == row.serverIDs;
      if !observed {
        return false;
      }
    }
    if OptIn(n) && !row.auditGranted {
      return false;
    }
    if row.events == [] {
      return !OptIn(n);
    }
    for i := 0 to |row.events|
      invariant forall k :: 0 <= k < i ==> !PatternAdmits(row.events[k], n)
    {
      if PatternAdmits(row.events[i], n) {
        assert row.events[i] in row.events;
        return true;
      }
    }
    return false;
  }

  lemma MatchesMeans(row: Row, n: string, serverID: string)
    ensures Matches(row, n, serverID) <==> Concerns(row, n, serverID)
  {
  }

  // Only this row's deliveries change.
  ghost predicate Delivers(s: State, next: State, id: string, deliveries: seq<Delivery>) {
    && id in s.rows && id in next.rows && next.rows[id].deliveries == deliveries
    && next == s.(rows := s.rows[id := s.rows[id].(deliveries := deliveries)])
  }

  /** A notification is queued, to its row's URL as its writer set it, exactly when it concerns the
      webhook; settling, replaying and pruning move the one delivery they name. */
  lemma DeliverySteps(s: State, id: string, n: string, serverID: string, index: nat, caller: Principal)
    requires id in s.rows
    ensures var row, next := s.rows[id], Next(s, FanOut(id, n, serverID));
            if Notification(n) && Concerns(row, n, serverID)
            then Delivers(s, next, id, row.deliveries + [Delivery(n, row.writer, true)]) else next == s
    ensures index < |s.rows[id].deliveries| ==>
              var row := s.rows[id];
              var d := row.deliveries[index];
              && Delivers(s, Next(s, Settle(id, index)), id, row.deliveries[index := Delivery(d.n, d.exporter, false)])
              && (if NotificationCovered(caller, d.n)
                  then Delivers(s, Next(s, Replay(id, index, caller)), id, row.deliveries[index := Delivery(d.n, caller, true)])
                  else Next(s, Replay(id, index, caller)) == s)
              && (if d.pending then Next(s, Prune(id, index)) == s
                  else Delivers(s, Next(s, Prune(id, index)), id, row.deliveries[..index] + row.deliveries[index + 1..]))
  {
    MatchesMeans(s.rows[id], n, serverID);
  }

  // The fields an edit gives, and otherwise those the row had.
  ghost predicate Merges(before: Row, after: Row, caller: Principal, update: Update) {
    && after.url == (if update.url.Some? then update.url.value else before.url)
    && after.events == (if update.events.Some? then update.events.value else before.events)
    && after.serverIDs == (if update.serverIDs.Some? then update.serverIDs.value else before.serverIDs)
    && (after.auditGranted <==> exists filter :: filter in after.events && filter != "*" && Match(filter, "audit.recorded"))
    && after.writer == caller
    && |after.deliveries| == |before.deliveries|
    && forall i :: 0 <= i < |before.deliveries| ==>
         after.deliveries[i] == if after.url != before.url && before.deliveries[i].pending
                                then Delivery(before.deliveries[i].n, caller, true) else before.deliveries[i]
  }

  // What a caller must cover to leave the row so: its filter, and what is pending if its URL moves.
  ghost predicate MayWrite(before: Row, after: Row, caller: Principal) {
    && SubscriptionCovered(caller, after.events, after.serverIDs != [])
    && (after.url != before.url ==> forall d :: d in before.deliveries && d.pending ==> NotificationCovered(caller, d.n))
  }

  lemma WrittenMerges(before: Row, caller: Principal, update: Update)
    ensures var after := Written(before, caller, update);
            Merges(before, after, caller, update) && (Authorized(caller, before, update) <==> MayWrite(before, after, caller))
  {
    assert "audit." <= AUDIT_RECORDED by {
      assert AUDIT_RECORDED == "audit." + "recorded";
    }
  }

  /** An edit that commits merges what it gives into the row it finds, and one that its caller may not
      write is dropped; either way it is over, and no other row or edit changes. */
  lemma CommitMerges(s: State, index: nat)
    requires index < |s.edits| && s.edits[index].id in s.rows
    ensures var edit, next := s.edits[index], Next(s, CommitEdit(index));
            exists after :: Merges(s.rows[edit.id], after, edit.caller, edit.update) &&
              next == State(if MayWrite(s.rows[edit.id], after, edit.caller) then s.rows[edit.id := after] else s.rows,
                            s.edits[..index] + s.edits[index + 1..])
  {
    var edit := s.edits[index];
    WrittenMerges(s.rows[edit.id], edit.caller, edit.update);
  }

  /** A registration its caller covers adds the row as asked for, under an id not in use, with nothing
      to deliver; a deletion takes out its row; opening an edit writes no row. */
  lemma RowSteps(s: State, id: string, caller: Principal, url: string, events: seq<string>, serverIDs: seq<string>, edit: Edit)
    ensures var next := Next(s, Register(id, caller, url, events, serverIDs));
            if id !in s.rows && SubscriptionCovered(caller, events, serverIDs != []) then
              && id in next.rows && next == s.(rows := s.rows[id := next.rows[id]])
              && next.rows[id] == Row(url, events, serverIDs, next.rows[id].auditGranted, [], caller)
              && (next.rows[id].auditGranted <==> exists filter :: filter in events && filter != "*" && Match(filter, "audit.recorded"))
            else next == s
    ensures var next := Next(s, Delete(id));
            && next == s.(rows := next.rows) && (forall other :: other in next.rows <==> other in s.rows && other != id)
            && forall other :: other in next.rows ==> next.rows[other] == s.rows[other]
    ensures Next(s, OpenEdit(edit)) == s.(edits := s.edits + [edit])
  {
    assert "audit." <= AUDIT_RECORDED by {
      assert AUDIT_RECORDED == "audit." + "recorded";
    }
  }

  /** A run takes its steps one after another from the start. */
  lemma RunGoesOn(steps: seq<Step>, step: Step)
    ensures Run([]) == EMPTY && Run(steps + [step]) == Next(Run(steps), step)
  {
    assert (steps + [step])[..|steps|] == steps;
  }
}
