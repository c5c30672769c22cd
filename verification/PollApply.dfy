/** The classification closure of hub/poll.go's handlePoll: what becomes of each accepted
    envelope, which refusals the plugin is told about, and what the event budget is spent on. */
module PollApply {
  import opened Envelopes
  import opened Wrappers

  const MAX_NOTICES_PER_POLL := 20
  const MAX_EVENTS_PER_POLL := 1000
  const MAX_EVENTS_PER_BATCH := 200

  datatype Notice = Notice(kind: string, body: string)

  datatype EventBatch = EventBatch(envelopeID: string, events: seq<string>)

  // The bodies a poll prepared before classification, keyed by batch index.
  datatype PreparedManifest = Publish(manifest: string) | RejectManifest(notice: Notice)
  datatype PreparedAction = ActionAck(actionID: string) | ActionResult(result: string) | Unusable
  datatype PreparedEvents = Events(events: seq<string>) | RejectEvents(notice: Notice)
  datatype PreparedSnapshot = Snapshot(snapshot: string) | RejectSnapshot(notice: Notice)

  datatype Prepared = Prepared(
    manifests: map<nat, PreparedManifest>,
    actions: map<nat, PreparedAction>,
    events: map<nat, PreparedEvents>,
    snapshots: map<nat, PreparedSnapshot>,
    bansApplied: map<nat, int>)

  // store.InboundApplication.
  datatype Application = Application(
    ack: int,
    accepted: nat,
    manifests: seq<string>,
    notices: seq<Notice>,
    actionAcks: seq<string>,
    actionResults: seq<string>,
    eventBatches: seq<EventBatch>,
    snapshots: seq<string>,
    bansApplied: seq<int>)

  /** What became of one accepted envelope. */
  datatype Disposition =
    | ManifestApplied(manifest: string)
    | ManifestRefused(notice: Notice)
    | ActionAcked(actionID: string)
    | ActionFinished(result: string)
    | ActionUnusable
    | EventsReplayed(batch: EventBatch)
    | EventsCharged(batch: EventBatch)
    | EventsRefused(notice: Notice)
    | EventsOverBudget(notice: Notice)
    | SnapshotStored(snapshot: string)
    | SnapshotRefused(notice: Notice)
    | BansReported(revision: int)
    | Ignored

  predicate Refusal(d: Disposition) {
    d.ManifestRefused? || d.EventsRefused? || d.EventsOverBudget? || d.SnapshotRefused?
  }

  function EventBudgetReject(envelopeID: string): Notice {
    Notice("event.reject", envelopeID)
  }

  // The disposition of the envelope at `index`, with `budget` events of the poll left to spend.
  function Dispose(index: nat, envelopeID: string, prepared: Prepared, replayed: set<string>, budget: int): Disposition {
    if index in prepared.manifests then
      match prepared.manifests[index]
      case Publish(manifest) => ManifestApplied(manifest)
      case RejectManifest(notice) => ManifestRefused(notice)
    else if index in prepared.actions then
      match prepared.actions[index]
      case ActionAck(actionID) => ActionAcked(actionID)
      case ActionResult(result) => ActionFinished(result)
      case Unusable => ActionUnusable
    else if index in prepared.events then
      match prepared.events[index]
      case RejectEvents(notice) => EventsRefused(notice)
      case Events(events) =>
        if envelopeID in replayed then EventsReplayed(EventBatch(envelopeID, events))
        else if |events| > budget then EventsOverBudget(EventBudgetReject(envelopeID))
        else EventsCharged(EventBatch(envelopeID, events))
    else if index in prepared.snapshots then
      match prepared.snapshots[index]
      case RejectSnapshot(notice) => SnapshotRefused(notice)
      case Snapshot(snapshot) => SnapshotStored(snapshot)
    else if index in prepared.bansApplied then BansReported(prepared.bansApplied[index])
    else Ignored
  }

  /** The dispositions of a poll's accepted envelopes, in arrival order. */
  function Dispositions(accepted: seq<nat>, envelopes: seq<Inbound>, prepared: Prepared, replayed: set<string>): (ds: seq<Disposition>)
    requires forall k :: 0 <= k < |accepted| ==> accepted[k] < |envelopes|
    ensures |ds| == |accepted|
  {
    if accepted == [] then []
    else
      var last := |accepted| - 1;
      var ds := Dispositions(accepted[..last], envelopes, prepared, replayed);
      ds + [Dispose(accepted[last], envelopes[accepted[last]].id, prepared, replayed, MAX_EVENTS_PER_POLL - Charged(ds))]
  }

  function Charged(ds: seq<Disposition>): (n: nat) {
    if ds == [] then 0
    else Charged(ds[..|ds| - 1]) + if ds[|ds| - 1].EventsCharged? then |ds[|ds| - 1].batch.events| else 0
  }

  /** What the closure builds and counts: the application it returns, and the captured counters
      the log lines are written from. */
  datatype Tally = Tally(
    application: Application,
    unusableActionBodies: nat,
    rejectedManifests: nat,
    refusedEventBatches: nat,
    refusedSnapshots: nat,
    suppressedNotices: nat)

  function Fresh(ack: int, accepted: nat): Tally {
    Tally(Application(ack, accepted, [], [], [], [], [], [], []), 0, 0, 0, 0, 0)
  }

  // queueNotice: past the cap a refusal still stands, but is counted instead of narrated.
  function QueueNotice(t: Tally, notice: Notice): Tally {
    if |t.application.notices| >= MAX_NOTICES_PER_POLL then t.(suppressedNotices := t.suppressedNotices + 1)
    else t.(application := t.application.(notices := t.application.notices + [notice]))
  }

  function Tallied(t: Tally, d: Disposition): Tally {
    var a := t.application;
    match d
    case ManifestApplied(manifest) => t.(application := a.(manifests := a.manifests + [manifest]))
    case ManifestRefused(notice) => QueueNotice(t.(rejectedManifests := t.rejectedManifests + 1), notice)
    case ActionAcked(actionID) => t.(application := a.(actionAcks := a.actionAcks + [actionID]))
    case ActionFinished(result) => t.(application := a.(actionResults := a.actionResults + [result]))
    case ActionUnusable => t.(unusableActionBodies := t.unusableActionBodies + 1)
    case EventsReplayed(batch) => t.(application := a.(eventBatches := a.eventBatches + [batch]))
    case EventsCharged(batch) => t.(application := a.(eventBatches := a.eventBatches + [batch]))
    case EventsRefused(notice) => QueueNotice(t.(refusedEventBatches := t.refusedEventBatches + 1), notice)
    case EventsOverBudget(notice) => QueueNotice(t.(refusedEventBatches := t.refusedEventBatches + 1), notice)
    case SnapshotStored(snapshot) => t.(application := a.(snapshots := a.snapshots + [snapshot]))
    case SnapshotRefused(notice) => QueueNotice(t.(refusedSnapshots := t.refusedSnapshots + 1), notice)
    case BansReported(revision) => t.(application := a.(bansApplied := a.bansApplied + [revision]))
    case Ignored => t
  }

  function Tallies(start: Tally, ds: seq<Disposition>): Tally {
    if ds == [] then start else Tallied(Tallies(start, ds[..|ds| - 1]), ds[|ds| - 1])
  }

  // The budget left, and the tally, after some accepted envelopes.
  function Left(accepted: seq<nat>, envelopes: seq<Inbound>, prepared: Prepared, replayed: set<string>): int
    requires forall k :: 0 <= k < |accepted| ==> accepted[k] < |envelopes|
  {
    MAX_EVENTS_PER_POLL - Charged(Dispositions(accepted, envelopes, prepared, replayed))
  }

  function TalliedFor(start: Tally, accepted: seq<nat>, envelopes: seq<Inbound>, prepared: Prepared, replayed: set<string>): Tally
    requires forall k :: 0 <= k < |accepted| ==> accepted[k] < |envelopes|
  {
    Tallies(start, Dispositions(accepted, envelopes, prepared, replayed))
  }

  lemma NoneYet(start: Tally, envelopes: seq<Inbound>, prepared: Prepared, replayed: set<string>)
    ensures Left([], envelopes, prepared, replayed) == MAX_EVENTS_PER_POLL
    ensures TalliedFor(start, [], envelopes, prepared, replayed) == start
  {
  }

  // What one more of them does to both.
  lemma OneMore(start: Tally, accepted: seq<nat>, k: nat, envelopes: seq<Inbound>, prepared: Prepared, replayed: set<string>)
    requires k < |accepted| && forall i :: 0 <= i < |accepted| ==> accepted[i] < |envelopes|
    ensures var left := Left(accepted[..k], envelopes, prepared, replayed);
            var d := Dispose(accepted[k], envelopes[accepted[k]].id, prepared, replayed, left);
            && Left(accepted[..k + 1], envelopes, prepared, replayed) == left - (if d.EventsCharged? then |d.batch.events| else 0)
            && TalliedFor(start, accepted[..k + 1], envelopes, prepared, replayed) ==
                 Tallied(TalliedFor(start, accepted[..k], envelopes, prepared, replayed), d)
  {
    assert accepted[..k + 1][..k] == accepted[..k];
    var before := Dispositions(accepted[..k], envelopes, prepared, replayed);
    var after := Dispositions(accepted[..k + 1], envelopes, prepared, replayed);
    assert after[..k] == before;
  }

  // ---- What a run is to give, list by list, from what the poll prepared ----

  /** The accepted envelopes of a poll, by their place `k` in arrival order. An index prepared under
      two kinds belongs to the first of manifests, actions, events, snapshots and ban reports. */
  datatype Taken = Taken(accepted: seq<nat>, envelopes: seq<Inbound>, prepared: Prepared, replayed: set<string>) {
    predicate Valid() {
      forall k :: 0 <= k < |accepted| ==> accepted[k] < |envelopes|
    }

    predicate IsManifest(k: nat) {
      k < |accepted| && accepted[k] in prepared.manifests
    }

    predicate IsAction(k: nat) {
      k < |accepted| && accepted[k] in prepared.actions && !IsManifest(k)
    }

    predicate IsEvents(k: nat) {
      k < |accepted| && accepted[k] < |envelopes| && accepted[k] in prepared.events && !IsManifest(k) && !IsAction(k)
    }

    predicate IsSnapshot(k: nat) {
      k < |accepted| && accepted[k] in prepared.snapshots && !IsManifest(k) && !IsAction(k) && !IsEvents(k)
    }

    predicate IsReport(k: nat) {
      && k < |accepted| && accepted[k] in prepared.bansApplied
      && !IsManifest(k) && !IsAction(k) && !IsEvents(k) && !IsSnapshot(k)
    }

    function Manifest(k: nat): Option<string> {
      if IsManifest(k) && prepared.manifests[accepted[k]].Publish? then Some(prepared.manifests[accepted[k]].manifest) else None
    }

    function ManifestRefusal(k: nat): Option<Notice> {
      if IsManifest(k) && prepared.manifests[accepted[k]].RejectManifest? then Some(prepared.manifests[accepted[k]].notice) else None
    }

    function Ack(k: nat): Option<string> {
      if IsAction(k) && prepared.actions[accepted[k]].ActionAck? then Some(prepared.actions[accepted[k]].actionID) else None
    }

    function Result(k: nat): Option<string> {
      if IsAction(k) && prepared.actions[accepted[k]].ActionResult? then Some(prepared.actions[accepted[k]].result) else None
    }

    function BadAction(k: nat): Option<nat> {
      if IsAction(k) && prepared.actions[accepted[k]].Unusable? then Some(k) else None
    }

    predicate IsBatch(k: nat) {
      IsEvents(k) && prepared.events[accepted[k]].Events?
    }

    predicate IsReplay(k: nat) {
      IsEvents(k) && envelopes[accepted[k]].id in replayed
    }

    // A batch is stored when it is replayed, or fits beside the new events stored before it.
    predicate Fits(k: nat)
      decreases k, 1
    {
      IsBatch(k) && (IsReplay(k) || Spent(k) + |prepared.events[accepted[k]].events| <= MAX_EVENTS_PER_POLL)
    }

    function Spent(n: nat): (spent: nat)
      decreases n, 0
    {
      if n == 0 then 0
      else Spent(n - 1) + if Fits(n - 1) && !IsReplay(n - 1) then |prepared.events[accepted[n - 1]].events| else 0
    }

    function Stored(k: nat): Option<EventBatch> {
      if Fits(k) then Some(EventBatch(envelopes[accepted[k]].id, prepared.events[accepted[k]].events)) else None
    }

    function EventsRefusal(k: nat): Option<Notice> {
      if !IsEvents(k) || Fits(k) then None
      else if IsBatch(k) then Some(Notice("event.reject", envelopes[accepted[k]].id))
      else Some(prepared.events[accepted[k]].notice)
    }

    function Shot(k: nat): Option<string> {
      if IsSnapshot(k) && prepared.snapshots[accepted[k]].Snapshot? then Some(prepared.snapshots[accepted[k]].snapshot) else None
    }

    function SnapshotRefusal(k: nat): Option<Notice> {
      if IsSnapshot(k) && prepared.snapshots[accepted[k]].RejectSnapshot? then Some(prepared.snapshots[accepted[k]].notice) else None
    }

    function Report(k: nat): Option<int> {
      if IsReport(k) then Some(prepared.bansApplied[accepted[k]]) else None
    }

    // The notice an envelope is owed, if it was refused.
    function Refused(k: nat): Option<Notice> {
      if ManifestRefusal(k).Some? then ManifestRefusal(k)
      else if EventsRefusal(k).Some? then EventsRefusal(k)
      else SnapshotRefusal(k)
    }
  }

  // What the first `n` accepted envelopes hold for one list or counter, in arrival order.
  function Picked<T>(pick: nat -> Option<T>, n: nat): (picked: seq<T>) {
    if n == 0 then []
    else Picked(pick, n - 1) + match pick(n - 1) case Some(t) => [t] case None => []
  }

  // Each list holds, in order, what the first `n` accepted envelopes hold for it.
  ghost predicate ListsTo(a: Application, poll: Taken, n: nat) {
    && a.manifests == Picked(poll.Manifest, n)
    && a.actionAcks == Picked(poll.Ack, n)
    && a.actionResults == Picked(poll.Result, n)
    && a.eventBatches == Picked(poll.Stored, n)
    && a.snapshots == Picked(poll.Shot, n)
    && a.bansApplied == Picked(poll.Report, n)
  }

  // Each counter counts the refusals of its own kind.
  ghost predicate CountsTo(t: Tally, poll: Taken, n: nat) {
    && t.unusableActionBodies == |Picked(poll.BadAction, n)|
    && t.rejectedManifests == |Picked(poll.ManifestRefusal, n)|
    && t.refusedEventBatches == |Picked(poll.EventsRefusal, n)|
    && t.refusedSnapshots == |Picked(poll.SnapshotRefusal, n)|
  }

  // The notices are the first twenty refusals, and the rest are counted.
  ghost predicate NoticesTo(t: Tally, poll: Taken, n: nat) {
    var owed := Picked(poll.Refused, n);
    && t.application.notices == (if |owed| <= 20 then owed else owed[..20])
    && t.suppressedNotices == if |owed| <= 20 then 0 else |owed| - 20
  }

  ghost predicate FiledTo(t: Tally, poll: Taken, n: nat) {
    ListsTo(t.application, poll, n) && CountsTo(t, poll, n) && NoticesTo(t, poll, n)
  }

  /** What each list and each counter of a run holds, told from the poll alone. */
  ghost predicate Filed(t: Tally, poll: Taken) {
    FiledTo(t, poll, |poll.accepted|)
  }

  // The disposition of the envelope at place `k`, when the budget left is what is not yet spent.
  ghost function At(poll: Taken, k: nat): Disposition
    requires poll.Valid() && k < |poll.accepted|
  {
    Dispose(poll.accepted[k], poll.envelopes[poll.accepted[k]].id, poll.prepared, poll.replayed, MAX_EVENTS_PER_POLL - poll.Spent(k))
  }

  // What an envelope's disposition says it holds for each list.
  ghost predicate Holds(poll: Taken, k: nat, d: Disposition) {
    && poll.Manifest(k) == (if d.ManifestApplied? then Some(d.manifest) else None)
    && poll.Ack(k) == (if d.ActionAcked? then Some(d.actionID) else None)
    && poll.Result(k) == (if d.ActionFinished? then Some(d.result) else None)
    && poll.Stored(k) == (if d.EventsReplayed? || d.EventsCharged? then Some(d.batch) else None)
    && poll.Shot(k) == (if d.SnapshotStored? then Some(d.snapshot) else None)
    && poll.Report(k) == (if d.BansReported? then Some(d.revision) else None)
  }

  lemma AtHolds(poll: Taken, k: nat)
    requires poll.Valid() && k < |poll.accepted|
    ensures Holds(poll, k, At(poll, k))
  {
  }

  lemma ListsWith(t: Tally, poll: Taken, k: nat, d: Disposition)
    requires ListsTo(t.application, poll, k) && Holds(poll, k, d)
    ensures ListsTo(Tallied(t, d).application, poll, k + 1)
  {
  }

  lemma ListsStep(t: Tally, poll: Taken, k: nat)
    requires poll.Valid() && k < |poll.accepted| && ListsTo(t.application, poll, k)
    ensures ListsTo(Tallied(t, At(poll, k)).application, poll, k + 1)
  {
    AtHolds(poll, k);
    ListsWith(t, poll, k, At(poll, k));
  }

  lemma CountsStep(t: Tally, poll: Taken, k: nat)
    requires poll.Valid() && k < |poll.accepted| && CountsTo(t, poll, k)
    ensures CountsTo(Tallied(t, At(poll, k)), poll, k + 1)
  {
  }

  lemma RefusedAt(poll: Taken, k: nat)
    requires poll.Valid() && k < |poll.accepted|
    ensures poll.Refused(k) == if Refusal(At(poll, k)) then Some(At(poll, k).notice) else None
  {
  }

  lemma NoticesStep(t: Tally, poll: Taken, k: nat)
    requires poll.Valid() && k < |poll.accepted| && NoticesTo(t, poll, k)
    ensures NoticesTo(Tallied(t, At(poll, k)), poll, k + 1)
  {
    RefusedAt(poll, k);
    NoticeQueued(t, At(poll, k), Picked(poll.Refused, k));
  }

  lemma NoticeQueued(t: Tally, d: Disposition, owed: seq<Notice>)
    requires t.application.notices == (if |owed| <= 20 then owed else owed[..20])
    requires t.suppressedNotices == if |owed| <= 20 then 0 else |owed| - 20
    ensures var next, now := Tallied(t, d), if Refusal(d) then owed + [d.notice] else owed;
            && next.application.notices == (if |now| <= 20 then now else now[..20])
            && next.suppressedNotices == if |now| <= 20 then 0 else |now| - 20
  {
  }

  lemma SpentStep(poll: Taken, k: nat)
    requires poll.Valid() && k < |poll.accepted|
    ensures poll.Spent(k + 1) == poll.Spent(k) + if At(poll, k).EventsCharged? then |At(poll, k).batch.events| else 0
  {
  }

  lemma LeftStep(poll: Taken, k: nat)
    requires poll.Valid() && k < |poll.accepted|
    requires Left(poll.accepted[..k], poll.envelopes, poll.prepared, poll.replayed) == MAX_EVENTS_PER_POLL - poll.Spent(k)
    ensures Left(poll.accepted[..k + 1], poll.envelopes, poll.prepared, poll.replayed) ==
            MAX_EVENTS_PER_POLL - poll.Spent(k) - (if At(poll, k).EventsCharged? then |At(poll, k).batch.events| else 0)
  {
    OneMore(Fresh(0, 0), poll.accepted, k, poll.envelopes, poll.prepared, poll.replayed);
  }

  lemma {:induction false} LeftIsUnspent(poll: Taken, n: nat)
    requires poll.Valid() && n <= |poll.accepted|
    ensures Left(poll.accepted[..n], poll.envelopes, poll.prepared, poll.replayed) == MAX_EVENTS_PER_POLL - poll.Spent(n)
  {
    if n == 0 {
      NoneYet(Fresh(0, 0), poll.envelopes, poll.prepared, poll.replayed);
    } else {
      LeftIsUnspent(poll, n - 1);
      LeftStep(poll, n - 1);
      SpentStep(poll, n - 1);
    }
  }

  lemma FiledStep(t: Tally, poll: Taken, k: nat)
    requires poll.Valid() && k < |poll.accepted| && FiledTo(t, poll, k)
    ensures FiledTo(Tallied(t, At(poll, k)), poll, k + 1)
  {
    ListsStep(t, poll, k);
    CountsStep(t, poll, k);
    NoticesStep(t, poll, k);
  }

  ghost function TallyTo(poll: Taken, ack: int, n: nat): Tally
    requires poll.Valid() && n <= |poll.accepted|
  {
    TalliedFor(Fresh(ack, |poll.accepted|), poll.accepted[..n], poll.envelopes, poll.prepared, poll.replayed)
  }

  lemma TallyStep(poll: Taken, ack: int, k: nat)
    requires poll.Valid() && k < |poll.accepted|
    ensures TallyTo(poll, ack, k + 1) == Tallied(TallyTo(poll, ack, k), At(poll, k))
  {
    LeftIsUnspent(poll, k);
    OneMore(Fresh(ack, |poll.accepted|), poll.accepted, k, poll.envelopes, poll.prepared, poll.replayed);
  }

  lemma NoneFiled(poll: Taken, ack: int)
    requires poll.Valid()
    ensures FiledTo(TallyTo(poll, ack, 0), poll, 0)
  {
    NoneYet(Fresh(ack, |poll.accepted|), poll.envelopes, poll.prepared, poll.replayed);
  }

  lemma OneMoreFiled(poll: Taken, before: Tally, after: Tally, k: nat)
    requires poll.Valid() && k < |poll.accepted| && FiledTo(before, poll, k) && after == Tallied(before, At(poll, k))
    ensures FiledTo(after, poll, k + 1)
  {
    FiledStep(before, poll, k);
  }

  lemma {:induction false} FilesTo(poll: Taken, ack: int, n: nat)
    requires poll.Valid() && n <= |poll.accepted|
    ensures FiledTo(TallyTo(poll, ack, n), poll, n)
  {
    if n == 0 {
      NoneFiled(poll, ack);
    } else {
      FilesTo(poll, ack, n - 1);
      TallyStep(poll, ack, n - 1);
      OneMoreFiled(poll, TallyTo(poll, ack, n - 1), TallyTo(poll, ack, n), n - 1);
    }
  }

  /** Every list and counter of a run is its own: what is accepted goes, in arrival order, to the list
      of its kind, and what is refused to the counter of its kind and to the notices. */
  lemma RunFiles(poll: Taken, ack: int)
    requires poll.Valid()
    ensures Filed(TalliedFor(Fresh(ack, |poll.accepted|), poll.accepted, poll.envelopes, poll.prepared, poll.replayed), poll)
  {
    FilesTo(poll, ack, |poll.accepted|);
    assert poll.accepted[..|poll.accepted|] == poll.accepted;
  }

  /** What a run gives: the tally of its dispositions, filed list by list, conserved, and within the
      budget where the batches are within theirs. */
  ghost predicate Gives(t: Tally, batch: Batch, envelopes: seq<Inbound>, prepared: Prepared, replayed: set<string>)
    requires forall k :: 0 <= k < |batch.accepted| ==> batch.accepted[k] < |envelopes|
  {
    var ds := Dispositions(batch.accepted, envelopes, prepared, replayed);
    && t == Tallies(Fresh(batch.ack, |batch.accepted|), ds)
    && Filed(t, Taken(batch.accepted, envelopes, prepared, replayed))
    && Conserved(t, batch.ack, ds)
    && (WithinBatch(prepared) ==> BudgetKept(ds))
  }

  /** The closure with the variables it captures. The store may run it more than once. */
  class Closure {
    var batch: Batch
    var unusableActionBodies: nat
    var rejectedManifests: nat
    var refusedEventBatches: nat
    var refusedSnapshots: nat
    var suppressedNotices: nat

    constructor ()
      ensures batch == Batch(0, [], 0, 0)
    {
      batch := Batch(0, [], 0, 0);
      unusableActionBodies, rejectedManifests, refusedEventBatches := 0, 0, 0;
      refusedSnapshots, suppressedNotices := 0, 0;
    }

    // The captured counters beside an application.
    function Counters(application: Application): Tally
      reads this
    {
      Tally(application, unusableActionBodies, rejectedManifests, refusedEventBatches, refusedSnapshots, suppressedNotices)
    }

    /** One run against the committed ack. Nothing of an earlier run survives in it. */
    method Run(ack: int, envelopes: seq<Inbound>, prepared: Prepared, replayed: set<string>)
      returns (application: Application)
      modifies this
      ensures batch == Classify(ack, Seqs(envelopes))
      ensures Gives(Counters(application), batch, envelopes, prepared, replayed)
    {
      batch := ClassifyInbound(ack, envelopes);
      unusableActionBodies, rejectedManifests, refusedEventBatches := 0, 0, 0;
      refusedSnapshots, suppressedNotices := 0, 0;
      application := Application(batch.ack, |batch.accepted|, [], [], [], [], [], [], []);
      application := PlaceAll(batch.accepted, envelopes, prepared, replayed, application);
      RunGives(Counters(application), batch, envelopes, prepared, replayed);
    }

    method PlaceAll(accepted: seq<nat>, envelopes: seq<Inbound>, prepared: Prepared, replayed: set<string>, empty: Application)
      returns (application: Application)
      requires forall k :: 0 <= k < |accepted| ==> accepted[k] < |envelopes|
      modifies this`unusableActionBodies, this`rejectedManifests, this`refusedEventBatches, this`refusedSnapshots, this`suppressedNotices
      ensures Counters(application) == Tallies(old(Counters(empty)), Dispositions(accepted, envelopes, prepared, replayed))
    {
      ghost var start := Counters(empty);
      application := empty;
      var eventBudget := MAX_EVENTS_PER_POLL;
      NoneYet(start, envelopes, prepared, replayed);
      for k := 0 to |accepted|
        invariant eventBudget == Left(accepted[..k], envelopes, prepared, replayed)
        invariant Counters(application) == TalliedFor(start, accepted[..k], envelopes, prepared, replayed)
      {
        var index := accepted[k];
        OneMore(start, accepted, k, envelopes, prepared, replayed);
        application, eventBudget := Place(index, envelopes[index].id, prepared, replayed, application, eventBudget);
      }
      assert accepted[..|accepted|] == accepted;
    }

    // The body of the closure's loop.
    method Place(index: nat, envelopeID: string, prepared: Prepared, replayed: set<string>, before: Application, eventBudget: int)
      returns (application: Application, left: int)
      modifies this`unusableActionBodies, this`rejectedManifests, this`refusedEventBatches, this`refusedSnapshots, this`suppressedNotices
      ensures var d := Dispose(index, envelopeID, prepared, replayed, eventBudget);
              && Counters(application) == Tallied(old(Counters(before)), d)
              && left == eventBudget - (if d.EventsCharged? then |d.batch.events| else 0)
    {
      application, left := before, eventBudget;
      if index in prepared.manifests {
        match prepared.manifests[index] {
          case Publish(manifest) => application := application.(manifests := application.manifests + [manifest]);
          case RejectManifest(notice) =>
            rejectedManifests := rejectedManifests + 1;
            application := Queue(application, notice);
        }
        return;
      }
      if index in prepared.actions {
        match prepared.actions[index] {
          case ActionAck(actionID) => application := application.(actionAcks := application.actionAcks + [actionID]);
          case ActionResult(result) => application := application.(actionResults := application.actionResults + [result]);
          case Unusable => unusableActionBodies := unusableActionBodies + 1;
        }
        return;
      }
      if index in prepared.events {
        match prepared.events[index] {
          case RejectEvents(notice) =>
            refusedEventBatches := refusedEventBatches + 1;
            application := Queue(application, notice);
          case Events(events) =>
            if envelopeID !in replayed && |events| > left {
              refusedEventBatches := refusedEventBatches + 1;
              application := Queue(application, EventBudgetReject(envelopeID));
            } else {
              if envelopeID !in replayed {
                left := left - |events|;
              }
              application := application.(eventBatches := application.eventBatches + [EventBatch(envelopeID, events)]);
            }
        }
        return;
      }
      if index in prepared.snapshots {
        match prepared.snapshots[index] {
          case RejectSnapshot(notice) =>
            refusedSnapshots := refusedSnapshots + 1;
            application := Queue(application, notice);
          case Snapshot(snapshot) => application := application.(snapshots := application.snapshots + [snapshot]);
        }
        return;
      }
      if index in prepared.bansApplied {
        application := application.(bansApplied := application.bansApplied + [prepared.bansApplied[index]]);
      }
    }

    method Queue(before: Application, notice: Notice) returns (application: Application)
      modifies this`suppressedNotices
      ensures Counters(application) == QueueNotice(old(Counters(before)), notice)
    {
      application := before;
      if |application.notices| >= MAX_NOTICES_PER_POLL {
        suppressedNotices := suppressedNotices + 1;
        return;
      }
      application := application.(notices := application.notices + [notice]);
    }
  }

  // The notices the refusals of a poll owe, in order.
  function Owed(ds: seq<Disposition>): (notices: seq<Notice>) {
    if ds == [] then []
    else Owed(ds[..|ds| - 1]) + if Refusal(ds[|ds| - 1]) then [ds[|ds| - 1].notice] else []
  }

  // The event batches a poll hands to the store, in order.
  function Ingested(ds: seq<Disposition>): (batches: seq<EventBatch>) {
    if ds == [] then []
    else
      var d := ds[|ds| - 1];
      Ingested(ds[..|ds| - 1]) + if d.EventsReplayed? || d.EventsCharged? then [d.batch] else []
  }

  /** Nothing lost and nothing counted twice: every accepted envelope is in exactly one list or
      counter (or ignored), the refusals are the notices plus the suppressed, the notices are the
      first twenty refusals in order, and the store is handed each batch not refused, in order. */
  ghost predicate Conserved(t: Tally, ack: int, ds: seq<Disposition>) {
    var a := t.application;
    && a.ack == ack && a.accepted == |ds|
    && |a.manifests| + |a.actionAcks| + |a.actionResults| + |a.eventBatches| + |a.snapshots| + |a.bansApplied|
       + t.unusableActionBodies + t.rejectedManifests + t.refusedEventBatches + t.refusedSnapshots
       + Ignoreds(ds) == |ds|
    && t.rejectedManifests + t.refusedEventBatches + t.refusedSnapshots == |a.notices| + t.suppressedNotices
    && a.notices == FirstTwenty(Owed(ds))
    && |Owed(ds)| == |a.notices| + t.suppressedNotices
    && a.eventBatches == Ingested(ds)
  }

  lemma {:induction false} ClassificationConserves(ack: int, ds: seq<Disposition>)
    ensures Conserved(Tallies(Fresh(ack, |ds|), ds), ack, ds)
  {
    var start := Fresh(ack, |ds|);
    TalliesCount(start, ds);
    TalliesNotice(start, ds);
    TalliesIngest(start, ds);
  }

  function FirstTwenty(notices: seq<Notice>): seq<Notice> {
    if |notices| <= MAX_NOTICES_PER_POLL then notices else notices[..MAX_NOTICES_PER_POLL]
  }

  function Ignoreds(ds: seq<Disposition>): (n: nat) {
    if ds == [] then 0 else Ignoreds(ds[..|ds| - 1]) + if ds[|ds| - 1].Ignored? then 1 else 0
  }

  predicate IsFresh(t: Tally) {
    t == Fresh(t.application.ack, t.application.accepted)
  }

  // How many envelopes a tally has put in a list or a counter.
  function Landed(t: Tally): nat {
    var a := t.application;
    |a.manifests| + |a.actionAcks| + |a.actionResults| + |a.eventBatches| + |a.snapshots| + |a.bansApplied|
    + t.unusableActionBodies + Refused(t)
  }

  function Refused(t: Tally): nat {
    t.rejectedManifests + t.refusedEventBatches + t.refusedSnapshots
  }

  lemma TalliedCounts(t: Tally, d: Disposition)
    ensures var next := Tallied(t, d);
            && next.application.ack == t.application.ack && next.application.accepted == t.application.accepted
            && Landed(next) == Landed(t) + (if d.Ignored? then 0 else 1)
            && Refused(next) - |next.application.notices| - next.suppressedNotices
               == Refused(t) - |t.application.notices| - t.suppressedNotices
  {
  }

  lemma {:induction false} TalliesCount(start: Tally, ds: seq<Disposition>)
    requires IsFresh(start)
    ensures var t := Tallies(start, ds);
            && t.application.ack == start.application.ack && t.application.accepted == start.application.accepted
            && Landed(t) + Ignoreds(ds) == |ds|
            && Refused(t) == |t.application.notices| + t.suppressedNotices
  {
    if ds != [] {
      TalliesCount(start, ds[..|ds| - 1]);
      TalliedCounts(Tallies(start, ds[..|ds| - 1]), ds[|ds| - 1]);
    }
  }

  lemma TalliedNotices(t: Tally, d: Disposition, owed: seq<Notice>)
    requires t.application.notices == FirstTwenty(owed) && |owed| == |t.application.notices| + t.suppressedNotices
    ensures var next, now := Tallied(t, d), owed + if Refusal(d) then [d.notice] else [];
            next.application.notices == FirstTwenty(now) && |now| == |next.application.notices| + next.suppressedNotices
  {
  }

  lemma {:induction false} TalliesNotice(start: Tally, ds: seq<Disposition>)
    requires IsFresh(start)
    ensures var t := Tallies(start, ds);
            && t.application.notices == FirstTwenty(Owed(ds))
            && |Owed(ds)| == |t.application.notices| + t.suppressedNotices
  {
    if ds != [] {
      TalliesNotice(start, ds[..|ds| - 1]);
      TalliedNotices(Tallies(start, ds[..|ds| - 1]), ds[|ds| - 1], Owed(ds[..|ds| - 1]));
    }
  }

  lemma {:induction false} TalliesIngest(start: Tally, ds: seq<Disposition>)
    requires IsFresh(start)
    ensures Tallies(start, ds).application.eventBatches == Ingested(ds)
  {
    if ds != [] {
      TalliesIngest(start, ds[..|ds| - 1]);
    }
  }

  // What the validation of a batch has already refused it to exceed.
  ghost predicate WithinBatch(prepared: Prepared) {
    forall i :: i in prepared.events && prepared.events[i].Events? ==> |prepared.events[i].events| <= MAX_EVENTS_PER_BATCH
  }

  lemma RunConserves(ack: int, accepted: seq<nat>, envelopes: seq<Inbound>, prepared: Prepared, replayed: set<string>)
    requires forall k :: 0 <= k < |accepted| ==> accepted[k] < |envelopes|
    ensures var ds := Dispositions(accepted, envelopes, prepared, replayed);
            && |ds| == |accepted| && Conserved(Tallies(Fresh(ack, |accepted|), ds), ack, ds)
            && (WithinBatch(prepared) ==> BudgetKept(ds))
  {
    ClassificationConserves(ack, Dispositions(accepted, envelopes, prepared, replayed));
    if WithinBatch(prepared) {
      BudgetHolds(accepted, envelopes, prepared, replayed);
    }
  }

  lemma RunGives(t: Tally, batch: Batch, envelopes: seq<Inbound>, prepared: Prepared, replayed: set<string>)
    requires forall k :: 0 <= k < |batch.accepted| ==> batch.accepted[k] < |envelopes|
    requires t == Tallies(Fresh(batch.ack, |batch.accepted|), Dispositions(batch.accepted, envelopes, prepared, replayed))
    ensures Gives(t, batch, envelopes, prepared, replayed)
  {
    RunConserves(batch.ack, batch.accepted, envelopes, prepared, replayed);
    RunFiles(Taken(batch.accepted, envelopes, prepared, replayed), batch.ack);
  }

  ghost predicate BudgetKept(ds: seq<Disposition>) {
    && Charged(ds) <= MAX_EVENTS_PER_POLL
    && (forall k :: 0 <= k < |ds| && ds[k].EventsOverBudget? ==>
          Charged(ds[..k]) > MAX_EVENTS_PER_POLL - MAX_EVENTS_PER_BATCH)
  }

  lemma BudgetSnoc(ds: seq<Disposition>, d: Disposition)
    requires BudgetKept(ds)
    requires d.EventsCharged? ==> Charged(ds) + |d.batch.events| <= MAX_EVENTS_PER_POLL
    requires d.EventsOverBudget? ==> Charged(ds) > MAX_EVENTS_PER_POLL - MAX_EVENTS_PER_BATCH
    ensures BudgetKept(ds + [d])
  {
    var all := ds + [d];
    ChargedSnoc(ds, d);
    forall k | 0 <= k < |all| && all[k].EventsOverBudget?
      ensures Charged(all[..k]) > MAX_EVENTS_PER_POLL - MAX_EVENTS_PER_BATCH
    {
      assert all[..k] == ds[..k];
      assert ds[..|ds|] == ds;
    }
  }

  lemma ChargedSnoc(ds: seq<Disposition>, d: Disposition)
    ensures Charged(ds + [d]) == Charged(ds) + if d.EventsCharged? then |d.batch.events| else 0
  {
    assert (ds + [d])[..|ds|] == ds;
  }

  // Only what is neither replayed nor refused is charged, and only that can be over budget.
  ghost predicate ChargedFresh(d: Disposition, envelopeID: string, replayed: set<string>) {
    d.EventsCharged? || d.EventsOverBudget? ==> envelopeID !in replayed
  }

  lemma DisposeWithin(index: nat, envelopeID: string, prepared: Prepared, replayed: set<string>, budget: int)
    requires index in prepared.events && prepared.events[index].Events? ==>
               |prepared.events[index].events| <= MAX_EVENTS_PER_BATCH
    ensures var d := Dispose(index, envelopeID, prepared, replayed, budget);
            && (d.EventsCharged? ==> |d.batch.events| <= budget)
            && (d.EventsOverBudget? ==> budget < MAX_EVENTS_PER_BATCH)
            && ChargedFresh(d, envelopeID, replayed)
  {
  }

  /** The budget: what a poll is newly charged never exceeds it, a replayed batch and a refused one
      cost nothing, and a batch refused for budget was refused only after more than 800 events
      had been charged. */
  lemma {:induction false} BudgetHolds(accepted: seq<nat>, envelopes: seq<Inbound>, prepared: Prepared, replayed: set<string>)
    requires forall k :: 0 <= k < |accepted| ==> accepted[k] < |envelopes|
    requires WithinBatch(prepared)
    ensures BudgetKept(Dispositions(accepted, envelopes, prepared, replayed))
    ensures forall k :: 0 <= k < |accepted| ==>
              ChargedFresh(Dispositions(accepted, envelopes, prepared, replayed)[k], envelopes[accepted[k]].id, replayed)
  {
    if accepted != [] {
      var last := |accepted| - 1;
      BudgetHolds(accepted[..last], envelopes, prepared, replayed);
      var d := LastDisposition(accepted, envelopes, prepared, replayed);
      BudgetSnoc(Dispositions(accepted[..last], envelopes, prepared, replayed), d);
    }
  }

  lemma LastDisposition(accepted: seq<nat>, envelopes: seq<Inbound>, prepared: Prepared, replayed: set<string>)
    returns (d: Disposition)
    requires accepted != [] && forall k :: 0 <= k < |accepted| ==> accepted[k] < |envelopes|
    requires WithinBatch(prepared)
    ensures var last := |accepted| - 1;
            var before := Dispositions(accepted[..last], envelopes, prepared, replayed);
            && Dispositions(accepted, envelopes, prepared, replayed) == before + [d]
            && (d.EventsCharged? ==> Charged(before) + |d.batch.events| <= MAX_EVENTS_PER_POLL)
            && (d.EventsOverBudget? ==> Charged(before) > MAX_EVENTS_PER_POLL - MAX_EVENTS_PER_BATCH)
            && ChargedFresh(d, envelopes[accepted[last]].id, replayed)
  {
    var last := |accepted| - 1;
    var budget := MAX_EVENTS_PER_POLL - Charged(Dispositions(accepted[..last], envelopes, prepared, replayed));
    DisposeWithin(accepted[last], envelopes[accepted[last]].id, prepared, replayed, budget);
    d := Dispose(accepted[last], envelopes[accepted[last]].id, prepared, replayed, budget);
  }

  /** A poll that only retransmits what is already acked applies nothing at all. */
  lemma {:induction false} DuplicatesApplyNothing(ack: int, envelopes: seq<Inbound>, prepared: Prepared, replayed: set<string>)
    requires forall e :: e in envelopes ==> e.seqNo <= ack
    ensures Classify(ack, Seqs(envelopes)) == Batch(ack, [], |envelopes|, 0)
    ensures Tallies(Fresh(ack, 0), Dispositions([], envelopes, prepared, replayed)) == Fresh(ack, 0)
  {
    OldSeqsAreDuplicates(ack, Seqs(envelopes));
  }

  lemma {:induction false} OldSeqsAreDuplicates(ack: int, seqs: seq<int>)
    requires forall k :: 0 <= k < |seqs| ==> seqs[k] <= ack
    ensures Classify(ack, seqs) == Batch(ack, [], |seqs|, 0)
  {
    if seqs != [] {
      OldSeqsAreDuplicates(ack, seqs[..|seqs| - 1]);
    }
  }
}
