/** The ban list of hub/store/bans.go and the plugin's walk of it in hub/bans.go: every change is a
    revision, and a walk reads the one it began at whatever happens meanwhile. */
module BanWalk {
  import opened BanCursor
  import opened Octetted
  import opened Walks
  import opened Wrappers

  /** A row of the bans table. `delisted` is the revision it left the list at. */
  datatype Ban = Ban(id: string, platform: string, playerID: string, reason: string, name: string, expiresAt: Option<int>,
                     listed: int, delisted: Option<int>, lifted: bool)

  /** `minted` is the register of revisions this hub has handed out. */
  datatype Store = Store(current: int, minted: set<int>, bans: seq<Ban>)

  const EMPTY := Store(0, {}, [])

  datatype Change =
    | CreateBan(id: string, platform: string, playerID: string, reason: string, name: string, expiresAt: Option<int>, now: int)
    | LiftBan(id: string, now: int)
    | SweepExpiredBans(now: int)

  function NextRevision(current: int, now: int): (next: int)
    ensures next > current
  {
    if now > current + 1 then now else current + 1
  }

  predicate Expired(ban: Ban, now: int) {
    ban.delisted.None? && ban.expiresAt.Some? && ban.expiresAt.value <= now
  }

  function Swept(ban: Ban, next: int, now: int): Ban {
    if Expired(ban, now) then ban.(delisted := Some(next)) else ban
  }

  function DelistExpired(bans: seq<Ban>, next: int, now: int): (swept: seq<Ban>)
    ensures |swept| == |bans| && forall i :: 0 <= i < |bans| ==> swept[i] == Swept(bans[i], next, now)
  {
    seq(|bans|, i requires 0 <= i < |bans| => Swept(bans[i], next, now))
  }

  function Lifted(bans: seq<Ban>, id: string, next: int): (after: seq<Ban>)
    ensures |after| == |bans|
    ensures forall i :: 0 <= i < |bans| ==>
              after[i] == if bans[i].id == id && bans[i].delisted.None? then bans[i].(delisted := Some(next), lifted := true) else bans[i]
  {
    seq(|bans|, i requires 0 <= i < |bans| =>
      if bans[i].id == id && bans[i].delisted.None? then bans[i].(delisted := Some(next), lifted := true) else bans[i])
  }

  predicate Active(bans: seq<Ban>, platform: string, playerID: string) {
    exists i :: 0 <= i < |bans| && bans[i].platform == platform && bans[i].playerID == playerID && bans[i].delisted.None?
  }

  // banIdentityMember, of both members: refused before it reaches the store.
  predicate ValidIdentity(platform: string, playerID: string) {
    platform != "" && playerID != "" && IsBytes(platform) && IsBytes(playerID)
  }

  // Each change in its transaction, under the list's lock; a refused one leaves no trace.
  function Apply(store: Store, change: Change): Store {
    var next := NextRevision(store.current, change.now);
    var swept := DelistExpired(store.bans, next, change.now);
    match change
    case CreateBan(id, platform, playerID, reason, name, expiresAt, now) =>
      if Active(swept, platform, playerID) || !ValidIdentity(platform, playerID) then store
      else Store(next, store.minted + {next}, swept + [Ban(id, platform, playerID, reason, name, expiresAt, next, None, false)])
    case LiftBan(id, now) =>
      var after := Lifted(swept, id, next);
      if (forall i :: 0 <= i < |store.bans| ==> store.bans[i].id != id) || after == store.bans then store
      else Store(next, store.minted + {next}, after)
    case SweepExpiredBans(now) =>
      if swept == store.bans then store else Store(next, store.minted + {next}, swept)
  }

  function Run(changes: seq<Change>): Store {
    if changes == [] then EMPTY else Apply(Run(changes[..|changes| - 1]), changes[|changes| - 1])
  }

  // ---- The list at a revision ----

  // A row's place in the list's history covers the revision.
  predicate OnListAt(ban: Ban, revision: int) {
    ban.listed <= revision && (ban.delisted.None? || ban.delisted.value > revision)
  }

  function PlaceOf(ban: Ban): Place {
    [ban.platform, ban.playerID]
  }

  /** What a page shows of a ban, which no change alters. */
  datatype Entry = Entry(id: string, platform: string, playerID: string, reason: string, name: string, expiresAt: Option<int>)

  function EntryOf(ban: Ban): Entry {
    Entry(ban.id, ban.platform, ban.playerID, ban.reason, ban.name, ban.expiresAt)
  }

  ghost function ListAt(bans: seq<Ban>, revision: int): set<Entry> {
    set i | 0 <= i < |bans| && OnListAt(bans[i], revision) :: EntryOf(bans[i])
  }

  ghost function PlacesAt(bans: seq<Ban>, revision: int): set<Place> {
    set i | 0 <= i < |bans| && OnListAt(bans[i], revision) :: PlaceOf(bans[i])
  }

  // ---- The invariant ----

  ghost predicate BanInv(ban: Ban, store: Store) {
    && ValidIdentity(ban.platform, ban.playerID)
    && ban.listed in store.minted && ban.listed <= store.current
    && (ban.delisted.Some? ==> ban.delisted.value in store.minted && ban.listed < ban.delisted.value <= store.current)
  }

  // Two bans of one identity never share a revision: the earlier left by the time the later joined.
  ghost predicate Apart(earlier: Ban, later: Ban) {
    earlier.platform == later.platform && earlier.playerID == later.playerID ==>
      earlier.delisted.Some? && earlier.delisted.value <= later.listed
  }

  ghost predicate Inv(store: Store) {
    && 0 <= store.current && (store.current == 0 || store.current in store.minted)
    && (forall r :: r in store.minted ==> 0 < r <= store.current)
    && (forall i :: 0 <= i < |store.bans| ==> BanInv(store.bans[i], store))
    && (forall i, j :: 0 <= i < j < |store.bans| ==> Apart(store.bans[i], store.bans[j]))
  }

  // How a change may move a row: stay, or leave the list at the new revision.
  ghost predicate Moves(before: Ban, after: Ban, next: int) {
    after == before || (before.delisted.None? && after == before.(delisted := Some(next), lifted := after.lifted))
  }

  lemma MovedKeeps(store: Store, bans: seq<Ban>, next: int)
    requires Inv(store) && next > store.current
    requires |bans| == |store.bans| && forall i :: 0 <= i < |bans| ==> Moves(store.bans[i], bans[i], next)
    ensures Inv(Store(next, store.minted + {next}, bans))
  {
    var after := Store(next, store.minted + {next}, bans);
    forall i | 0 <= i < |bans| ensures BanInv(bans[i], after) {
      assert BanInv(store.bans[i], store);
    }
    forall i, j | 0 <= i < j < |bans| ensures Apart(bans[i], bans[j]) {
      assert Apart(store.bans[i], store.bans[j]);
    }
  }

  lemma SweepMoves(bans: seq<Ban>, next: int, now: int, i: nat)
    requires i < |bans|
    ensures Moves(bans[i], DelistExpired(bans, next, now)[i], next)
  {
  }

  lemma LiftMoves(bans: seq<Ban>, id: string, next: int, now: int, i: nat)
    requires i < |bans|
    ensures Moves(bans[i], Lifted(DelistExpired(bans, next, now), id, next)[i], next)
  {
  }

  lemma CreateKeeps(store: Store, bans: seq<Ban>, ban: Ban)
    requires Inv(Store(ban.listed, store.minted + {ban.listed}, bans))
    requires ban.delisted.None? && ValidIdentity(ban.platform, ban.playerID) && !Active(bans, ban.platform, ban.playerID)
    ensures Inv(Store(ban.listed, store.minted + {ban.listed}, bans + [ban]))
  {
    var before := Store(ban.listed, store.minted + {ban.listed}, bans);
    var after := before.(bans := bans + [ban]);
    forall i | 0 <= i < |after.bans| ensures BanInv(after.bans[i], after) {
      assert i < |bans| ==> BanInv(bans[i], before);
    }
    forall i, j | 0 <= i < j < |after.bans| ensures Apart(after.bans[i], after.bans[j]) {
      if j < |bans| {
        assert Apart(bans[i], bans[j]);
      } else {
        assert BanInv(bans[i], before);
      }
    }
  }

  lemma ApplyKeeps(store: Store, change: Change)
    requires Inv(store)
    ensures Inv(Apply(store, change))
  {
    var next := NextRevision(store.current, change.now);
    var swept := DelistExpired(store.bans, next, change.now);
    forall i | 0 <= i < |store.bans| ensures Moves(store.bans[i], swept[i], next) {
      SweepMoves(store.bans, next, change.now, i);
    }
    MovedKeeps(store, swept, next);
    match change
    case CreateBan(id, platform, playerID, reason, name, expiresAt, now) =>
      if !Active(swept, platform, playerID) && ValidIdentity(platform, playerID) {
        CreateKeeps(store, swept, Ban(id, platform, playerID, reason, name, expiresAt, next, None, false));
      }
    case LiftBan(id, now) =>
      forall i | 0 <= i < |store.bans| ensures Moves(store.bans[i], Lifted(swept, id, next)[i], next) {
        LiftMoves(store.bans, id, next, now, i);
      }
      MovedKeeps(store, Lifted(swept, id, next), next);
    case SweepExpiredBans(now) =>
  }

  lemma {:induction false} RunKeeps(changes: seq<Change>)
    ensures Inv(Run(changes))
  {
    if changes != [] {
      RunKeeps(changes[..|changes| - 1]);
      ApplyKeeps(Run(changes[..|changes| - 1]), changes[|changes| - 1]);
    }
  }

  // ---- A revision, once minted, never changes ----

  ghost predicate MovesAfter(before: Ban, after: Ban, revision: int) {
    after == before || (after.delisted.Some? && after.delisted.value > revision && Moves(before, after, after.delisted.value))
  }

  // What a change does to the rows: the old ones stay or leave at a later revision, a new one joins
  // at it, and no minted revision is forgotten.
  ghost predicate Advances(before: Store, after: Store) {
    && before.current <= after.current && before.minted <= after.minted
    && |before.bans| <= |after.bans|
    && (forall i :: 0 <= i < |before.bans| ==> MovesAfter(before.bans[i], after.bans[i], before.current))
    && (forall i :: |before.bans| <= i < |after.bans| ==> after.bans[i].listed > before.current)
  }

  lemma ApplyAdvances(store: Store, change: Change)
    requires Inv(store)
    ensures Advances(store, Apply(store, change))
  {
    var next := NextRevision(store.current, change.now);
    var after := Apply(store, change);
    forall i | 0 <= i < |store.bans| ensures MovesAfter(store.bans[i], after.bans[i], store.current) {
      SweepMoves(store.bans, next, change.now, i);
      if change.LiftBan? {
        LiftMoves(store.bans, change.id, next, change.now, i);
      }
    }
  }

  lemma RowKeepsPlace(before: Ban, after: Ban, current: int, revision: int)
    requires MovesAfter(before, after, current) && revision <= current
    ensures OnListAt(before, revision) <==> OnListAt(after, revision)
    ensures EntryOf(before) == EntryOf(after)
  {
  }

  lemma AdvanceKeepsList(before: Store, after: Store, revision: int)
    requires Advances(before, after) && revision <= before.current
    ensures ListAt(after.bans, revision) == ListAt(before.bans, revision)
    ensures PlacesAt(after.bans, revision) == PlacesAt(before.bans, revision)
  {
    forall i | 0 <= i < |before.bans|
      ensures OnListAt(before.bans[i], revision) <==> OnListAt(after.bans[i], revision)
      ensures EntryOf(before.bans[i]) == EntryOf(after.bans[i])
    {
      RowKeepsPlace(before.bans[i], after.bans[i], before.current, revision);
    }
    SameRowsSameList(before.bans, after.bans, revision);
  }

  lemma SameRowsSameList(before: seq<Ban>, after: seq<Ban>, revision: int)
    requires |before| <= |after|
    requires forall i :: 0 <= i < |before| ==>
               (OnListAt(before[i], revision) <==> OnListAt(after[i], revision)) && EntryOf(before[i]) == EntryOf(after[i])
    requires forall i :: |before| <= i < |after| ==> !OnListAt(after[i], revision)
    ensures ListAt(after, revision) == ListAt(before, revision)
    ensures PlacesAt(after, revision) == PlacesAt(before, revision)
  {
    assert forall i :: 0 <= i < |before| ==> PlaceOf(before[i]) == PlaceOf(after[i]);
  }

  lemma RunSnoc(changes: seq<Change>, more: seq<Change>)
    requires more != []
    ensures Run(changes + more) == Apply(Run(changes + more[..|more| - 1]), more[|more| - 1])
  {
    assert (changes + more)[..|changes + more| - 1] == changes + more[..|more| - 1];
  }

  /** The list at a revision is the same list for ever: no run of later changes alters it. */
  lemma {:induction false} ListIsFixed(changes: seq<Change>, more: seq<Change>, revision: int)
    requires revision <= Run(changes).current
    ensures Run(changes).current <= Run(changes + more).current && Run(changes).minted <= Run(changes + more).minted
    ensures ListAt(Run(changes + more).bans, revision) == ListAt(Run(changes).bans, revision)
    ensures PlacesAt(Run(changes + more).bans, revision) == PlacesAt(Run(changes).bans, revision)
    decreases |more|
  {
    if more == [] {
      assert changes + more == changes;
    } else {
      var last := |more| - 1;
      ListIsFixed(changes, more[..last], revision);
      var before := Run(changes + more[..last]);
      RunSnoc(changes, more);
      RunKeeps(changes + more[..last]);
      ApplyAdvances(before, more[last]);
      AdvanceKeepsList(before, Apply(before, more[last]), revision);
    }
  }

  // ---- Serving a page ----

  // BanListAt's check of the revision a cursor names.
  predicate Served(store: Store, revision: int) {
    revision <= store.current && (revision == store.current || revision == 0 || revision in store.minted)
  }

  /** A revision a walk began at is served for as long as the hub lives. */
  lemma NeverGone(changes: seq<Change>, more: seq<Change>)
    ensures Served(Run(changes + more), Run(changes).current)
  {
    RunKeeps(changes);
    ListIsFixed(changes, more, Run(changes).current);
  }

  lemma NotBoth(earlier: Ban, later: Ban, revision: int)
    requires Apart(earlier, later)
    ensures !(OnListAt(earlier, revision) && OnListAt(later, revision) && PlaceOf(earlier) == PlaceOf(later))
  {
    assert PlaceOf(earlier) == PlaceOf(later) ==>
        PlaceOf(earlier)[0] == PlaceOf(later)[0] && PlaceOf(earlier)[1] == PlaceOf(later)[1];
  }

  /** An identity is on the list at a revision at most once, so its place names one ban. */
  lemma OneBanPerPlace(changes: seq<Change>, revision: int, i: nat, j: nat)
    requires var bans := Run(changes).bans;
             i < |bans| && j < |bans| && OnListAt(bans[i], revision) && OnListAt(bans[j], revision) &&
             PlaceOf(bans[i]) == PlaceOf(bans[j])
    ensures i == j
  {
    RunKeeps(changes);
    var bans := Run(changes).bans;
    forall a, b | 0 <= a < b < |bans|
      ensures !(OnListAt(bans[a], revision) && OnListAt(bans[b], revision) && PlaceOf(bans[a]) == PlaceOf(bans[b]))
    {
      NotBoth(bans[a], bans[b], revision);
    }
  }

  // ---- One page ----

  datatype BanPage = BanPage(revision: int, entries: seq<Entry>, nextCursor: Option<string>)

  datatype Refusal = BadCursor | RevisionGone

  function PlacesOf(bans: seq<Ban>): (places: seq<Place>)
    ensures |places| == |bans| && forall i :: 0 <= i < |bans| ==> places[i] == PlaceOf(bans[i])
  {
    seq(|bans|, i requires 0 <= i < |bans| => PlaceOf(bans[i]))
  }

  function EntriesOf(bans: seq<Ban>): (entries: seq<Entry>)
    ensures |entries| == |bans| && forall i :: 0 <= i < |bans| ==> entries[i] == EntryOf(bans[i])
  {
    seq(|bans|, i requires 0 <= i < |bans| => EntryOf(bans[i]))
  }

  function EntryPlaces(entries: seq<Entry>): (places: seq<Place>)
    ensures |places| == |entries| && forall i :: 0 <= i < |entries| ==> places[i] == [entries[i].platform, entries[i].playerID]
  {
    seq(|entries|, i requires 0 <= i < |entries| => [entries[i].platform, entries[i].playerID])
  }

  // The revision and place a cursor asks for; with none, the current revision from the start.
  function Asked(cursor: string): (asked: Option<(int, Place)>) {
    if cursor == "" then Some((-1, []))
    else
      match ParseBanWalkCursor(cursor)
      case None => None
      case Some(at) => Some((at.revision as int, [at.platform, at.playerID]))
  }

  function Chosen(store: Store, revision: int): int {
    if revision < 0 then store.current else revision
  }

  // What BanListAt reads of a revision: bans on it, as one ordered read of their places.
  ghost predicate IsBanRead(bans: seq<Ban>, revision: int, after: Place, count: nat, found: seq<Ban>) {
    && (forall k :: 0 <= k < |found| ==> found[k] in bans && OnListAt(found[k], revision))
    && IsRead(PlacesAt(bans, revision), after, count, PlacesOf(found))
  }

  // Where a page's cursor resumes, if it has one.
  function NextPlace(page: BanPage): Option<Place> {
    if page.nextCursor.Some? && Asked(page.nextCursor.value).Some? then Some(Asked(page.nextCursor.value).value.1) else None
  }

  // A cursor names the revision of its page.
  predicate Resumes(page: BanPage) {
    match page.nextCursor
    case None => true
    case Some(cursor) => cursor != "" && 0 <= page.revision && Asked(cursor).Some? && Asked(cursor).value.0 == page.revision
  }

  // The page a read from a place gives, its cursor at its last place, or none when nothing is left.
  ghost predicate Reads(store: Store, after: Place, limit: nat, page: BanPage)
    requires limit > 0
  {
    IsPage(PlacesAt(store.bans, page.revision), after, limit, EntryPlaces(page.entries), NextPlace(page)) && Resumes(page)
  }

  /** What a request is answered against a store: the list at the revision its cursor names, or at
      the current one, after the place it names. */
  ghost predicate IsAnswer(store: Store, cursor: string, limit: nat, page: BanPage)
    requires limit > 0
  {
    && Asked(cursor).Some?
    && page.revision == Chosen(store, Asked(cursor).value.0) && Served(store, page.revision)
    && (forall k :: 0 <= k < |page.entries| ==> page.entries[k] in ListAt(store.bans, page.revision))
    && Reads(store, Asked(cursor).value.1, limit, page)
  }

  method IssueBanWalkCursor(revision: int, ban: Ban) returns (cursor: string)
    requires 0 <= revision && ValidIdentity(ban.platform, ban.playerID)
    ensures cursor != "" && Asked(cursor) == Some((revision, PlaceOf(ban)))
  {
    var at := Cursor(revision, ban.platform, ban.playerID);
    IssuedParsesBack(at);
    IssuedNotEmpty(at);
    cursor := EncodeBanWalkCursor(at);
  }

  /** handlePluginBans over BanListAt: `found` is what is read of the revision served, one row past
      the limit, after the cursor's place. */
  method PluginBanPage(store: Store, cursor: string, limit: nat, found: seq<Ban>) returns (answer: Result<BanPage, Refusal>)
    requires limit > 0 && Inv(store)
    requires Asked(cursor).Some? ==>
               IsBanRead(store.bans, Chosen(store, Asked(cursor).value.0), Asked(cursor).value.1, limit + 1, found)
    ensures answer == Failure(BadCursor) <==> Asked(cursor).None?
    ensures answer == Failure(RevisionGone) <==> Asked(cursor).Some? && !Served(store, Chosen(store, Asked(cursor).value.0))
    ensures answer.Success? ==> IsAnswer(store, cursor, limit, answer.value)
  {
    var asked := Asked(cursor);
    if asked.None? {
      return Failure(BadCursor);
    }
    var revision := Chosen(store, asked.value.0);
    if !Served(store, revision) {
      return Failure(RevisionGone);
    }
    var page := MakePage(store, revision, asked.value.1, limit, found);
    answer := Success(page);
  }

  method MakePage(store: Store, revision: int, ghost after: Place, limit: nat, found: seq<Ban>)
    returns (page: BanPage)
    requires limit > 0 && Inv(store) && 0 <= revision
    requires IsBanRead(store.bans, revision, after, limit + 1, found)
    ensures page.revision == revision
    ensures forall k :: 0 <= k < |page.entries| ==> page.entries[k] in ListAt(store.bans, revision)
    ensures Reads(store, after, limit, page)
  {
    var served, nextCursor := found, None;
    if |found| > limit {
      FoundIsValid(store, revision, after, limit + 1, found, limit - 1);
      var issued := IssueBanWalkCursor(revision, found[limit - 1]);
      served, nextCursor := found[..limit], Some(issued);
    }
    page := BanPage(revision, EntriesOf(served), nextCursor);
    ServedIsListed(store.bans, revision, served);
    ServedReads(store, after, limit, found, page);
  }

  lemma ServedIsListed(bans: seq<Ban>, revision: int, served: seq<Ban>)
    requires forall k :: 0 <= k < |served| ==> served[k] in bans && OnListAt(served[k], revision)
    ensures forall k :: 0 <= k < |served| ==> EntriesOf(served)[k] in ListAt(bans, revision)
  {
    forall k | 0 <= k < |served| ensures EntryOf(served[k]) in ListAt(bans, revision) {
      FoundIsListed(bans, revision, served[k]);
    }
  }

  // A page made of what was read past its limit by at most one row.
  predicate MadeOf(page: BanPage, found: seq<Ban>, limit: nat)
    requires limit > 0
  {
    && page.entries == EntriesOf(if |found| > limit then found[..limit] else found)
    && if |found| > limit then page.nextCursor.Some? && page.nextCursor.value != "" &&
                               Asked(page.nextCursor.value) == Some((page.revision, PlaceOf(found[limit - 1])))
       else page.nextCursor.None?
  }

  lemma MadeResumes(page: BanPage, found: seq<Ban>, limit: nat)
    requires limit > 0 && 0 <= page.revision && MadeOf(page, found, limit)
    ensures Resumes(page) && NextPlace(page) == if |found| > limit then Some(PlaceOf(found[limit - 1])) else None
  {
  }

  lemma MadePage(entries: seq<Entry>, found: seq<Ban>, limit: nat)
    requires limit > 0 && entries == EntriesOf(if |found| > limit then found[..limit] else found)
    ensures Page(PlacesOf(found), limit) ==
            (EntryPlaces(entries), if |found| > limit then Some(PlaceOf(found[limit - 1])) else None)
  {
    ServedIsPage(found, limit, if |found| > limit then found[..limit] else found);
  }

  lemma ServedReads(store: Store, after: Place, limit: nat, found: seq<Ban>, page: BanPage)
    requires limit > 0 && 0 <= page.revision && IsBanRead(store.bans, page.revision, after, limit + 1, found)
    requires MadeOf(page, found, limit)
    ensures Reads(store, after, limit, page)
  {
    MadeResumes(page, found, limit);
    MadePage(page.entries, found, limit);
    ReadIsPage(PlacesAt(store.bans, page.revision), after, limit, PlacesOf(found), EntryPlaces(page.entries), NextPlace(page));
  }

  lemma ReadIsPage(live: set<Place>, after: Place, limit: nat, found: seq<Place>, places: seq<Place>, next: Option<Place>)
    requires limit > 0 && IsRead(live, after, limit + 1, found) && Page(found, limit) == (places, next)
    ensures IsPage(live, after, limit, places, next)
  {
  }

  lemma ServedIsPage(found: seq<Ban>, limit: nat, served: seq<Ban>)
    requires limit > 0 && served == if |found| > limit then found[..limit] else found
    ensures EntryPlaces(EntriesOf(served)) == Page(PlacesOf(found), limit).0
  {
    var places, page := EntryPlaces(EntriesOf(served)), Page(PlacesOf(found), limit).0;
    assert |places| == |page|;
    forall i | 0 <= i < |places| ensures places[i] == page[i] {
      assert served[i] == found[i];
    }
  }

  lemma FoundIsListed(bans: seq<Ban>, revision: int, ban: Ban)
    requires ban in bans && OnListAt(ban, revision)
    ensures EntryOf(ban) in ListAt(bans, revision)
  {
    var i :| 0 <= i < |bans| && bans[i] == ban;
  }

  lemma FoundIsValid(store: Store, revision: int, after: Place, count: nat, found: seq<Ban>, k: nat)
    requires Inv(store) && IsBanRead(store.bans, revision, after, count, found) && k < |found|
    ensures ValidIdentity(found[k].platform, found[k].playerID)
  {
    assert found[k] in store.bans;
    var i :| 0 <= i < |store.bans| && store.bans[i] == found[k];
    assert BanInv(store.bans[i], store);
  }

  // ---- The walk ----

  /** Following nextCursor to the end: each request carries the cursor of the answer before it, a
      limit of its own, and meets the store as it then is. */
  ghost predicate IsBanWalk(stores: seq<Store>, cursor: string, limits: seq<nat>, answers: seq<BanPage>)
    decreases |answers|
  {
    && answers != [] && |stores| == |limits| == |answers| && limits[0] > 0
    && IsAnswer(stores[0], cursor, limits[0], answers[0])
    && (if |answers| == 1 then answers[0].nextCursor == None
        else answers[0].nextCursor.Some? &&
             IsBanWalk(stores[1..], answers[0].nextCursor.value, limits[1..], answers[1..]))
  }

  ghost function ListingsAt(stores: seq<Store>, revision: int): (listings: seq<set<Place>>)
    ensures |listings| == |stores| && forall k :: 0 <= k < |stores| ==> listings[k] == PlacesAt(stores[k].bans, revision)
  {
    seq(|stores|, k requires 0 <= k < |stores| => PlacesAt(stores[k].bans, revision))
  }

  function PagesOf(answers: seq<BanPage>): (pages: seq<seq<Place>>)
    ensures |pages| == |answers| && forall k :: 0 <= k < |answers| ==> pages[k] == EntryPlaces(answers[k].entries)
  {
    seq(|answers|, k requires 0 <= k < |answers| => EntryPlaces(answers[k].entries))
  }

  lemma Tails(stores: seq<Store>, revision: int, answers: seq<BanPage>)
    requires stores != [] && answers != []
    ensures ListingsAt(stores, revision)[1..] == ListingsAt(stores[1..], revision)
    ensures PagesOf(answers)[1..] == PagesOf(answers[1..])
  {
  }

  // What an answer shows is of the one revision and on the list at it.
  ghost predicate ShowsList(store: Store, page: BanPage, revision: int) {
    page.revision == revision && forall entry :: entry in page.entries ==> entry in ListAt(store.bans, revision)
  }

  lemma {:induction false} CursorsShow(stores: seq<Store>, cursor: string, limits: seq<nat>, answers: seq<BanPage>, revision: int, k: nat)
    requires IsBanWalk(stores, cursor, limits, answers) && revision == Chosen(stores[0], Asked(cursor).value.0)
    requires k < |answers|
    ensures ShowsList(stores[k], answers[k], revision)
    decreases k
  {
    if k > 0 {
      var cursor' := answers[0].nextCursor.value;
      assert IsBanWalk(stores[1..], cursor', limits[1..], answers[1..]);
      CursorsShow(stores[1..], cursor', limits[1..], answers[1..], revision, k - 1);
    }
  }

  /** Following cursors is walking one revision: each carries on the revision the first answer was
      served, at the place that answer ended. */
  lemma {:induction false} CursorsWalk(stores: seq<Store>, cursor: string, limits: seq<nat>, answers: seq<BanPage>, revision: int)
    requires IsBanWalk(stores, cursor, limits, answers) && revision == Chosen(stores[0], Asked(cursor).value.0)
    ensures IsWalk(ListingsAt(stores, revision), Asked(cursor).value.1, limits, PagesOf(answers))
    ensures forall k :: 0 <= k < |answers| ==> ShowsList(stores[k], answers[k], revision)
    decreases |answers|
  {
    if |answers| > 1 {
      CursorsWalk(stores[1..], answers[0].nextCursor.value, limits[1..], answers[1..], revision);
      Tails(stores, revision, answers);
    }
    forall k | 0 <= k < |answers| ensures ShowsList(stores[k], answers[k], revision) {
      CursorsShow(stores, cursor, limits, answers, revision, k);
    }
  }

  function StoresAfter(changes: seq<Change>, later: seq<seq<Change>>): (stores: seq<Store>)
    ensures |stores| == |later| && forall k :: 0 <= k < |later| ==> stores[k] == Run(changes + later[k])
  {
    seq(|later|, k requires 0 <= k < |later| => Run(changes + later[k]))
  }

  /** A plugin's walk, its first request after `changes` and request k after all of `later[k]`
      besides, each with the cursor of the answer before it: every answer is served the revision the
      walk began at, and together they show every identity of it exactly once, in (platform, player
      id) byte order, and no other, whatever was placed, lifted or swept meanwhile. */
  lemma WalkReadsOneRevision(changes: seq<Change>, later: seq<seq<Change>>, limits: seq<nat>, answers: seq<BanPage>)
    requires later != [] && later[0] == [] && IsBanWalk(StoresAfter(changes, later), "", limits, answers)
    ensures var revision := Run(changes).current;
            && (forall k :: 0 <= k < |answers| ==> answers[k].revision == revision)
            && Ascending(Flatten(PagesOf(answers)))
            && (forall i, j :: 0 <= i < j < |Flatten(PagesOf(answers))| ==> Flatten(PagesOf(answers))[i] != Flatten(PagesOf(answers))[j])
            && (forall p :: p in Flatten(PagesOf(answers)) <==> p in PlacesAt(Run(changes).bans, revision))
  {
    var revision := Run(changes).current;
    var stores := StoresAfter(changes, later);
    var live := PlacesAt(Run(changes).bans, revision);
    assert changes + later[0] == changes;
    CursorsWalk(stores, "", limits, answers, revision);
    forall k | 0 <= k < |stores| ensures ListingsAt(stores, revision)[k] == live {
      ListIsFixed(changes, later[k], revision);
    }
    PlacesNotEmpty(Run(changes).bans, revision);
    WalkIsExact(live, ListingsAt(stores, revision), limits, PagesOf(answers));
  }

  lemma PlacesNotEmpty(bans: seq<Ban>, revision: int)
    ensures [] !in PlacesAt(bans, revision)
  {
  }

  /** And what it shows of them is what the list at that revision says: an entry is shown if and only
      if it is on it. */
  lemma WalkShowsTheList(changes: seq<Change>, later: seq<seq<Change>>, limits: seq<nat>, answers: seq<BanPage>, entry: Entry)
    requires later != [] && later[0] == [] && IsBanWalk(StoresAfter(changes, later), "", limits, answers)
    ensures (exists k :: 0 <= k < |answers| && entry in answers[k].entries) <==> entry in ListAt(Run(changes).bans, Run(changes).current)
  {
    var revision := Run(changes).current;
    var stores := StoresAfter(changes, later);
    assert changes + later[0] == changes;
    CursorsWalk(stores, "", limits, answers, revision);
    forall k | 0 <= k < |stores| ensures ListAt(stores[k].bans, revision) == ListAt(Run(changes).bans, revision) {
      ListIsFixed(changes, later[k], revision);
    }
    if entry in ListAt(Run(changes).bans, revision) {
      var k, i := ShownWhere(changes, later, limits, answers, entry);
      assert answers[k].entries[i] in answers[k].entries;
      OneEntryPerPlace(changes, revision, entry, answers[k].entries[i]);
    }
  }

  // The answer that shows a listed entry's identity.
  lemma ShownWhere(changes: seq<Change>, later: seq<seq<Change>>, limits: seq<nat>, answers: seq<BanPage>, entry: Entry)
    returns (k: nat, i: nat)
    requires later != [] && later[0] == [] && IsBanWalk(StoresAfter(changes, later), "", limits, answers)
    requires entry in ListAt(Run(changes).bans, Run(changes).current)
    ensures k < |answers| && i < |answers[k].entries|
    ensures answers[k].entries[i].platform == entry.platform && answers[k].entries[i].playerID == entry.playerID
  {
    var revision := Run(changes).current;
    var stores := StoresAfter(changes, later);
    assert changes + later[0] == changes;
    WalkReadsOneRevision(changes, later, limits, answers);
    CursorsWalk(stores, "", limits, answers, revision);
    var place := [entry.platform, entry.playerID];
    EntryHasPlace(Run(changes).bans, revision, entry);
    k := WalkLists(ListingsAt(stores, revision), [], limits, PagesOf(answers), place);
    i :| 0 <= i < |PagesOf(answers)[k]| && PagesOf(answers)[k][i] == place;
    assert place[0] == entry.platform && place[1] == entry.playerID;
  }

  lemma EntryHasPlace(bans: seq<Ban>, revision: int, entry: Entry)
    requires entry in ListAt(bans, revision)
    ensures [entry.platform, entry.playerID] in PlacesAt(bans, revision)
  {
    var i :| 0 <= i < |bans| && OnListAt(bans[i], revision) && EntryOf(bans[i]) == entry;
    assert PlaceOf(bans[i]) == [entry.platform, entry.playerID];
  }

  lemma OneEntryPerPlace(changes: seq<Change>, revision: int, a: Entry, b: Entry)
    requires a in ListAt(Run(changes).bans, revision) && b in ListAt(Run(changes).bans, revision)
    requires a.platform == b.platform && a.playerID == b.playerID
    ensures a == b
  {
    var bans := Run(changes).bans;
    var i :| 0 <= i < |bans| && OnListAt(bans[i], revision) && EntryOf(bans[i]) == a;
    var j :| 0 <= j < |bans| && OnListAt(bans[j], revision) && EntryOf(bans[j]) == b;
    OneBanPerPlace(changes, revision, i, j);
  }

  /** A cursor such a walk was given is never refused, however long it waits. */
  lemma IssuedIsServed(changes: seq<Change>, more: seq<Change>, ban: Ban)
    requires ValidIdentity(ban.platform, ban.playerID) && 0 <= Run(changes).current
    ensures var asked := Asked(EncodeBanWalkCursor(Cursor(Run(changes).current, ban.platform, ban.playerID)));
            && asked == Some((Run(changes).current, PlaceOf(ban)))
            && Served(Run(changes + more), Chosen(Run(changes + more), asked.value.0))
  {
    var at := Cursor(Run(changes).current, ban.platform, ban.playerID);
    IssuedParsesBack(at);
    IssuedNotEmpty(at);
    NeverGone(changes, more);
  }
}
