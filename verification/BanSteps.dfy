/** What placing, lifting and sweeping do to the ban list: which entries it has afterwards, told over
    the list and not over the rows. */
module BanSteps {
  import opened BanWalk
  import opened Wrappers

  // An entry whose term has ended.
  ghost predicate Lapsed(e: Entry, now: int) {
    e.expiresAt.Some? && e.expiresAt.value <= now
  }

  // The current list without what has lapsed.
  ghost function Standing(store: Store, now: int): set<Entry> {
    set e | e in ListAt(store.bans, store.current) && !Lapsed(e, now)
  }

  // A change took the next revision: the clock's, or one more than the last.
  ghost predicate Mints(store: Store, after: Store, now: int) {
    && after.current == (if now > store.current then now else store.current + 1)
    && after.minted == store.minted + {after.current}
  }

  // On the list now is not having left it.
  lemma CurrentIsListed(store: Store, i: nat)
    requires Inv(store) && i < |store.bans|
    ensures OnListAt(store.bans[i], store.current) <==> store.bans[i].delisted.None?
  {
    assert BanInv(store.bans[i], store);
  }

  // A row a sweep leaves on the list.
  ghost predicate Stays(ban: Ban, now: int) {
    ban.delisted.None? && !Lapsed(EntryOf(ban), now)
  }

  lemma StandingRows(store: Store, now: int, e: Entry)
    requires Inv(store)
    ensures e in Standing(store, now) <==> exists i :: 0 <= i < |store.bans| && Stays(store.bans[i], now) && EntryOf(store.bans[i]) == e
  {
    forall i | 0 <= i < |store.bans| ensures OnListAt(store.bans[i], store.current) <==> store.bans[i].delisted.None? {
      CurrentIsListed(store, i);
    }
  }

  // A list whose rows on it at a revision are those of another that stay.
  ghost predicate Lists(bans: seq<Ban>, revision: int, e: Entry) {
    exists i :: 0 <= i < |bans| && OnListAt(bans[i], revision) && EntryOf(bans[i]) == e
  }

  lemma InListAt(bans: seq<Ban>, revision: int, e: Entry)
    ensures e in ListAt(bans, revision) <==> Lists(bans, revision, e)
  {
  }

  lemma SweptRows(store: Store, now: int, i: nat)
    requires Inv(store) && i < |store.bans|
    ensures var next := NextRevision(store.current, now);
            var row := DelistExpired(store.bans, next, now)[i];
            && (OnListAt(row, next) <==> Stays(store.bans[i], now)) && EntryOf(row) == EntryOf(store.bans[i])
            && (row == store.bans[i] <==> !(store.bans[i].delisted.None? && Lapsed(EntryOf(store.bans[i]), now)))
            && (row.delisted.None? <==> Stays(store.bans[i], now))
  {
    assert BanInv(store.bans[i], store);
  }

  lemma SweptList(store: Store, now: int)
    requires Inv(store)
    ensures var next := NextRevision(store.current, now);
            ListAt(DelistExpired(store.bans, next, now), next) == Standing(store, now)
  {
    var next := NextRevision(store.current, now);
    var swept := DelistExpired(store.bans, next, now);
    forall i | 0 <= i < |swept|
      ensures (OnListAt(swept[i], next) <==> Stays(store.bans[i], now)) && EntryOf(swept[i]) == EntryOf(store.bans[i])
    {
      SweptRows(store, now, i);
    }
    forall e ensures e in ListAt(swept, next) <==> e in Standing(store, now) {
      StandingRows(store, now, e);
      InListAt(swept, next, e);
    }
  }

  lemma SweepChanges(store: Store, now: int)
    requires Inv(store)
    ensures DelistExpired(store.bans, NextRevision(store.current, now), now) == store.bans <==>
            Standing(store, now) == ListAt(store.bans, store.current)
  {
    var swept := DelistExpired(store.bans, NextRevision(store.current, now), now);
    forall i | 0 <= i < |swept|
      ensures swept[i] == store.bans[i] <==> !(store.bans[i].delisted.None? && Lapsed(EntryOf(store.bans[i]), now))
    {
      SweptRows(store, now, i);
    }
    forall i | 0 <= i < |swept| ensures OnListAt(store.bans[i], store.current) <==> store.bans[i].delisted.None? {
      CurrentIsListed(store, i);
    }
    if swept != store.bans {
      var i :| 0 <= i < |swept| && swept[i] != store.bans[i];
      assert EntryOf(store.bans[i]) in ListAt(store.bans, store.current);
    }
  }

  /** A sweep takes what has lapsed off the list and mints a revision; with nothing to take it mints none. */
  lemma SweepDelists(changes: seq<Change>, now: int)
    ensures var store, after := Run(changes), Apply(Run(changes), SweepExpiredBans(now));
            if Standing(store, now) == ListAt(store.bans, store.current) then after == store
            else Mints(store, after, now) && ListAt(after.bans, after.current) == Standing(store, now)
  {
    RunKeeps(changes);
    SweptList(Run(changes), now);
    SweepChanges(Run(changes), now);
  }

  // An identity the hub accepts, of no standing ban.
  ghost predicate Placeable(store: Store, platform: string, playerID: string, now: int) {
    ValidIdentity(platform, playerID) && !exists e :: e in Standing(store, now) && e.platform == platform && e.playerID == playerID
  }

  lemma ActiveIsStanding(store: Store, platform: string, playerID: string, now: int)
    requires Inv(store)
    ensures Active(DelistExpired(store.bans, NextRevision(store.current, now), now), platform, playerID) <==>
            exists e :: e in Standing(store, now) && e.platform == platform && e.playerID == playerID
  {
    var swept := DelistExpired(store.bans, NextRevision(store.current, now), now);
    forall i | 0 <= i < |swept|
      ensures swept[i].delisted.None? <==> Stays(store.bans[i], now)
      ensures EntryOf(swept[i]) == EntryOf(store.bans[i])
    {
      SweptRows(store, now, i);
    }
    if i :| 0 <= i < |swept| && swept[i].platform == platform && swept[i].playerID == playerID && swept[i].delisted.None? {
      StandingRows(store, now, EntryOf(store.bans[i]));
    }
    if e :| e in Standing(store, now) && e.platform == platform && e.playerID == playerID {
      StandingRows(store, now, e);
      var i :| 0 <= i < |store.bans| && Stays(store.bans[i], now) && EntryOf(store.bans[i]) == e;
      assert swept[i].platform == platform;
    }
  }

  lemma ListSnoc(bans: seq<Ban>, ban: Ban, revision: int)
    requires OnListAt(ban, revision)
    ensures ListAt(bans + [ban], revision) == ListAt(bans, revision) + {EntryOf(ban)}
  {
    var all := bans + [ban];
    assert all[|bans|] == ban && forall i :: 0 <= i < |bans| ==> all[i] == bans[i];
    forall e ensures e in ListAt(all, revision) <==> e in ListAt(bans, revision) + {EntryOf(ban)} {
      InListAt(all, revision, e);
      InListAt(bans, revision, e);
    }
  }

  /** A ban of an acceptable identity that has none standing joins the list, exactly as it was placed;
      what had lapsed leaves with it. Any other leaves no trace. */
  lemma CreateLists(changes: seq<Change>, id: string, platform: string, playerID: string, reason: string, name: string, expiresAt: Option<int>, now: int)
    ensures var store, after := Run(changes), Apply(Run(changes), CreateBan(id, platform, playerID, reason, name, expiresAt, now));
            if Placeable(store, platform, playerID, now) then
              && Mints(store, after, now)
              && ListAt(after.bans, after.current) == Standing(store, now) + {Entry(id, platform, playerID, reason, name, expiresAt)}
            else after == store
  {
    var store := Run(changes);
    RunKeeps(changes);
    ActiveIsStanding(store, platform, playerID, now);
    var next := NextRevision(store.current, now);
    SweptList(store, now);
    ListSnoc(DelistExpired(store.bans, next, now), Ban(id, platform, playerID, reason, name, expiresAt, next, None, false), next);
  }

  lemma LiftedRows(store: Store, id: string, now: int, i: nat)
    requires Inv(store) && i < |store.bans|
    ensures var next, before := NextRevision(store.current, now), store.bans[i];
            var row := Lifted(DelistExpired(store.bans, next, now), id, next)[i];
            && (OnListAt(row, next) <==> Stays(before, now) && before.id != id) && EntryOf(row) == EntryOf(before)
            && (row == before <==> before.delisted.Some? || (Stays(before, now) && before.id != id))
            && (row.lifted <==> before.lifted || (Stays(before, now) && before.id == id))
  {
    assert BanInv(store.bans[i], store);
    SweptRows(store, now, i);
  }

  // Lifted is what the lift took off the list, and what was lifted before.
  ghost predicate Marks(bans: seq<Ban>, after: seq<Ban>, id: string, now: int) {
    && |after| == |bans|
    && forall i :: 0 <= i < |bans| ==> (after[i].lifted <==> bans[i].lifted || (Stays(bans[i], now) && bans[i].id == id))
  }

  lemma LiftMarks(store: Store, id: string, now: int)
    requires Inv(store)
    ensures var next := NextRevision(store.current, now);
            Marks(store.bans, Lifted(DelistExpired(store.bans, next, now), id, next), id, now)
  {
    var next := NextRevision(store.current, now);
    var after := Lifted(DelistExpired(store.bans, next, now), id, next);
    forall i | 0 <= i < |store.bans|
      ensures after[i].lifted <==> store.bans[i].lifted || (Stays(store.bans[i], now) && store.bans[i].id == id)
    {
      LiftedRows(store, id, now, i);
    }
  }

  /** Lifting a ban the hub has takes it off the list, with what had lapsed, and marks as lifted the
      row it took off and no other; lifting one unknown, or gone with nothing lapsed, leaves no trace. */
  lemma LiftDelists(changes: seq<Change>, id: string, now: int)
    ensures var store, after := Run(changes), Apply(Run(changes), LiftBan(id, now));
            var left := set e | e in Standing(store, now) && e.id != id;
            if (exists i :: 0 <= i < |store.bans| && store.bans[i].id == id) && left != ListAt(store.bans, store.current) then
              Mints(store, after, now) && ListAt(after.bans, after.current) == left && Marks(store.bans, after.bans, id, now)
            else after == store
  {
    RunKeeps(changes);
    LiftList(Run(changes), id, now);
    LiftMarks(Run(changes), id, now);
  }

  lemma LiftList(store: Store, id: string, now: int)
    requires Inv(store)
    ensures var next := NextRevision(store.current, now);
            var after := Lifted(DelistExpired(store.bans, next, now), id, next);
            var left := set e | e in Standing(store, now) && e.id != id;
            ListAt(after, next) == left && (after == store.bans <==> left == ListAt(store.bans, store.current))
  {
    var next := NextRevision(store.current, now);
    var after := Lifted(DelistExpired(store.bans, next, now), id, next);
    var left := set e | e in Standing(store, now) && e.id != id;
    forall i | 0 <= i < |after|
      ensures (OnListAt(after[i], next) <==> Stays(store.bans[i], now) && store.bans[i].id != id) && EntryOf(after[i]) == EntryOf(store.bans[i])
      ensures after[i] == store.bans[i] <==> store.bans[i].delisted.Some? || (Stays(store.bans[i], now) && store.bans[i].id != id)
      ensures OnListAt(store.bans[i], store.current) <==> store.bans[i].delisted.None?
    {
      LiftedRows(store, id, now, i);
      CurrentIsListed(store, i);
    }
    forall e ensures e in ListAt(after, next) <==> e in left {
      StandingRows(store, now, e);
      InListAt(after, next, e);
    }
    if after != store.bans {
      var i :| 0 <= i < |after| && after[i] != store.bans[i];
      assert EntryOf(store.bans[i]) in ListAt(store.bans, store.current);
    }
  }

  /** A run takes its changes one after another from the start. */
  lemma RunGoesOn(changes: seq<Change>, change: Change)
    ensures Run([]) == EMPTY && Run(changes + [change]) == Apply(Run(changes), change)
  {
    assert (changes + [change])[..|changes|] == changes;
  }

  // A revision the list once stood at.
  ghost predicate WasCurrent(changes: seq<Change>, revision: int) {
    exists k :: 0 <= k <= |changes| && Run(changes[..k]).current == revision
  }

  lemma WasCurrentSnoc(changes: seq<Change>, revision: int)
    requires changes != []
    ensures WasCurrent(changes, revision) <==> WasCurrent(changes[..|changes| - 1], revision) || Run(changes).current == revision
  {
    var last := |changes| - 1;
    assert changes[..|changes|] == changes;
    forall k | 0 <= k <= last ensures changes[..last][..k] == changes[..k] {
    }
  }

  lemma ApplyMints(store: Store, change: Change)
    ensures var after := Apply(store, change);
            after == store || (after.current > store.current && after.minted == store.minted + {after.current})
  {
  }

  lemma {:induction false} MintedIff(changes: seq<Change>, revision: int)
    ensures revision in Run(changes).minted || revision == 0 <==> WasCurrent(changes, revision)
  {
    if changes == [] {
      assert changes[..0] == [] && Run(changes[..0]).current == 0;
    } else {
      var before := changes[..|changes| - 1];
      MintedIff(before, revision);
      WasCurrentSnoc(changes, revision);
      ApplyMints(Run(before), changes[|changes| - 1]);
      assert before[..|before|] == before;
      assert WasCurrent(before, Run(before).current);
    }
  }

  /** A revision is served exactly when the list once stood at it. */
  lemma ServedIff(changes: seq<Change>, revision: int)
    ensures Served(Run(changes), revision) <==> WasCurrent(changes, revision)
  {
    RunKeeps(changes);
    MintedIff(changes, revision);
    MintedIff(changes, Run(changes).current);
  }
}
