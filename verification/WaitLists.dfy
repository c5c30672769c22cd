/** hub/waiters.go: the registry held polls wait in, and the ceiling on how many one session may
    hold. */
module WaitLists {
  import opened Wrappers

  // A channel of capacity one, made for one registration.
  class Signal {
    ghost const owner: nat
    var raised: bool

    constructor (ghost owner: nat)
      ensures !raised && this.owner == owner
    {
      this.owner := owner;
      raised := false;
    }

    // A send that gives up when the channel is full.
    method Raise()
      modifies this
      ensures raised
    {
      if !raised {
        raised := true;
      }
    }
  }

  type Registration = (string, Signal)

  // What waits on a key.
  function On(waiting: map<string, map<nat, Signal>>, key: string): map<nat, Signal> {
    if key in waiting then waiting[key] else map[]
  }

  ghost predicate Filed(waiting: map<string, map<nat, Signal>>, id: nat, r: Registration) {
    r.0 in waiting && id in waiting[r.0] && waiting[r.0][id] == r.1
  }

  ghost predicate Backed(mine: map<nat, Signal>, key: string, entries: map<nat, Registration>) {
    mine != map[] && forall id :: id in mine ==> id in entries && entries[id].0 == key
  }

  // The nested maps hold the registrations, and no key is kept once nothing waits on it.
  ghost predicate Indexes(waiting: map<string, map<nat, Signal>>, entries: map<nat, Registration>) {
    && (forall id {:trigger Filed(waiting, id, entries[id])} :: id in entries ==> Filed(waiting, id, entries[id]))
    && (forall key {:trigger Backed(waiting[key], key, entries)} :: key in waiting ==> Backed(waiting[key], key, entries))
  }

  lemma IndexInsert(waiting: map<string, map<nat, Signal>>, entries: map<nat, Registration>, key: string, id: nat, signal: Signal)
    requires Indexes(waiting, entries) && id !in entries
    ensures Indexes(waiting[key := On(waiting, key)[id := signal]], entries[id := (key, signal)])
  {
    var after, grown := waiting[key := On(waiting, key)[id := signal]], entries[id := (key, signal)];
    assert id in after[key];
    forall other | other in grown ensures Filed(after, other, grown[other]) {
      assert other != id ==> Filed(waiting, other, entries[other]);
    }
    forall k | k in after ensures Backed(after[k], k, grown) {
      assert k in waiting ==> Backed(waiting[k], k, entries);
    }
  }

  // The nested maps with one registration taken out.
  function Dropped(waiting: map<string, map<nat, Signal>>, key: string, id: nat): map<string, map<nat, Signal>>
    requires key in waiting
  {
    var mine := Without(waiting[key], id);
    if mine == map[] then waiting - {key} else waiting[key := mine]
  }

  lemma IndexRemove(waiting: map<string, map<nat, Signal>>, entries: map<nat, Registration>, key: string, id: nat)
    requires Indexes(waiting, entries) && id in entries && entries[id].0 == key
    ensures Filed(waiting, id, entries[id])
    ensures Indexes(Dropped(waiting, key, id), Without(entries, id))
  {
    assert Filed(waiting, id, entries[id]);
    var mine := Without(waiting[key], id);
    var after, rest := Dropped(waiting, key, id), Without(entries, id);
    forall other | other in rest ensures Filed(after, other, rest[other]) {
      assert Filed(waiting, other, entries[other]);
      assert rest[other].0 == key ==> other in mine;
    }
    forall k | k in after ensures Backed(after[k], k, rest) {
      assert Backed(waiting[k], k, entries);
    }
  }

  ghost predicate Issued(entries: map<nat, Registration>, nextID: nat) {
    forall id :: id in entries ==> 0 < id <= nextID && entries[id].1.owner == id
  }

  lemma IssuedWithout(entries: map<nat, Registration>, nextID: nat, id: nat)
    requires Issued(entries, nextID)
    ensures Issued(Without(entries, id), nextID)
  {
  }

  class Waiters {
    var nextID: nat
    var waiting: map<string, map<nat, Signal>>
    ghost var entries: map<nat, Registration>

    /** `entries` is `waiting` seen by id alone: every registration, under an id never used before. */
    ghost predicate Valid()
      reads this
    {
      Indexes(waiting, entries) && Issued(entries, nextID)
    }

    ghost function Signals(): set<Signal>
      reads this
    {
      set id | id in entries :: entries[id].1
    }

    constructor ()
      ensures Valid() && entries == map[] && nextID == 0
    {
      nextID, waiting, entries := 0, map[], map[];
    }

    method Wait(key: string) returns (signal: Signal, id: nat)
      requires Valid()
      modifies this
      ensures Valid() && fresh(signal) && !signal.raised
      ensures id == nextID == old(nextID) + 1 && id !in old(entries)
      ensures entries == old(entries)[id := (key, signal)]
    {
      nextID := nextID + 1;
      id := nextID;
      signal := new Signal(id);
      IndexInsert(waiting, entries, key, id, signal);
      waiting := waiting[key := On(waiting, key)[id := signal]];
      entries := entries[id := (key, signal)];
    }

    // The function `wait` returns beside the signal.
    method Release(key: string, id: nat)
      requires Valid() && id in entries && entries[id].0 == key
      modifies this`waiting, this`entries
      ensures Valid() && entries == Without(old(entries), id)
    {
      IndexRemove(waiting, entries, key, id);
      IssuedWithout(entries, nextID, id);
      var mine := Without(waiting[key], id);
      if mine == map[] {
        waiting := waiting - {key};
      } else {
        waiting := waiting[key := mine];
      }
      entries := Without(entries, id);
    }

    /** Raises every signal of the key and no other, and never waits for anyone to take one. */
    method Notify(key: string)
      requires Valid()
      modifies Signals()
      ensures forall id :: id in entries ==>
                (entries[id].1.raised <==> old(entries[id].1.raised) || entries[id].0 == key)
    {
      var mine := On(waiting, key);
      OnEntries(waiting, entries, key);
      assert forall signal :: signal in mine.Values ==> signal in Signals();
      RaiseAll(mine);
    }
  }

  lemma OnEntries(waiting: map<string, map<nat, Signal>>, entries: map<nat, Registration>, key: string)
    requires Indexes(waiting, entries)
    ensures forall id :: id in On(waiting, key) ==> id in entries && entries[id] == (key, On(waiting, key)[id])
    ensures forall id :: id in entries && entries[id].0 == key ==> id in On(waiting, key)
  {
    forall id | id in On(waiting, key) ensures id in entries && entries[id] == (key, On(waiting, key)[id]) {
      assert Backed(waiting[key], key, entries);
      assert Filed(waiting, id, entries[id]);
    }
    forall id | id in entries && entries[id].0 == key ensures id in On(waiting, key) {
      assert Filed(waiting, id, entries[id]);
    }
  }

  method RaiseAll(mine: map<nat, Signal>)
    modifies mine.Values
    ensures forall id :: id in mine ==> mine[id].raised
  {
    var ids := mine.Keys;
    while ids != {}
      invariant ids <= mine.Keys
      invariant forall id :: id in mine.Keys - ids ==> mine[id].raised
      decreases |ids|
    {
      var id :| id in ids;
      assert mine[id] in mine.Values;
      mine[id].Raise();
      ids := ids - {id};
    }
  }

  // A claim on a session's hold, as its holder sees it.
  class Slot {
    const key: string
    var open: bool

    constructor (key: string, granted: bool)
      ensures this.key == key && open == granted
    {
      this.key, open := key, granted;
    }
  }

  // The claims on a key among some.
  ghost function ClaimsOn(slots: set<Slot>, key: string): set<Slot> {
    set slot | slot in slots && slot.key == key
  }

  function Count(held: map<string, nat>, key: string): nat {
    if key in held then held[key] else 0
  }

  ghost predicate Counts(held: map<string, nat>, slots: set<Slot>) {
    && (forall key :: key in held ==> held[key] > 0)
    && (forall key :: Count(held, key) == |ClaimsOn(slots, key)|)
  }

  lemma ClaimsInsert(slots: set<Slot>, slot: Slot, key: string)
    requires slot !in slots
    ensures |ClaimsOn(slots + {slot}, key)| == |ClaimsOn(slots, key)| + (if key == slot.key then 1 else 0)
  {
    assert ClaimsOn(slots + {slot}, key) == ClaimsOn(slots, key) + (if key == slot.key then {slot} else {});
  }

  lemma CountsInsert(held: map<string, nat>, slots: set<Slot>, slot: Slot)
    requires Counts(held, slots) && slot !in slots
    ensures Counts(held[slot.key := Count(held, slot.key) + 1], slots + {slot})
  {
    forall key ensures |ClaimsOn(slots + {slot}, key)| == Count(held, key) + (if key == slot.key then 1 else 0) {
      ClaimsInsert(slots, slot, key);
    }
  }

  lemma CountsRemove(held: map<string, nat>, slots: set<Slot>, slot: Slot)
    requires Counts(held, slots) && slot in slots
    ensures slot.key in held
    ensures var left := held[slot.key] - 1;
            Counts(if left == 0 then held - {slot.key} else held[slot.key := left], slots - {slot})
  {
    var rest := slots - {slot};
    assert rest + {slot} == slots;
    ClaimsInsert(rest, slot, slot.key);
    assert Count(held, slot.key) == |ClaimsOn(slots, slot.key)|;
    forall key ensures Count(held, key) == |ClaimsOn(rest, key)| + (if key == slot.key then 1 else 0) {
      ClaimsInsert(rest, slot, key);
    }
  }

  class Holds {
    var held: map<string, nat>
    ghost var slots: set<Slot>

    /** The count of each key is the number of claims granted on it and not yet released, and no
        key with none is kept. */
    ghost predicate Valid()
      reads this, slots
    {
      Counts(held, slots) && forall slot :: slot in slots ==> slot.open
    }

    constructor ()
      ensures Valid() && slots == {}
    {
      held, slots := map[], {};
    }

    method Enter(key: string, limit: nat) returns (slot: Slot)
      requires Valid()
      modifies this
      ensures Valid() && fresh(slot) && slot.key == key
      ensures slot.open <==> |ClaimsOn(old(slots), key)| < limit
      ensures slot.open ==> slots == old(slots) + {slot}
      ensures !slot.open ==> slots == old(slots)
    {
      assert Count(held, key) == |ClaimsOn(slots, key)|;
      if Count(held, key) >= limit {
        slot := new Slot(key, false);
        return;
      }
      slot := new Slot(key, true);
      assert slot !in slots;
      CountsInsert(held, slots, slot);
      held := held[key := Count(held, key) + 1];
      slots := slots + {slot};
    }

    // The function `enter` returns; only its first call does anything.
    method Release(slot: Slot)
      requires Valid() && (slot.open ==> slot in slots)
      modifies this, slot
      ensures Valid() && !slot.open && slots == old(slots) - {slot}
    {
      if slot.open {
        CountsRemove(held, slots, slot);
        slot.open := false;
        held := held[slot.key := held[slot.key] - 1];
        if held[slot.key] == 0 {
          held := held - {slot.key};
        }
        slots := slots - {slot};
      }
    }
  }
}
