/** Why a held poll misses no wake-up: every interleaving of queueing, notifying, registering,
    reading and selecting, over hub/waiters.go and the hold loop of hub/poll.go. */
module Wakeups {
  import opened Wrappers
  import WaitLists

  // A registration: the server it waits on, and whether its signal was raised and not yet taken.
  datatype Entry = Entry(server: string, raised: bool)

  // Where a poll is in its hold loop; `id` is its registration.
  datatype Poll =
    | Idle(server: string)              // about to register
    | Registered(server: string, id: nat)
    | Empty(server: string, id: nat)    // its read found nothing
    | Parked(server: string, id: nat)   // in its select
    | Found(server: string, id: nat)    // its read found work
    | Leaving(server: string, id: nat)  // out of its select, done waiting, or failed to read
    | Returned(server: string)

  /** `queued` is every item ever committed with the server it is for, `queue` those still there,
      `announced` those whose committer has called notify. */
  datatype State = State(
    nextID: nat,
    table: map<nat, Entry>,
    polls: seq<Poll>,
    queued: map<string, string>,
    queue: set<string>,
    announced: set<string>)

  const START := State(0, map[], [], map[], {}, {})

  datatype Step =
    | Arrive(server: string)
    | Commit(item: string, server: string)
    | Notify(item: string)                 // by whoever committed it, after the commit
    | Remove(item: string)                 // acked or retired
    | Register(poll: nat)
    | Read(poll: nat)
    | Park(poll: nat)
    | GiveUp(poll: nat)                    // deadline, hold ceiling or drain
    | FailRead(poll: nat)                  // the read finds the session gone, or fails
    | Wake(poll: nat)                      // the select takes the signal
    | Tick(poll: nat)                      // the select takes the timer or the cancellation
    | Release(poll: nat, again: bool)      // `again` when the session is still live

  // Whether a poll is registered.
  predicate Holding(poll: Poll) {
    !poll.Idle? && !poll.Returned?
  }

  // What notify does to the registrations.
  function Raised(table: map<nat, Entry>, server: string): map<nat, Entry> {
    map id | id in table :: if table[id].server == server then Entry(server, true) else table[id]
  }

  ghost predicate HasWork(st: State, server: string) {
    exists item :: item in st.queue && item in st.queued && st.queued[item] == server
  }

  ghost function Moved(st: State, i: nat, poll: Poll): State
    requires i < |st.polls|
  {
    st.(polls := st.polls[i := poll])
  }

  ghost function Next(st: State, step: Step): State {
    match step
    case Arrive(server) => st.(polls := st.polls + [Idle(server)])
    case Commit(item, server) =>
      if item in st.queued then st
      else st.(queued := st.queued[item := server], queue := st.queue + {item})
    case Notify(item) =>
      if item !in st.queued then st
      else st.(table := Raised(st.table, st.queued[item]), announced := st.announced + {item})
    case Remove(item) => st.(queue := st.queue - {item})
    case Register(i) =>
      if i < |st.polls| && st.polls[i].Idle? then
        var id, server := st.nextID + 1, st.polls[i].server;
        Moved(st.(nextID := id, table := st.table[id := Entry(server, false)]), i, Registered(server, id))
      else st
    case Read(i) =>
      if i < |st.polls| && st.polls[i].Registered? then
        var poll := st.polls[i];
        Moved(st, i, if HasWork(st, poll.server) then Found(poll.server, poll.id) else Empty(poll.server, poll.id))
      else st
    case Park(i) =>
      if i < |st.polls| && st.polls[i].Empty? then Moved(st, i, Parked(st.polls[i].server, st.polls[i].id)) else st
    case GiveUp(i) =>
      if i < |st.polls| && st.polls[i].Empty? then Moved(st, i, Leaving(st.polls[i].server, st.polls[i].id)) else st
    case FailRead(i) =>
      if i < |st.polls| && st.polls[i].Registered? then Moved(st, i, Leaving(st.polls[i].server, st.polls[i].id)) else st
    case Wake(i) =>
      if i < |st.polls| && st.polls[i].Parked? && st.polls[i].id in st.table && st.table[st.polls[i].id].raised then
        var poll := st.polls[i];
        Moved(st.(table := st.table[poll.id := Entry(poll.server, false)]), i, Leaving(poll.server, poll.id))
      else st
    case Tick(i) =>
      if i < |st.polls| && st.polls[i].Parked? then Moved(st, i, Leaving(st.polls[i].server, st.polls[i].id)) else st
    case Release(i, again) =>
      if i < |st.polls| && (st.polls[i].Found? || st.polls[i].Leaving?) then
        var poll := st.polls[i];
        Moved(st.(table := Without(st.table, poll.id)), i,
              if again && poll.Leaving? then Idle(poll.server) else Returned(poll.server))
      else st
  }

  ghost function Run(steps: seq<Step>): State {
    if steps == [] then START else Next(Run(steps[..|steps| - 1]), steps[|steps| - 1])
  }

  // ---- The invariant ----

  // A poll past its read, whose signal is down, has no announced work behind its back.
  ghost predicate NothingMissed(st: State, poll: Poll) {
    (poll.Empty? || poll.Parked?) && poll.id in st.table && !st.table[poll.id].raised ==>
      forall item :: item in st.queue && item in st.queued && st.queued[item] == poll.server ==> item !in st.announced
  }

  ghost predicate PollInv(st: State, poll: Poll) {
    && (Holding(poll) ==> poll.id in st.table && st.table[poll.id].server == poll.server)
    && NothingMissed(st, poll)
  }

  ghost predicate OwnIds(polls: seq<Poll>) {
    forall i, j :: 0 <= i < j < |polls| && Holding(polls[i]) && Holding(polls[j]) ==> polls[i].id != polls[j].id
  }

  ghost predicate Owned(polls: seq<Poll>, id: nat) {
    exists i :: 0 <= i < |polls| && Holding(polls[i]) && polls[i].id == id
  }

  ghost predicate Inv(st: State) {
    && (forall i :: 0 <= i < |st.polls| ==> PollInv(st, st.polls[i]))
    && OwnIds(st.polls)
    && (forall id :: id in st.table ==> id <= st.nextID && Owned(st.polls, id))
    && (forall item :: item in st.announced ==> item in st.queued)
  }

  lemma OwnedMoves(polls: seq<Poll>, i: nat, poll: Poll, id: nat)
    requires i < |polls| && Owned(polls, id)
    requires Holding(polls[i]) && polls[i].id == id ==> Holding(poll) && poll.id == id
    ensures Owned(polls[i := poll], id)
  {
    var k :| 0 <= k < |polls| && Holding(polls[k]) && polls[k].id == id;
    assert polls[i := poll][k] == if k == i then poll else polls[k];
  }

  // A step of one poll that keeps its registration.
  lemma MoveKeeps(st: State, i: nat, poll: Poll)
    requires Inv(st) && i < |st.polls| && Holding(st.polls[i])
    requires Holding(poll) && poll.id == st.polls[i].id && poll.server == st.polls[i].server
    requires NothingMissed(st, poll)
    ensures Inv(Moved(st, i, poll))
  {
    assert PollInv(st, st.polls[i]);
    forall id | id in st.table ensures Owned(st.polls[i := poll], id) {
      OwnedMoves(st.polls, i, poll, id);
    }
    var next := Moved(st, i, poll);
    forall k | 0 <= k < |next.polls| ensures PollInv(next, next.polls[k]) {
      assert PollInv(st, st.polls[k]);
    }
  }

  lemma ArriveKeeps(st: State, server: string)
    requires Inv(st)
    ensures Inv(Next(st, Arrive(server)))
  {
    var next := Next(st, Arrive(server));
    forall id | id in st.table ensures Owned(next.polls, id) {
      var k :| 0 <= k < |st.polls| && Holding(st.polls[k]) && st.polls[k].id == id;
      assert next.polls[k] == st.polls[k];
    }
    forall k | 0 <= k < |next.polls| ensures PollInv(next, next.polls[k]) {
      assert k < |st.polls| ==> PollInv(st, st.polls[k]);
    }
  }

  lemma QueueKeeps(st: State, step: Step)
    requires Inv(st) && (step.Commit? || step.Notify? || step.Remove?)
    ensures Inv(Next(st, step))
  {
    var next := Next(st, step);
    forall k | 0 <= k < |st.polls| ensures PollInv(next, st.polls[k]) {
      assert PollInv(st, st.polls[k]);
    }
  }

  lemma RegisterKeeps(st: State, i: nat)
    requires Inv(st)
    ensures Inv(Next(st, Register(i)))
  {
    if i < |st.polls| && st.polls[i].Idle? {
      var next := Next(st, Register(i));
      forall id | id in next.table ensures Owned(next.polls, id) {
        if id in st.table {
          OwnedMoves(st.polls, i, next.polls[i], id);
        } else {
          assert Holding(next.polls[i]) && next.polls[i].id == id;
        }
      }
      forall k | 0 <= k < |next.polls| ensures PollInv(next, next.polls[k]) {
        assert PollInv(st, st.polls[k]);
      }
    }
  }

  lemma ReadKeeps(st: State, i: nat)
    requires Inv(st)
    ensures Inv(Next(st, Read(i)))
  {
    if i < |st.polls| && st.polls[i].Registered? {
      MoveKeeps(st, i, Next(st, Read(i)).polls[i]);
    }
  }

  lemma WakeKeeps(st: State, i: nat)
    requires Inv(st)
    ensures Inv(Next(st, Wake(i)))
  {
    var next := Next(st, Wake(i));
    if next != st {
      var poll := st.polls[i];
      assert PollInv(st, poll);
      forall id | id in next.table ensures Owned(next.polls, id) {
        OwnedMoves(st.polls, i, next.polls[i], id);
      }
      forall k | 0 <= k < |next.polls| ensures PollInv(next, next.polls[k]) {
        assert PollInv(st, st.polls[k]);
        assert k != i && Holding(st.polls[k]) ==> st.polls[k].id != poll.id;
      }
    }
  }

  lemma ReleaseKeeps(st: State, i: nat, again: bool)
    requires Inv(st)
    ensures Inv(Next(st, Release(i, again)))
  {
    if i < |st.polls| && (st.polls[i].Found? || st.polls[i].Leaving?) {
      var next := Next(st, Release(i, again));
      var poll := st.polls[i];
      forall id | id in next.table ensures Owned(next.polls, id) {
        OwnedMoves(st.polls, i, next.polls[i], id);
      }
      forall k | 0 <= k < |next.polls| ensures PollInv(next, next.polls[k]) {
        assert PollInv(st, st.polls[k]);
        assert k != i && Holding(st.polls[k]) ==> st.polls[k].id != poll.id;
      }
    }
  }

  lemma NextKeeps(st: State, step: Step)
    requires Inv(st)
    ensures Inv(Next(st, step))
  {
    match step
    case Arrive(server) => ArriveKeeps(st, server);
    case Register(i) => RegisterKeeps(st, i);
    case Read(i) => ReadKeeps(st, i);
    case Park(i) => if i < |st.polls| && st.polls[i].Empty? {
      assert PollInv(st, st.polls[i]);
      MoveKeeps(st, i, Parked(st.polls[i].server, st.polls[i].id));
    }
    case GiveUp(i) => if i < |st.polls| && st.polls[i].Empty? { MoveKeeps(st, i, Leaving(st.polls[i].server, st.polls[i].id)); }
    case FailRead(i) =>
      if i < |st.polls| && st.polls[i].Registered? {
        MoveKeeps(st, i, Leaving(st.polls[i].server, st.polls[i].id));
      }
    case Tick(i) => if i < |st.polls| && st.polls[i].Parked? { MoveKeeps(st, i, Leaving(st.polls[i].server, st.polls[i].id)); }
    case Wake(i) => WakeKeeps(st, i);
    case Release(i, again) => ReleaseKeeps(st, i, again);
    case _ => QueueKeeps(st, step);
  }

  lemma {:induction false} RunKeeps(steps: seq<Step>)
    ensures Inv(Run(steps))
  {
    if steps != [] {
      RunKeeps(steps[..|steps| - 1]);
      NextKeeps(Run(steps[..|steps| - 1]), steps[|steps| - 1]);
    }
  }

  // ---- The guarantees, over every interleaving ----

  /** No lost wake-up: a poll parked with its signal down has no work waiting for its server whose
      committer has already called notify. */
  lemma NoLostWakeup(steps: seq<Step>, i: nat, item: string)
    requires var st := Run(steps);
             && i < |st.polls| && st.polls[i].Parked?
             && item in st.queue && item in st.queued && st.queued[item] == st.polls[i].server
             && item in st.announced
    ensures var st := Run(steps);
            st.polls[i].id in st.table && st.table[st.polls[i].id].raised
  {
    RunKeeps(steps);
    assert PollInv(Run(steps), Run(steps).polls[i]);
  }

  /** And the signal is enough: such a poll can leave its select, release, register and read, and
      then it finds work. */
  lemma RaisedSignalDelivers(steps: seq<Step>, i: nat, item: string)
    requires var st := Run(steps);
             && i < |st.polls| && st.polls[i].Parked?
             && item in st.queue && item in st.queued && st.queued[item] == st.polls[i].server
             && item in st.announced
    ensures var after := Run(steps + [Wake(i), Release(i, true), Register(i), Read(i)]);
            i < |after.polls| && after.polls[i].Found?
  {
    NoLostWakeup(steps, i, item);
    var st := Run(steps);
    var woken := Next(st, Wake(i));
    var idle := Next(woken, Release(i, true));
    var registered := Next(idle, Register(i));
    assert HasWork(registered, st.polls[i].server);
    assert Next(registered, Read(i)).polls[i].Found?;
    FourMore(steps, Wake(i), Release(i, true), Register(i), Read(i));
  }

  lemma RunSnoc(steps: seq<Step>, step: Step)
    ensures Run(steps + [step]) == Next(Run(steps), step)
  {
    assert (steps + [step])[..|steps|] == steps;
  }

  lemma FourMore(steps: seq<Step>, a: Step, b: Step, c: Step, d: Step)
    ensures Run(steps + [a, b, c, d]) == Next(Next(Next(Next(Run(steps), a), b), c), d)
  {
    TwoMore(steps, a, b);
    TwoMore(steps + [a, b], c, d);
    assert steps + [a, b] + [c, d] == steps + [a, b, c, d];
  }

  lemma TwoMore(steps: seq<Step>, a: Step, b: Step)
    ensures Run(steps + [a, b]) == Next(Next(Run(steps), a), b)
  {
    RunSnoc(steps, a);
    RunSnoc(steps + [a], b);
    assert steps + [a] + [b] == steps + [a, b];
  }

  /** Nothing leaks: a registration belongs to a poll still in its loop, so once every poll has
      returned the registry is empty. */
  lemma RegistrationsReleased(steps: seq<Step>)
    ensures var st := Run(steps);
            && (forall id :: id in st.table ==> Owned(st.polls, id))
            && ((forall i :: 0 <= i < |st.polls| ==> st.polls[i].Returned?) ==> st.table == map[])
  {
    RunKeeps(steps);
    var st := Run(steps);
    if forall i :: 0 <= i < |st.polls| ==> st.polls[i].Returned? {
      forall id ensures id !in st.table {
        assert id in st.table ==> Owned(st.polls, id);
      }
    }
  }

  // ---- The registry behind the table ----

  /** The table of a registry's entries: what this system's steps see of WaitLists.Waiters. */
  ghost function TableOf(entries: map<nat, WaitLists.Registration>): map<nat, Entry>
    reads set id | id in entries :: entries[id].1
  {
    map id | id in entries :: Entry(entries[id].0, entries[id].1.raised)
  }

  lemma TableInsert(entries: map<nat, WaitLists.Registration>, id: nat, server: string, signal: WaitLists.Signal)
    requires id !in entries
    ensures TableOf(entries[id := (server, signal)]) == TableOf(entries)[id := Entry(server, signal.raised)]
  {
  }

  lemma TableRemove(entries: map<nat, WaitLists.Registration>, id: nat)
    ensures TableOf(Without(entries, id)) == Without(TableOf(entries), id)
  {
  }

  /** A registration is the Register step's. */
  method RegisterIn(waiters: WaitLists.Waiters, server: string) returns (id: nat)
    requires waiters.Valid()
    modifies waiters
    ensures waiters.Valid() && id == waiters.nextID == old(waiters.nextID) + 1
    ensures TableOf(waiters.entries) == old(TableOf(waiters.entries))[id := Entry(server, false)]
  {
    ghost var before := waiters.entries;
    var signal;
    signal, id := waiters.Wait(server);
    TableInsert(before, id, server, signal);
  }

  /** A release is the Release step's. */
  method ReleaseIn(waiters: WaitLists.Waiters, server: string, id: nat)
    requires waiters.Valid() && id in waiters.entries && waiters.entries[id].0 == server
    modifies waiters
    ensures waiters.Valid() && TableOf(waiters.entries) == Without(old(TableOf(waiters.entries)), id)
  {
    TableRemove(waiters.entries, id);
    waiters.Release(server, id);
  }

  /** A notification is the Notify step's. */
  method NotifyIn(waiters: WaitLists.Waiters, server: string)
    requires waiters.Valid()
    modifies waiters.Signals()
    ensures waiters.Valid() && TableOf(waiters.entries) == Raised(old(TableOf(waiters.entries)), server)
  {
    waiters.Notify(server);
    forall id | id in waiters.entries ensures TableOf(waiters.entries)[id] == Raised(old(TableOf(waiters.entries)), server)[id] {
    }
  }
}
