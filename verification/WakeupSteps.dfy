/** What each step of Wakeups does: what a read finds, which signals a notification raises, when a
    select may end, and where each leaves its poll. */
module WakeupSteps {
  import opened Wakeups

  // A poll has moved, and nothing else has.
  ghost predicate Moves(st: State, next: State, i: nat, poll: Poll) {
    i < |st.polls| && next == st.(polls := st.polls[i := poll])
  }

  /** A read finds work exactly when something is queued for its server; a failed one leaves. */
  lemma ReadFinds(st: State, i: nat)
    requires i < |st.polls| && st.polls[i].Registered?
    ensures var poll := st.polls[i];
            if exists item :: item in st.queue && item in st.queued && st.queued[item] == poll.server
            then Moves(st, Next(st, Read(i)), i, Found(poll.server, poll.id))
            else Moves(st, Next(st, Read(i)), i, Empty(poll.server, poll.id))
    ensures Moves(st, Next(st, FailRead(i)), i, Leaving(st.polls[i].server, st.polls[i].id))
  {
  }

  /** What is committed is queued for its server until it is removed, and announced only by a
      notification, which raises the signals of that server's registrations and no others. */
  lemma QueueSteps(st: State, item: string, server: string)
    ensures Next(st, Commit(item, server)) ==
              if item in st.queued then st else st.(queued := st.queued[item := server], queue := st.queue + {item})
    ensures Next(st, Remove(item)) == st.(queue := st.queue - {item})
    ensures var next := Next(st, Notify(item));
            if item in st.queued then
              && next == st.(table := next.table, announced := st.announced + {item}) && next.table.Keys == st.table.Keys
              && forall id :: id in st.table ==>
                   next.table[id] == Entry(st.table[id].server, st.table[id].raised || st.table[id].server == st.queued[item])
            else next == st
  {
  }

  /** A poll registers under an id never used with its signal down; a select ends when the signal is
      raised, taking it, or by the timer; and a poll that leaves gives its registration back, to go
      round again only if it found nothing. */
  lemma LoopSteps(st: State, i: nat, again: bool)
    requires i < |st.polls|
    ensures st.polls[i].Idle? ==>
              var server := st.polls[i].server;
              Next(st, Register(i)) ==
                st.(nextID := st.nextID + 1, table := st.table[st.nextID + 1 := Entry(server, false)],
                    polls := st.polls[i := Registered(server, st.nextID + 1)])
    ensures st.polls[i].Empty? ==>
              && Moves(st, Next(st, Park(i)), i, Parked(st.polls[i].server, st.polls[i].id))
              && Moves(st, Next(st, GiveUp(i)), i, Leaving(st.polls[i].server, st.polls[i].id))
    ensures st.polls[i].Parked? ==>
              var poll := st.polls[i];
              && Moves(st, Next(st, Tick(i)), i, Leaving(poll.server, poll.id))
              && (if poll.id in st.table && st.table[poll.id].raised then
                    Next(st, Wake(i)) == st.(table := st.table[poll.id := Entry(poll.server, false)],
                                             polls := st.polls[i := Leaving(poll.server, poll.id)])
                  else Next(st, Wake(i)) == st)
    ensures st.polls[i].Found? || st.polls[i].Leaving? ==>
              var poll, next := st.polls[i], Next(st, Release(i, again));
              && next == st.(table := next.table,
                             polls := st.polls[i := if again && poll.Leaving? then Idle(poll.server) else Returned(poll.server)])
              && (forall id :: id in next.table <==> id in st.table && id != poll.id)
              && (forall id :: id in next.table ==> next.table[id] == st.table[id])
  {
  }
}
