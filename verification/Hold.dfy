/** The end of hub/poll.go's handlePoll: when a held poll is answered, what ack it reports, and
    why a plugin draining a backlog makes progress. */
module Hold {
  import opened Envelopes
  import opened Uplink
  import opened Wrappers
  import WaitLists

  const MAX_HELD_POLLS_PER_SESSION: nat := 4

  /** backlogFloor: the lowest seq a poll saying more carried. Seqs are positive by then. */
  method BacklogFloor(more: bool, envelopes: seq<Inbound>) returns (floor: int)
    requires forall e :: e in envelopes ==> e.seqNo > 0
    ensures floor == Floor(more, Seqs(envelopes))
    ensures floor == 0 <==> !more || envelopes == []
  {
    if !more {
      return 0;
    }
    floor := 0;
    for i := 0 to |envelopes|
      invariant floor == 0 <==> i == 0
      invariant floor == Floor(true, Seqs(envelopes)[..i])
    {
      assert Seqs(envelopes)[..i + 1][..i] == Seqs(envelopes)[..i];
      assert envelopes[i] in envelopes;
      if floor == 0 || envelopes[i].seqNo < floor {
        floor := envelopes[i].seqNo;
      }
    }
    assert Seqs(envelopes)[..|envelopes|] == Seqs(envelopes);
  }

  function Floor(more: bool, seqs: seq<int>): (floor: int) {
    if !more || seqs == [] then 0
    else
      var last := seqs[|seqs| - 1];
      if |seqs| == 1 then last
      else
        var before := Floor(true, seqs[..|seqs| - 1]);
        if last < before then last else before
  }

  lemma {:induction false} FloorIsLowest(seqs: seq<int>)
    requires seqs != []
    ensures Floor(true, seqs) in seqs && forall s :: s in seqs ==> Floor(true, seqs) <= s
  {
    if |seqs| > 1 {
      var last := |seqs| - 1;
      FloorIsLowest(seqs[..last]);
      assert seqs == seqs[..last] + [seqs[last]];
    }
  }

  // ---- One held poll ----

  datatype ReadResult = ReadOk(queued: seq<string>, committedAck: int) | ReadGone | ReadFailed
  datatype Refreshed = RefreshOk(inboundAck: int, revoked: bool) | RefreshGone | RefreshFailed

  /** What the database, the clock, the select and the database again answer in one round. */
  datatype Round = Round(read: ReadResult, expired: bool, cancelled: bool, refreshed: Refreshed)

  datatype Answer =
    | Delivered(envelopes: seq<string>, ack: int)
    | Nothing(ack: int)
    | SessionRejected
    | InternalError
    | Abandoned
    | StillHeld(ack: int)

  function Higher(a: int, b: int): int { if a < b then b else a }

  predicate Drains(floor: int, ack: int) { 0 < floor <= ack }

  /** The specification of the hold loop over what each round is told; StillHeld when the rounds
      run out first. */
  function Outcome(rounds: seq<Round>, ack: int, floor: int, mayHold: bool): Answer
    decreases |rounds|
  {
    if rounds == [] then StillHeld(ack)
    else
      match rounds[0].read
      case ReadGone => SessionRejected
      case ReadFailed => InternalError
      case ReadOk(queued, committed) =>
        var read := Higher(ack, committed);
        if queued != [] then Delivered(queued, read)
        else if rounds[0].expired || !mayHold || Drains(floor, read) then Nothing(read)
        else if rounds[0].cancelled then Abandoned
        else
          match rounds[0].refreshed
          case RefreshGone => SessionRejected
          case RefreshFailed => InternalError
          case RefreshOk(inboundAck, revoked) =>
            if revoked then SessionRejected else Outcome(rounds[1..], Higher(read, inboundAck), floor, mayHold)
  }

  /** holdPoll against the real registries: whatever way it ends, its registration and its hold
      slot are given back. */
  method HoldPoll(waiters: WaitLists.Waiters, holds: WaitLists.Holds, sessionID: string, serverID: string,
                  ack: int, floor: int, rounds: seq<Round>)
    returns (answer: Answer)
    requires waiters.Valid() && holds.Valid()
    modifies waiters, holds
    ensures waiters.Valid() && waiters.entries == old(waiters.entries)
    ensures holds.Valid() && holds.slots == old(holds.slots)
    ensures answer == Outcome(rounds, ack, floor, |WaitLists.ClaimsOn(old(holds.slots), sessionID)| < MAX_HELD_POLLS_PER_SESSION)
  {
    var slot := holds.Enter(sessionID, MAX_HELD_POLLS_PER_SESSION);
    answer := Hold(waiters, serverID, ack, floor, slot.open, rounds);
    holds.Release(slot);
  }

  method Hold(waiters: WaitLists.Waiters, serverID: string, ack: int, floor: int, mayHold: bool, rounds: seq<Round>)
    returns (answer: Answer)
    requires waiters.Valid()
    modifies waiters
    ensures waiters.Valid() && waiters.entries == old(waiters.entries)
    ensures answer == Outcome(rounds, ack, floor, mayHold)
  {
    var inboundAck := ack;
    for i := 0 to |rounds|
      invariant waiters.Valid() && waiters.entries == old(waiters.entries)
      invariant Outcome(rounds, ack, floor, mayHold) == Outcome(rounds[i..], inboundAck, floor, mayHold)
    {
      assert rounds[i..][0] == rounds[i] && rounds[i..][1..] == rounds[i + 1..];
      // Registered before the read, given back on every way out.
      var signal, id := waiters.Wait(serverID);
      WithoutInserted(old(waiters.entries), id, (serverID, signal));
      if !rounds[i].read.ReadOk? {
        waiters.Release(serverID, id);
        return if rounds[i].read.ReadGone? then SessionRejected else InternalError;
      }
      inboundAck := Higher(inboundAck, rounds[i].read.committedAck);
      var drain := Drains(floor, inboundAck);
      if rounds[i].read.queued != [] {
        waiters.Release(serverID, id);
        return Delivered(rounds[i].read.queued, inboundAck);
      }
      if rounds[i].expired || !mayHold || drain {
        waiters.Release(serverID, id);
        return Nothing(inboundAck);
      }
      if rounds[i].cancelled {
        waiters.Release(serverID, id);
        return Abandoned;
      }
      waiters.Release(serverID, id);
      match rounds[i].refreshed {
        case RefreshGone => return SessionRejected;
        case RefreshFailed => return InternalError;
        case RefreshOk(refreshedAck, revoked) =>
          if revoked {
            return SessionRejected;
          }
          inboundAck := Higher(inboundAck, refreshedAck);
      }
    }
    answer := StillHeld(inboundAck);
  }

  // ---- What an answer means ----

  // A round that leaves the poll held.
  predicate Holds(round: Round) {
    && round.read.ReadOk? && round.read.queued == [] && !round.expired && !round.cancelled
    && round.refreshed.RefreshOk? && !round.refreshed.revoked
  }

  // An ack at least the starting one and every one told before answering in round `k`, and equal
  // to one of them: never above what was committed, never below what was seen.
  predicate IsHighest(highest: int, ack: int, rounds: seq<Round>, k: nat)
    requires k < |rounds|
  {
    && ack <= highest
    && (forall j :: 0 <= j <= k && rounds[j].read.ReadOk? ==> rounds[j].read.committedAck <= highest)
    && (forall j :: 0 <= j < k && rounds[j].refreshed.RefreshOk? ==> rounds[j].refreshed.inboundAck <= highest)
    && (|| highest == ack
        || (exists j :: 0 <= j <= k && rounds[j].read.ReadOk? && rounds[j].read.committedAck == highest)
        || (exists j :: 0 <= j < k && rounds[j].refreshed.RefreshOk? && rounds[j].refreshed.inboundAck == highest))
  }

  // The ack known after the read of round `k`, when every read and refresh up to it was answered.
  function Known(rounds: seq<Round>, ack: int, k: nat): int
    requires k < |rounds| && rounds[k].read.ReadOk? && forall j :: 0 <= j < k ==> Holds(rounds[j])
  {
    if k == 0 then Higher(ack, rounds[0].read.committedAck)
    else
      assert Holds(rounds[0]);
      Known(rounds[1..], Higher(Higher(ack, rounds[0].read.committedAck), rounds[0].refreshed.inboundAck), k - 1)
  }

  /** It is the highest the poll was told of. */
  lemma {:induction false} KnownIsHighest(rounds: seq<Round>, ack: int, k: nat)
    requires k < |rounds| && rounds[k].read.ReadOk? && forall j :: 0 <= j < k ==> Holds(rounds[j])
    ensures IsHighest(Known(rounds, ack, k), ack, rounds, k)
  {
    if k > 0 {
      var next := Higher(Higher(ack, rounds[0].read.committedAck), rounds[0].refreshed.inboundAck);
      KnownIsHighest(rounds[1..], next, k - 1);
      HighestFromRest(rounds, ack, k, Known(rounds, ack, k));
    }
  }

  // The first `k` rounds found nothing and let the poll be held on.
  ghost predicate HeldThrough(rounds: seq<Round>, ack: int, floor: int, mayHold: bool, k: nat) {
    && k <= |rounds| && (forall j :: 0 <= j < k ==> Holds(rounds[j]))
    && (k > 0 ==> mayHold)
    && (forall j :: 0 <= j < k ==> !Drains(floor, Known(rounds, ack, j)))
  }

  // How a round that does not leave the poll held answers it, knowing an ack.
  ghost predicate Ends(round: Round, known: int, floor: int, mayHold: bool, answer: Answer) {
    match answer
    case Delivered(envelopes, ack) => envelopes != [] && ack == known && round.read.ReadOk? && round.read.queued == envelopes
    case Nothing(ack) =>
      && ack == known && round.read.ReadOk? && round.read.queued == []
      && (round.expired || !mayHold || Drains(floor, known))
    case Abandoned => FindsNothing(round, known, floor, mayHold) && round.cancelled
    case SessionRejected => round.read.ReadGone? ||
      (&& FindsNothing(round, known, floor, mayHold) && !round.cancelled
       && (round.refreshed.RefreshGone? || (round.refreshed.RefreshOk? && round.refreshed.revoked)))
    case InternalError => round.read.ReadFailed? ||
      (FindsNothing(round, known, floor, mayHold) && !round.cancelled && round.refreshed.RefreshFailed?)
    case StillHeld(_) => false
  }

  ghost predicate FindsNothing(round: Round, known: int, floor: int, mayHold: bool) {
    round.read.ReadOk? && round.read.queued == [] && !round.expired && mayHold && !Drains(floor, known)
  }

  /** A poll is answered by the first round that finds work, or fails, or at which it may not or need
      not be held any longer, each in its own way and with the highest ack it was told of; while no
      round does, it is held. */
  lemma {:induction false} AnsweredWhen(rounds: seq<Round>, ack: int, floor: int, mayHold: bool) returns (k: nat)
    ensures HeldThrough(rounds, ack, floor, mayHold, k)
    ensures k < |rounds| && rounds[k].read.ReadOk? ==>
              Ends(rounds[k], Known(rounds, ack, k), floor, mayHold, Outcome(rounds, ack, floor, mayHold))
    ensures k < |rounds| && !rounds[k].read.ReadOk? ==>
              Outcome(rounds, ack, floor, mayHold) == if rounds[k].read.ReadGone? then SessionRejected else InternalError
    ensures k == |rounds| ==>
              Outcome(rounds, ack, floor, mayHold) ==
                StillHeld(if k == 0 then ack else Higher(Known(rounds, ack, k - 1), rounds[k - 1].refreshed.inboundAck))
    decreases |rounds|
  {
    if rounds == [] || !Holds(rounds[0]) || !mayHold || Drains(floor, Higher(ack, rounds[0].read.committedAck)) {
      k := 0;
    } else {
      var next := Higher(Higher(ack, rounds[0].read.committedAck), rounds[0].refreshed.inboundAck);
      var shorter := AnsweredWhen(rounds[1..], next, floor, mayHold);
      k := shorter + 1;
      HeldOneMore(rounds, ack, floor, mayHold, shorter);
    }
  }

  lemma HeldOneMore(rounds: seq<Round>, ack: int, floor: int, mayHold: bool, shorter: nat)
    requires rounds != [] && Holds(rounds[0]) && mayHold && !Drains(floor, Higher(ack, rounds[0].read.committedAck))
    requires var next := Higher(Higher(ack, rounds[0].read.committedAck), rounds[0].refreshed.inboundAck);
             HeldThrough(rounds[1..], next, floor, mayHold, shorter)
    ensures HeldThrough(rounds, ack, floor, mayHold, shorter + 1)
  {
    var next := Higher(Higher(ack, rounds[0].read.committedAck), rounds[0].refreshed.inboundAck);
    forall j | 0 <= j < shorter + 1 ensures Holds(rounds[j]) {
      assert j > 0 ==> rounds[j] == rounds[1..][j - 1];
    }
    forall j | 0 <= j < shorter + 1 ensures !Drains(floor, Known(rounds, ack, j)) {
      assert j > 0 ==> Known(rounds, ack, j) == Known(rounds[1..], next, j - 1);
    }
  }

  // A round that does not leave the poll held ends it in one way.
  lemma EndsOneWay(round: Round, known: int, floor: int, mayHold: bool, answer: Answer, other: Answer)
    requires Ends(round, known, floor, mayHold, answer) && Ends(round, known, floor, mayHold, other)
    ensures answer == other
  {
  }

  lemma HighestFromRest(rounds: seq<Round>, ack: int, k: nat, highest: int)
    requires 0 < k < |rounds| && Holds(rounds[0]) && rounds[1..][k - 1].read.ReadOk?
    requires forall j :: 0 <= j < k - 1 ==> Holds(rounds[1..][j])
    requires var next := Higher(Higher(ack, rounds[0].read.committedAck), rounds[0].refreshed.inboundAck);
             IsHighest(highest, next, rounds[1..], k - 1)
    ensures rounds[k].read.ReadOk? && (forall j :: 0 <= j < k ==> Holds(rounds[j])) && IsHighest(highest, ack, rounds, k)
  {
    var rest := rounds[1..];
    assert forall j :: 1 <= j <= k ==> rounds[j] == rest[j - 1];
    assert rounds[0].read.committedAck <= highest && rounds[0].refreshed.inboundAck <= highest;
    if j :| 0 <= j <= k - 1 && rest[j].read.ReadOk? && rest[j].read.committedAck == highest {
      assert rounds[j + 1].read.committedAck == highest;
    } else if j :| 0 <= j < k - 1 && rest[j].refreshed.RefreshOk? && rest[j].refreshed.inboundAck == highest {
      assert rounds[j + 1].refreshed.inboundAck == highest;
    }
  }

  // ---- Draining a backlog ----

  /** A poll saying more whose batch was just applied is answered at once exactly when the batch
      reached down to the ack: with a gap below it, or empty, it is held like any other. */
  lemma DrainsUnlessGapped(ack: int, seqs: seq<int>, more: bool)
    requires 0 <= ack && forall s :: s in seqs ==> s > 0
    ensures Drains(Floor(more, seqs), Classify(ack, seqs).ack) <==> more && exists s :: s in seqs && s <= ack + 1
  {
    if more && seqs != [] {
      FloorIsLowest(seqs);
      var floor := Floor(true, seqs);
      if floor == ack + 1 {
        NextAdvances(ack, seqs);
      } else if floor > ack + 1 {
        NothingNextStays(ack, seqs);
      }
    }
  }

  /** Progress: a plugin that sends from its lowest unacked envelope and is released by the drain
      holds strictly less once it has trimmed by that answer, so draining ends. */
  lemma DrainShrinks(buffer: seq<Framed>, first: int, count: nat, ack: nat)
    requires Counts(buffer, first) && 0 < first && 0 < count <= |buffer|
    requires Drains(Floor(true, SeqNos(buffer[..count])), ack)
    ensures |Trim(buffer, ack)| < |buffer|
  {
    var seqs := SeqNos(buffer[..count]);
    FloorIsLowest(seqs);
    assert buffer[0].seqNo == first;
    var dropped := TrimDrops(buffer, first, ack);
    var floor := Floor(true, seqs);
    var k :| 0 <= k < |seqs| && seqs[k] == floor;
    assert seqs[k] == buffer[k].seqNo;
  }
}
