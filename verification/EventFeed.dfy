/** Ingest and pruning of events, hub/store/events.go: the marker that keeps a batch from being
    stored twice is swept one day, and no reader may ever see two copies of an event. Times are the
    ones each statement read, in whatever order the statements then run. */
module EventFeed {
  datatype Batch = Batch(server: string, envelope: string)

  // One stored event: the batch it came in, its place in it, and when its retention ends.
  datatype Event = Event(batch: Batch, position: nat, expiresAt: int)

  /** The tables: event rows under ids never used twice, and the marker of each batch. */
  datatype State = State(rows: map<nat, Event>, nextRow: nat, markers: map<Batch, int>)

  const START := State(map[], 0, map[])

  datatype Step =
    | Ingest(batch: Batch, retentions: seq<int>, at: int)  // a batch of events, stamped `at`
    | PruneEvents(gone: set<nat>, now: int)                // deletes some rows past their retention
    | SweepMarkers(swept: set<Batch>, now: int)            // and some markers, in a later statement

  // The longest retention of a batch, and no less than none.
  function Horizon(retentions: seq<int>): (h: int)
    ensures 0 <= h && (h == 0 || h in retentions) && forall i :: 0 <= i < |retentions| ==> retentions[i] <= h
  {
    if retentions == [] then 0
    else
      var before := Horizon(retentions[..|retentions| - 1]);
      if before < retentions[|retentions| - 1] then retentions[|retentions| - 1] else before
  }

  /** The loop insertEventBatches finds a batch's horizon with. */
  method LongestRetention(retentions: seq<int>) returns (horizon: int)
    ensures horizon == Horizon(retentions)
  {
    horizon := 0;
    for i := 0 to |retentions|
      invariant horizon == Horizon(retentions[..i])
    {
      assert retentions[..i + 1][..i] == retentions[..i];
      if horizon < retentions[i] {
        horizon := retentions[i];
      }
    }
    assert retentions[..|retentions|] == retentions;
  }

  // An ingest stores its events: there are some, and no marker stands.
  predicate Stores(st: State, step: Step) {
    step.Ingest? && step.retentions != [] && step.batch !in st.markers
  }

  predicate Expired(st: State, gone: set<nat>, now: int) {
    forall id :: id in gone ==> id in st.rows && st.rows[id].expiresAt <= now
  }

  // A marker is swept once it has expired and its server has no expired event standing.
  predicate Sweepable(st: State, batch: Batch, now: int) {
    && batch in st.markers && st.markers[batch] <= now
    && forall id :: id in st.rows && st.rows[id].batch.server == batch.server ==> st.rows[id].expiresAt > now
  }

  function NewRow(batch: Batch, retentions: seq<int>, at: int, first: nat, id: nat): Event
    requires first <= id < first + |retentions|
  {
    Event(batch, id - first, at + retentions[id - first])
  }

  function NewRows(batch: Batch, retentions: seq<int>, at: int, first: nat): (rows: map<nat, Event>) {
    map id | first <= id < first + |retentions| :: NewRow(batch, retentions, at, first, id)
  }

  function Next(st: State, step: Step): State {
    match step
    case Ingest(batch, retentions, at) =>
      if Stores(st, step) then
        State(st.rows + NewRows(batch, retentions, at, st.nextRow), st.nextRow + |retentions|,
              st.markers[batch := at + Horizon(retentions)])
      else st
    case PruneEvents(gone, now) => if Expired(st, gone, now) then st.(rows := st.rows - gone) else st
    case SweepMarkers(swept, now) =>
      if forall batch :: batch in swept ==> Sweepable(st, batch, now) then st.(markers := st.markers - swept) else st
  }

  function Run(steps: seq<Step>): State {
    if steps == [] then START else Next(Run(steps[..|steps| - 1]), steps[|steps| - 1])
  }

  // ---- The invariant ----

  // A row is guarded by its batch's marker for as long as it may be read.
  ghost predicate Guarded(row: Event, markers: map<Batch, int>) {
    row.batch in markers && row.expiresAt <= markers[row.batch]
  }

  ghost predicate SameEvent(a: Event, b: Event) {
    a.batch == b.batch && a.position == b.position
  }

  ghost predicate Inv(st: State) {
    && (forall id :: id in st.rows ==> id < st.nextRow && Guarded(st.rows[id], st.markers))
    && (forall id, other :: id in st.rows && other in st.rows && SameEvent(st.rows[id], st.rows[other]) ==> id == other)
  }

  lemma IngestKeeps(st: State, batch: Batch, retentions: seq<int>, at: int)
    requires Inv(st)
    ensures Inv(Next(st, Ingest(batch, retentions, at)))
  {
    if retentions != [] && batch !in st.markers {
      var next := Next(st, Ingest(batch, retentions, at));
      forall id | id in next.rows ensures id < next.nextRow && Guarded(next.rows[id], next.markers) {
        assert id in st.rows ==> Guarded(st.rows[id], st.markers);
      }
      forall id, other | id in next.rows && other in next.rows && SameEvent(next.rows[id], next.rows[other])
        ensures id == other
      {
        assert id in st.rows ==> st.rows[id].batch != batch;
        assert other in st.rows ==> st.rows[other].batch != batch;
      }
    }
  }

  // A marker that may be swept has nothing left to guard.
  lemma SweptGuardsNothing(st: State, batch: Batch, now: int)
    requires Inv(st) && Sweepable(st, batch, now)
    ensures forall id :: id in st.rows ==> st.rows[id].batch != batch
  {
    forall id | id in st.rows ensures st.rows[id].batch != batch {
      assert Guarded(st.rows[id], st.markers);
    }
  }

  lemma SweepKeeps(st: State, swept: set<Batch>, now: int)
    requires Inv(st)
    ensures Inv(Next(st, SweepMarkers(swept, now)))
  {
    if forall batch :: batch in swept ==> Sweepable(st, batch, now) {
      forall id | id in st.rows ensures Guarded(st.rows[id], st.markers - swept) {
        assert Guarded(st.rows[id], st.markers);
        if st.rows[id].batch in swept {
          SweptGuardsNothing(st, st.rows[id].batch, now);
        }
      }
    }
  }

  lemma {:induction false} RunKeeps(steps: seq<Step>)
    ensures Inv(Run(steps))
  {
    if steps != [] {
      var before := Run(steps[..|steps| - 1]);
      RunKeeps(steps[..|steps| - 1]);
      match steps[|steps| - 1]
      case Ingest(batch, retentions, at) => IngestKeeps(before, batch, retentions, at);
      case PruneEvents(gone, now) =>
      case SweepMarkers(swept, now) => SweepKeeps(before, swept, now);
    }
  }

  // ---- What each step does ----

  // The rows an ingest leaves: those there were, and one for each event, under the ids that follow.
  ghost predicate Adds(before: map<nat, Event>, after: map<nat, Event>, batch: Batch, retentions: seq<int>, at: int, first: nat) {
    && (forall id :: id in after <==> id in before || first <= id < first + |retentions|)
    && (forall id :: id in before ==> id < first && after[id] == before[id])
    && (forall id :: first <= id < first + |retentions| ==> after[id] == Event(batch, id - first, at + retentions[id - first]))
  }

  ghost predicate IsLongest(retentions: seq<int>, longest: int) {
    0 <= longest && (longest == 0 || longest in retentions) && forall i :: 0 <= i < |retentions| ==> retentions[i] <= longest
  }

  /** An ingest of a batch that no marker stands for stores each of its events, to be kept for its
      own retention, beside all there were, and marks the batch for the longest of them. */
  lemma IngestAdds(steps: seq<Step>, batch: Batch, retentions: seq<int>, at: int, longest: int)
    requires retentions != [] && batch !in Run(steps).markers && IsLongest(retentions, longest)
    ensures var st, next := Run(steps), Next(Run(steps), Ingest(batch, retentions, at));
            && Adds(st.rows, next.rows, batch, retentions, at, st.nextRow)
            && next.nextRow == st.nextRow + |retentions|
            && next.markers == st.markers[batch := at + longest]
  {
    RunKeeps(steps);
    RowsAdded(Run(steps).rows, batch, retentions, at, Run(steps).nextRow);
    LongestIs(retentions, longest);
  }

  lemma LongestIs(retentions: seq<int>, longest: int)
    requires IsLongest(retentions, longest)
    ensures Horizon(retentions) == longest
  {
  }

  lemma RowsAdded(rows: map<nat, Event>, batch: Batch, retentions: seq<int>, at: int, first: nat)
    requires forall id :: id in rows ==> id < first
    ensures Adds(rows, rows + NewRows(batch, retentions, at, first), batch, retentions, at, first)
  {
  }

  /** A batch still marked, or with no events, is left alone. */
  lemma IngestIgnores(st: State, batch: Batch, retentions: seq<int>, at: int)
    requires retentions == [] || batch in st.markers
    ensures Next(st, Ingest(batch, retentions, at)) == st
  {
  }

  /** Pruning deletes the rows it names, all of them past their retention, and no other; sweeping the
      markers it names, each expired and with no expired event of its server standing. */
  lemma PruneDeletes(st: State, gone: set<nat>, swept: set<Batch>, now: int)
    ensures var next := Next(st, PruneEvents(gone, now));
            if forall id :: id in gone ==> id in st.rows && st.rows[id].expiresAt <= now then
              && (forall id :: id in next.rows <==> id in st.rows && id !in gone)
              && (forall id :: id in next.rows ==> next.rows[id] == st.rows[id])
              && next == st.(rows := next.rows)
            else next == st
    ensures var next := Next(st, SweepMarkers(swept, now));
            if forall batch :: batch in swept ==>
                 && batch in st.markers && st.markers[batch] <= now
                 && !exists id :: id in st.rows && st.rows[id].batch.server == batch.server && st.rows[id].expiresAt <= now
            then
              && (forall batch :: batch in next.markers <==> batch in st.markers && batch !in swept)
              && (forall batch :: batch in next.markers ==> next.markers[batch] == st.markers[batch])
              && next == st.(markers := next.markers)
            else next == st
  {
    assert forall batch :: Sweepable(st, batch, now) <==>
      && batch in st.markers && st.markers[batch] <= now
      && !exists id :: id in st.rows && st.rows[id].batch.server == batch.server && st.rows[id].expiresAt <= now;
  }

  // ---- The guarantees, over every run ----

  /** However a batch is retransmitted and whatever is pruned in between, the feed never holds two
      copies of one of its events. */
  lemma OneCopyStands(steps: seq<Step>, id: nat, other: nat)
    requires id in Run(steps).rows && other in Run(steps).rows && SameEvent(Run(steps).rows[id], Run(steps).rows[other])
    ensures id == other
  {
    RunKeeps(steps);
  }

  /** Over every run a stored event stays as it was stored until a prune deletes it, and no prune does
      before its retention ends. */
  lemma KeptUntilExpired(steps: seq<Step>, step: Step, id: nat)
    requires id in Run(steps).rows
    ensures var st, next := Run(steps), Next(Run(steps), step);
            if id in next.rows then next.rows[id] == st.rows[id]
            else step.PruneEvents? && id in step.gone && st.rows[id].expiresAt <= step.now
  {
    RunKeeps(steps);
  }

  /** While one event of a batch stands, expired or not, another ingest of the batch stores nothing. */
  lemma StandingBatchIsNotStored(steps: seq<Step>, id: nat, retentions: seq<int>, at: int)
    requires id in Run(steps).rows
    ensures Next(Run(steps), Ingest(Run(steps).rows[id].batch, retentions, at)) == Run(steps)
  {
    RunKeeps(steps);
    assert Guarded(Run(steps).rows[id], Run(steps).markers);
  }

  // A row of the batch that was not there before.
  ghost predicate Joins(before: State, after: State, id: nat, batch: Batch) {
    id !in before.rows && id in after.rows && after.rows[id].batch == batch
  }

  ghost predicate SomeJoins(before: State, after: State, batch: Batch) {
    exists id :: Joins(before, after, id, batch)
  }

  // The step at `i` stores events of a batch.
  ghost predicate StoredAt(steps: seq<Step>, i: nat, batch: Batch)
    requires i < |steps|
  {
    SomeJoins(Run(steps[..i]), Run(steps[..i + 1]), batch)
  }

  // The step at `i` claims the batch's marker.
  predicate ClaimsAt(steps: seq<Step>, i: nat, batch: Batch)
    requires i < |steps|
  {
    Stores(Run(steps[..i]), steps[i]) && steps[i].batch == batch
  }

  lemma StoredAtIff(steps: seq<Step>, i: nat, batch: Batch)
    requires i < |steps|
    ensures StoredAt(steps, i, batch) <==> ClaimsAt(steps, i, batch)
  {
    RunStep(steps, i);
    RunKeeps(steps[..i]);
    var st := Run(steps[..i]);
    if Stores(st, steps[i]) && steps[i].batch == batch {
      assert Joins(st, Next(st, steps[i]), st.nextRow, batch);
    }
  }

  // The step at `i` sweeps its marker.
  predicate SweptAt(steps: seq<Step>, i: nat, batch: Batch)
    requires i < |steps|
  {
    batch in Run(steps[..i]).markers && batch !in Run(steps[..i + 1]).markers
  }

  lemma RunStep(steps: seq<Step>, i: nat)
    requires i < |steps|
    ensures Run(steps[..i + 1]) == Next(Run(steps[..i]), steps[i])
  {
    assert steps[..i + 1][..i] == steps[..i];
  }

  /** A batch once stored is stored again by a later ingest exactly when its marker was swept since. */
  lemma StoredAgainIff(steps: seq<Step>, i: nat, j: nat, batch: Batch)
    requires i < j < |steps| && StoredAt(steps, i, batch)
    requires forall m :: i < m < j ==> !StoredAt(steps, m, batch)
    requires steps[j].Ingest? && steps[j].batch == batch && steps[j].retentions != []
    ensures StoredAt(steps, j, batch) <==> exists k :: i < k < j && SweptAt(steps, k, batch)
  {
    StoredAtIff(steps, i, batch);
    StoredAtIff(steps, j, batch);
    forall m | i < m < j ensures !ClaimsAt(steps, m, batch) {
      StoredAtIff(steps, m, batch);
    }
    ClaimedAgainIff(steps, i, j, batch);
  }

  lemma ClaimedAgainIff(steps: seq<Step>, i: nat, j: nat, batch: Batch)
    requires i < j < |steps| && ClaimsAt(steps, i, batch)
    requires forall m :: i < m < j ==> !ClaimsAt(steps, m, batch)
    requires steps[j].Ingest? && steps[j].batch == batch && steps[j].retentions != []
    ensures ClaimsAt(steps, j, batch) <==> exists k :: i < k < j && SweptAt(steps, k, batch)
  {
    RunStep(steps, i);
    if ClaimsAt(steps, j, batch) {
      var k := LastMarked(steps, i + 1, j, batch);
    } else if k :| i < k < j && SweptAt(steps, k, batch) {
      StaysUnmarked(steps, k + 1, j, batch);
    }
  }

  lemma {:induction false} StaysUnmarked(steps: seq<Step>, from: nat, j: nat, batch: Batch)
    requires from <= j < |steps| && batch !in Run(steps[..from]).markers
    requires forall m :: from <= m < j ==> !ClaimsAt(steps, m, batch)
    ensures batch !in Run(steps[..j]).markers
    decreases j - from
  {
    if from < j {
      StaysUnmarked(steps, from, j - 1, batch);
      RunStep(steps, j - 1);
      assert !ClaimsAt(steps, j - 1, batch);
    }
  }

  /** And its marker is swept only once none of its events stands any more. */
  lemma SweptStandsNowhere(steps: seq<Step>, k: nat, batch: Batch)
    requires k < |steps| && SweptAt(steps, k, batch)
    ensures steps[k].SweepMarkers? && forall id :: id in Run(steps[..k]).rows ==> Run(steps[..k]).rows[id].batch != batch
  {
    RunStep(steps, k);
    RunKeeps(steps[..k]);
    SweptGuardsNothing(Run(steps[..k]), batch, steps[k].now);
  }

  // The last step up to `j` before which the marker stood.
  lemma {:induction false} LastMarked(steps: seq<Step>, from: nat, j: nat, batch: Batch) returns (k: nat)
    requires from <= j < |steps| && batch in Run(steps[..from]).markers && batch !in Run(steps[..j]).markers
    ensures from <= k < j && SweptAt(steps, k, batch)
    decreases j - from
  {
    if batch in Run(steps[..j - 1]).markers {
      k := j - 1;
    } else {
      k := LastMarked(steps, from, j - 1, batch);
    }
  }

  const TWICE := Batch("s", "e")
  const TWICE_STEPS := [Ingest(TWICE, [1], 0), PruneEvents({0}, 1), SweepMarkers({TWICE}, 1), Ingest(TWICE, [1], 2)]

  // A run that stores a batch, prunes it, sweeps its marker and stores it again, as a new row.
  ghost predicate StoresTwice(steps: seq<Step>, batch: Batch) {
    && |steps| == 4 && StoredAt(steps, 0, batch) && StoredAt(steps, 3, batch)
    && Run(steps[..1]).rows == map[0 := Event(batch, 0, 1)] && Run(steps[..2]).rows == map[]
    && Run(steps[..3]).markers == map[] && Run(steps[..4]).rows == map[1 := Event(batch, 0, 3)]
  }

  lemma OneIngest(first: nat, at: int)
    ensures Next(State(map[], first, map[]), Ingest(TWICE, [1], at)) ==
            State(map[first := Event(TWICE, 0, at + 1)], first + 1, map[TWICE := at + 1])
  {
    assert [1][..0] == [] && Horizon([1]) == 1;
    assert NewRows(TWICE, [1], at, first) == map[first := Event(TWICE, 0, at + 1)];
  }

  lemma TwiceStates()
    ensures Run(TWICE_STEPS[..1]) == State(map[0 := Event(TWICE, 0, 1)], 1, map[TWICE := 1])
    ensures Run(TWICE_STEPS[..2]) == State(map[], 1, map[TWICE := 1])
    ensures Run(TWICE_STEPS[..3]) == State(map[], 1, map[])
    ensures Run(TWICE_STEPS[..4]) == State(map[1 := Event(TWICE, 0, 3)], 2, map[TWICE := 3])
  {
    RunStep(TWICE_STEPS, 0);
    assert TWICE_STEPS[..0] == [];
    OneIngest(0, 0);
    RunStep(TWICE_STEPS, 1);
    RunStep(TWICE_STEPS, 2);
    RunStep(TWICE_STEPS, 3);
    OneIngest(1, 2);
  }

  /** And it does happen. */
  lemma StoredTwice()
    ensures exists steps, batch :: StoresTwice(steps, batch)
  {
    TwiceStates();
    assert TWICE_STEPS[..0] == [] && Run([]) == START;
    assert Joins(START, Run(TWICE_STEPS[..1]), 0, TWICE);
    assert Joins(Run(TWICE_STEPS[..3]), Run(TWICE_STEPS[..4]), 1, TWICE);
    assert StoresTwice(TWICE_STEPS, TWICE);
  }

  /** A run takes its steps one after another from the start. */
  lemma RunGoesOn(steps: seq<Step>, step: Step)
    ensures Run([]) == START && Run(steps + [step]) == Next(Run(steps), step)
  {
    assert (steps + [step])[..|steps|] == steps;
  }
}
