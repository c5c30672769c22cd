/** What each step of Uplink does and what it leaves alone. Only the live session commits: whatever a
    poll of an ended or superseded one carries, the hub refuses it. */
module UplinkSteps {
  import opened Envelopes
  import opened Uplink

  // The session a poll asks for in a step that goes to the database.
  ghost predicate Asks(st: State, step: Step, i: nat, session: nat) {
    && i < |st.polls|
    && match step
       case Apply(poll, _) => poll == i && st.polls[i].Arrived? && st.polls[i].request.session == session
       case ReadOutbound(poll) => poll == i && st.polls[i].Applied? && st.polls[i].session == session
       case Refresh(poll) => poll == i && st.polls[i].Read? && st.polls[i].session == session
       case _ => false
  }

  /** A poll whose session is no longer, or not yet, the live one is done, and nothing else changes. */
  lemma OtherSessionRefused(st: State, step: Step, i: nat, session: nat)
    requires Asks(st, step, i, session) && (session != st.hub.live || session == 0)
    ensures Next(st, step) == st.(polls := st.polls[i := Done])
  {
  }

  /** Over every run, an ack moves and an envelope takes effect in the live session only, and only when
      a poll of it is applied. */
  lemma OnlyLiveCommits(steps: seq<Step>, step: Step)
    ensures var st, next := Run(steps), Next(Run(steps), step);
            && |st.hub.acks| <= |next.hub.acks| && st.effects <= next.effects
            && (forall s :: 0 <= s < |st.hub.acks| && next.hub.acks[s] != st.hub.acks[s] ==> step.Apply? && 0 < s == st.hub.live)
            && (forall k :: |st.effects| <= k < |next.effects| ==> step.Apply? && 0 < next.effects[k].session == st.hub.live)
            && (next.hub.feed != st.hub.feed ==> step.Apply? && 0 < st.hub.live)
  {
    RunKeeps(steps);
    var st := Run(steps);
    if step.Apply? && step.poll < |st.polls| && st.polls[step.poll].Arrived? {
      var session := st.polls[step.poll].request.session;
      if session == st.hub.live && 0 < session < |st.hub.acks| {
        ApplyCommits(st, step.poll, step.batches);
      } else {
        assert Next(st, step) == st.(polls := st.polls[step.poll := Done]);
      }
    } else {
      assert Next(st, step).effects == st.effects;
    }
  }

  ghost predicate Came(effects: seq<Effect>, id: string) {
    exists k :: 0 <= k < |effects| && effects[k].id == id
  }

  // The batches an application stores: the usable ones it accepts that no claim stands for, once each.
  ghost predicate Stores(added: seq<string>, effects: seq<Effect>, batches: set<string>, claimed: set<string>) {
    && (forall id :: id in added <==> id in batches && id !in claimed && Came(effects, id))
    && Distinct(added)
  }

  // One id came in before the other ever did.
  ghost predicate CameBefore(effects: seq<Effect>, id: string, other: string) {
    exists k :: 0 <= k < |effects| && effects[k].id == id && !Came(effects[..k], other)
  }

  ghost predicate InOrder(added: seq<string>, effects: seq<Effect>) {
    forall i, j :: 0 <= i < j < |added| ==> CameBefore(effects, added[i], added[j])
  }

  lemma CameSnoc(effects: seq<Effect>, last: Effect, id: string)
    ensures Came(effects + [last], id) <==> Came(effects, id) || id == last.id
  {
    var all := effects + [last];
    assert all[|effects|] == last && forall k :: 0 <= k < |effects| ==> all[k] == effects[k];
  }

  lemma CameBeforeSnoc(effects: seq<Effect>, last: Effect, id: string, other: string)
    requires CameBefore(effects, id, other) || (Came(effects, id) && !Came(effects, other) && other == last.id)
    ensures CameBefore(effects + [last], id, other)
  {
    var all := effects + [last];
    var k :| 0 <= k < |effects| && effects[k].id == id && !Came(effects[..k], other);
    assert all[..k] == effects[..k] && all[k] == effects[k];
  }

  function Added(before: seq<string>, last: Effect, batches: set<string>, claimed: set<string>): seq<string> {
    if last.id in batches && last.id !in claimed && last.id !in before then before + [last.id] else before
  }

  lemma StoresSnoc(before: seq<string>, effects: seq<Effect>, last: Effect, batches: set<string>, claimed: set<string>)
    requires Stores(before, effects, batches, claimed)
    ensures Stores(Added(before, last, batches, claimed), effects + [last], batches, claimed)
  {
    var added := Added(before, last, batches, claimed);
    forall id ensures id in added <==> id in batches && id !in claimed && Came(effects + [last], id) {
      CameSnoc(effects, last, id);
    }
  }

  lemma InOrderSnoc(before: seq<string>, effects: seq<Effect>, last: Effect, batches: set<string>, claimed: set<string>)
    requires Stores(before, effects, batches, claimed) && InOrder(before, effects)
    ensures InOrder(Added(before, last, batches, claimed), effects + [last])
  {
    var added := Added(before, last, batches, claimed);
    forall i, j | 0 <= i < j < |added| ensures CameBefore(effects + [last], added[i], added[j]) {
      assert before[i] in before;
      CameBeforeSnoc(effects, last, added[i], added[j]);
    }
  }

  lemma {:induction false} IngestStores(hub: Hub, effects: seq<Effect>, batches: set<string>) returns (added: seq<string>)
    ensures Ingest(hub, effects, batches).feed == hub.feed + added
    ensures Stores(added, effects, batches, hub.claimed) && InOrder(added, effects)
    ensures Ingest(hub, effects, batches).claimed == hub.claimed + set id | id in added
  {
    if effects == [] {
      added := [];
      assert hub.feed + added == hub.feed;
    } else {
      var front, last := effects[..|effects| - 1], effects[|effects| - 1];
      var before := IngestStores(hub, front, batches);
      added := Added(before, last, batches, hub.claimed);
      StoresSnoc(before, front, last, batches, hub.claimed);
      InOrderSnoc(before, front, last, batches, hub.claimed);
      assert front + [last] == effects;
      assert hub.feed + (before + [last.id]) == (hub.feed + before) + [last.id];
    }
  }

  // What one application adds.
  ghost predicate Adds(st: State, next: State, request: Request, batch: Batch)
    requires forall k :: 0 <= k < |batch.accepted| ==> batch.accepted[k] < |request.envelopes|
  {
    && |next.effects| == |st.effects| + |batch.accepted| && st.effects <= next.effects
    && forall k :: 0 <= k < |batch.accepted| ==>
         var e := request.envelopes[batch.accepted[k]];
         next.effects[|st.effects| + k] == Effect(request.session, e.seqNo, e.id)
  }

  /** A poll of the live session is applied in one step: what its classification accepts takes effect in
      order, its ack is committed and answered, the usable batches not yet claimed are stored, and
      nothing else changes. */
  lemma ApplyCommits(st: State, i: nat, batches: set<string>)
    requires i < |st.polls| && st.polls[i].Arrived? && 0 < st.polls[i].request.session == st.hub.live < |st.hub.acks|
    ensures var request, next := st.polls[i].request, Next(st, Apply(i, batches));
            var session := request.session;
            var batch := Classify(st.hub.acks[session], SeqNos(request.envelopes));
            && Adds(st, next, request, batch)
            && next.polls == st.polls[i := Applied(session, batch.ack)]
            && next.hub.live == st.hub.live && next.hub.acks == st.hub.acks[session := batch.ack]
            && next == st.(hub := next.hub, polls := next.polls, effects := next.effects)
    ensures var next := Next(st, Apply(i, batches));
            exists added :: Stores(added, next.effects[|st.effects|..], batches, st.hub.claimed) &&
                            InOrder(added, next.effects[|st.effects|..]) &&
                            next.hub.feed == st.hub.feed + added && next.hub.claimed == st.hub.claimed + set id | id in added
  {
    var request := st.polls[i].request;
    var batch := Classify(st.hub.acks[request.session], SeqNos(request.envelopes));
    var effects := Accept(request, batch.accepted);
    var added := IngestStores(st.hub, effects, batches);
    assert Next(st, Apply(i, batches)).effects[|st.effects|..] == effects;
  }

  /** The steps of a poll that answers: it reads the higher of what it knew and what is committed, and
      answers what it read. */
  lemma PollAnswers(st: State, i: nat)
    requires i < |st.polls|
    ensures var p := st.polls[i];
            var next := Next(st, ReadOutbound(i));
            p.Applied? && 0 < p.session == st.hub.live < |st.hub.acks| ==>
              && next == st.(polls := next.polls) && |next.polls| == |st.polls|
              && (forall k :: 0 <= k < |st.polls| && k != i ==> next.polls[k] == st.polls[k])
              && next.polls[i].Read? && next.polls[i].session == p.session && next.polls[i].mark == |st.responses|
              && next.polls[i].ack in {p.ack, st.hub.acks[p.session]}
              && p.ack <= next.polls[i].ack && st.hub.acks[p.session] <= next.polls[i].ack
    ensures var p := st.polls[i];
            var next := Next(st, Refresh(i));
            p.Read? && 0 < p.session == st.hub.live < |st.hub.acks| ==>
              && next == st.(polls := next.polls) && |next.polls| == |st.polls|
              && (forall k :: 0 <= k < |st.polls| && k != i ==> next.polls[k] == st.polls[k])
              && next.polls[i].Applied? && next.polls[i].session == p.session
              && next.polls[i].ack in {p.ack, st.hub.acks[p.session]}
              && p.ack <= next.polls[i].ack && st.hub.acks[p.session] <= next.polls[i].ack
    ensures var p := st.polls[i];
            p.Read? ==> Next(st, Respond(i)) ==
                        st.(polls := st.polls[i := Done], responses := st.responses + [Response(p.session, p.ack)])
  {
  }

  lemma {:induction false} TrimKeeps(buffer: seq<Framed>, ack: nat, e: Framed)
    ensures e in Trim(buffer, ack) <==> e in buffer && e.seqNo > ack
  {
    if buffer != [] {
      TrimKeeps(buffer[1..], ack, e);
      assert buffer == [buffer[0]] + buffer[1..];
    }
  }

  /** The plugin's half: it frames at the next seq, polls with what it buffers, and drops what an ack of
      its own session covers, exactly. */
  lemma PluginSteps(st: State, id: string, envelopes: seq<Framed>, e: Framed, i: nat)
    ensures var next, n := Next(st, Frame(id)), st.plugin.outboundSeq + 1;
            id !in st.framed ==>
              next == st.(plugin := Plugin(st.plugin.session, n, st.plugin.buffer + [Framed(id, n)]), framed := st.framed + [id])
    ensures (forall f :: f in envelopes ==> f in st.plugin.buffer) ==>
              Next(st, Send(envelopes)) == st.(requests := st.requests + [Request(st.plugin.session, envelopes)])
    ensures i < |st.requests| ==> Next(st, Arrive(i)) == st.(polls := st.polls + [Arrived(st.requests[i])])
    ensures i < |st.responses| && st.responses[i].session == st.plugin.session ==>
              var next := Next(st, Receive(i));
              && next == st.(plugin := st.plugin.(buffer := next.plugin.buffer))
              && (e in next.plugin.buffer <==> e in st.plugin.buffer && e.seqNo > st.responses[i].ack)
    ensures i < |st.responses| && st.responses[i].session != st.plugin.session ==> Next(st, Receive(i)) == st
  {
    if i < |st.responses| {
      TrimKeeps(st.plugin.buffer, st.responses[i].ack, e);
    }
  }

  /** Sessions: a new one is live with nothing committed and supersedes the last, an ended one leaves
      none live, and a plugin that learns of a later one renumbers what it buffers from 1. */
  lemma SessionSteps(st: State, session: nat)
    ensures var next := Next(st, StartSession);
            && next == st.(hub := st.hub.(live := next.hub.live, acks := next.hub.acks))
            && next.hub.live == |st.hub.acks| && next.hub.acks == st.hub.acks + [0]
    ensures Next(st, EndSession) == st.(hub := st.hub.(live := 0))
    ensures st.plugin.session < session < |st.hub.acks| ==>
              var next := Next(st, Adopt(session));
              && next == st.(plugin := next.plugin, bases := next.bases)
              && next.plugin.session == session && next.plugin.outboundSeq == |st.plugin.buffer| == |next.plugin.buffer|
              && (forall k :: 0 <= k < |st.plugin.buffer| ==> next.plugin.buffer[k] == Framed(st.plugin.buffer[k].id, k + 1))
    ensures session <= st.plugin.session || |st.hub.acks| <= session ==> Next(st, Adopt(session)) == st
  {
  }

  /** A run takes its steps one after another from the start. */
  lemma RunGoesOn(steps: seq<Step>, step: Step)
    ensures Run([]) == START && Run(steps + [step]) == Next(Run(steps), step)
  {
    assert (steps + [step])[..|steps|] == steps;
  }
}
