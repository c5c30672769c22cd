/** Plugin to hub, over whole runs: the plugin half of conformance/hub/plugin.go, the polls of
    hub/poll.go, and the sessions of hub/store, with a network that may lose, duplicate and delay
    every request and every response. Each store call is one atomic step. */
module Uplink {
  import opened Envelopes

  // An envelope as the plugin buffers and sends it. Only `seqNo` belongs to a session.
  datatype Framed = Framed(id: string, seqNo: nat)

  datatype Plugin = Plugin(session: nat, outboundSeq: nat, buffer: seq<Framed>)

  // Sessions are numbered from 1 in the order they are started, `acks` holds the committed
  // inbound ack of each, and `live` is 0 while there is none.
  datatype Hub = Hub(live: nat, acks: seq<nat>, claimed: set<string>, feed: seq<string>)

  datatype Request = Request(session: nat, envelopes: seq<Framed>)

  datatype Response = Response(session: nat, ack: nat)

  /** One poll in flight at the hub. `mark` is how many responses had been sent when it last read
      the database. */
  datatype Poll =
    | Arrived(request: Request)
    | Applied(session: nat, ack: nat)
    | Read(session: nat, ack: nat, mark: nat)
    | Done

  // One envelope taking effect: the hub's history of acceptances, in commit order.
  datatype Effect = Effect(session: nat, seqNo: nat, id: string)

  /** `framed` is every envelope id the plugin ever framed, `bases` where in it each session's
      numbering starts, and `effects` what the hub accepted: history, read by no step. */
  datatype State = State(
    plugin: Plugin,
    hub: Hub,
    requests: seq<Request>,
    polls: seq<Poll>,
    responses: seq<Response>,
    framed: seq<string>,
    bases: map<nat, int>,
    effects: seq<Effect>)

  const START := State(Plugin(0, 0, []), Hub(0, [0], {}, []), [], [], [], [], map[0 := 0], [])

  datatype Step =
    | Frame(id: string)                      // the plugin frames a new envelope
    | Send(envelopes: seq<Framed>)           // and polls with any of what it buffers
    | Arrive(request: nat)                   // a request reaches the hub: never, once, or again
    | Apply(poll: nat, batches: set<string>) // ApplyInbound; `batches` are usable event batches
    | ReadOutbound(poll: nat)                // NextOutbound, which reads the committed ack too
    | Refresh(poll: nat)                     // SessionByToken after a wake-up
    | Respond(poll: nat)
    | Receive(response: nat)                 // a response reaches the plugin: never, once, or again
    | StartSession
    | EndSession                             // revoked or expired
    | Adopt(session: nat)                    // the plugin learns of a session it started

  // The plugin drops what an ack covers.
  function Trim(buffer: seq<Framed>, ack: nat): (kept: seq<Framed>)
    ensures |kept| <= |buffer|
  {
    if buffer == [] then []
    else (if buffer[0].seqNo <= ack then [] else [buffer[0]]) + Trim(buffer[1..], ack)
  }

  // reconnect: everything unacked is renumbered from 1, in order; ids do not change.
  function Renumbered(buffer: seq<Framed>): (renumbered: seq<Framed>)
    ensures |renumbered| == |buffer|
  {
    seq(|buffer|, k requires 0 <= k < |buffer| => Framed(buffer[k].id, k + 1))
  }

  function SeqNos(envelopes: seq<Framed>): (seqs: seq<int>)
    ensures |seqs| == |envelopes|
  {
    seq(|envelopes|, i requires 0 <= i < |envelopes| => envelopes[i].seqNo)
  }

  function Accept(request: Request, accepted: seq<nat>): (effects: seq<Effect>)
    requires forall k :: 0 <= k < |accepted| ==> accepted[k] < |request.envelopes|
    ensures |effects| == |accepted|
  {
    seq(|accepted|, k requires 0 <= k < |accepted| =>
      var e := request.envelopes[accepted[k]]; Effect(request.session, e.seqNo, e.id))
  }

  // insertEventBatches: the claim on an envelope id decides whether its events are stored.
  function Ingest(hub: Hub, effects: seq<Effect>, batches: set<string>): (after: Hub)
    ensures after.live == hub.live && after.acks == hub.acks
  {
    if effects == [] then hub
    else
      var before := Ingest(hub, effects[..|effects| - 1], batches);
      var id := effects[|effects| - 1].id;
      if id in batches && id !in before.claimed then
        before.(claimed := before.claimed + {id}, feed := before.feed + [id])
      else before
  }

  /** The loop of insertEventBatches over the batches an application accepted. */
  method InsertEventBatches(hub: Hub, effects: seq<Effect>, batches: set<string>) returns (after: Hub)
    ensures after == Ingest(hub, effects, batches)
  {
    after := hub;
    for i := 0 to |effects|
      invariant after == Ingest(hub, effects[..i], batches)
    {
      assert effects[..i + 1][..i] == effects[..i];
      var id := effects[i].id;
      if id in batches && id !in after.claimed {
        after := after.(claimed := after.claimed + {id}, feed := after.feed + [id]);
      }
    }
    assert effects[..|effects|] == effects;
  }

  function Max(a: nat, b: nat): nat { if a < b then b else a }

  // What liveSessionSeq demands of a session before any envelope operation.
  predicate Live(hub: Hub, session: nat) {
    0 < session == hub.live < |hub.acks|
  }

  function ApplyTo(st: State, poll: nat, batches: set<string>): State
    requires poll < |st.polls| && st.polls[poll].Arrived?
  {
    var request := st.polls[poll].request;
    if !Live(st.hub, request.session) then st.(polls := st.polls[poll := Done])
    else
      var batch := Classify(st.hub.acks[request.session], SeqNos(request.envelopes));
      var effects := Accept(request, batch.accepted);
      st.(hub := Ingest(st.hub, effects, batches).(acks := st.hub.acks[request.session := batch.ack]),
          polls := st.polls[poll := Applied(request.session, batch.ack)],
          effects := st.effects + effects)
  }

  function Next(st: State, step: Step): State {
    var plugin := st.plugin;
    match step
    case Frame(id) =>
      if id in st.framed then st
      else
        var n := plugin.outboundSeq + 1;
        st.(plugin := plugin.(outboundSeq := n, buffer := plugin.buffer + [Framed(id, n)]), framed := st.framed + [id])
    case Send(envelopes) =>
      if forall e :: e in envelopes ==> e in plugin.buffer then
        st.(requests := st.requests + [Request(plugin.session, envelopes)])
      else st
    case Arrive(i) => if i < |st.requests| then st.(polls := st.polls + [Arrived(st.requests[i])]) else st
    case Apply(i, batches) => if i < |st.polls| && st.polls[i].Arrived? then ApplyTo(st, i, batches) else st
    case ReadOutbound(i) =>
      if i < |st.polls| && st.polls[i].Applied? then
        var p := st.polls[i];
        if Live(st.hub, p.session) then
          st.(polls := st.polls[i := Read(p.session, Max(p.ack, st.hub.acks[p.session]), |st.responses|)])
        else st.(polls := st.polls[i := Done])
      else st
    case Refresh(i) =>
      if i < |st.polls| && st.polls[i].Read? then
        var p := st.polls[i];
        if Live(st.hub, p.session) then
          st.(polls := st.polls[i := Applied(p.session, Max(p.ack, st.hub.acks[p.session]))])
        else st.(polls := st.polls[i := Done])
      else st
    case Respond(i) =>
      if i < |st.polls| && st.polls[i].Read? then
        st.(polls := st.polls[i := Done], responses := st.responses + [Response(st.polls[i].session, st.polls[i].ack)])
      else st
    case Receive(i) =>
      if i < |st.responses| && st.responses[i].session == plugin.session then
        st.(plugin := plugin.(buffer := Trim(plugin.buffer, st.responses[i].ack)))
      else st
    case StartSession => st.(hub := st.hub.(live := |st.hub.acks|, acks := st.hub.acks + [0]))
    case EndSession => st.(hub := st.hub.(live := 0))
    case Adopt(session) =>
      if plugin.session < session < |st.hub.acks| then
        st.(plugin := Plugin(session, |plugin.buffer|, Renumbered(plugin.buffer)),
            bases := st.bases[session := |st.framed| - |plugin.buffer|])
      else st
  }

  function Run(steps: seq<Step>): State {
    if steps == [] then START else Next(Run(steps[..|steps| - 1]), steps[|steps| - 1])
  }

  // ---- The invariant, one concern at a time ----

  ghost predicate Distinct(ids: seq<string>) {
    forall i, j :: 0 <= i < j < |ids| ==> ids[i] != ids[j]
  }

  // The envelope at a place of a session's numbering is the one framed there.
  ghost predicate NumbersFramed(e: Framed, session: nat, framed: seq<string>, bases: map<nat, int>)
  {
    && session in bases
    && 0 < e.seqNo && 0 <= bases[session] + e.seqNo - 1 < |framed|
    && framed[bases[session] + e.seqNo - 1] == e.id
  }

  // A buffer that ends what was framed after the first `trimmed`, numbered from `base`.
  ghost predicate Ends(buffer: seq<Framed>, framed: seq<string>, trimmed: int, base: int) {
    && base <= trimmed && 0 <= trimmed && trimmed + |buffer| == |framed|
    && forall k :: 0 <= k < |buffer| ==> buffer[k] == Framed(framed[trimmed + k], trimmed + k + 1 - base)
  }

  // The buffer is the unacked end of what was framed, numbered on from the session's base.
  ghost predicate BufferInv(plugin: Plugin, framed: seq<string>, bases: map<nat, int>) {
    var trimmed := |framed| - |plugin.buffer|;
    && Distinct(framed)
    && plugin.session in bases
    && (forall session :: session in bases ==> session <= plugin.session && 0 <= bases[session] <= trimmed)
    && plugin.outboundSeq == |framed| - bases[plugin.session]
    && Ends(plugin.buffer, framed, trimmed, bases[plugin.session])
  }

  ghost predicate RequestInv(request: Request, framed: seq<string>, bases: map<nat, int>) {
    forall e :: e in request.envelopes ==> NumbersFramed(e, request.session, framed, bases)
  }

  ghost predicate TravelInv(requests: seq<Request>, polls: seq<Poll>, framed: seq<string>, bases: map<nat, int>) {
    && (forall i :: 0 <= i < |requests| ==> RequestInv(requests[i], framed, bases))
    && (forall i :: 0 <= i < |polls| && polls[i].Arrived? ==> RequestInv(polls[i].request, framed, bases))
  }

  // The ids that have taken effect, each at its first time.
  function Firsts(effects: seq<Effect>): (ids: seq<string>) {
    if effects == [] then []
    else
      var before := Firsts(effects[..|effects| - 1]);
      var id := effects[|effects| - 1].id;
      if id in before then before else before + [id]
  }

  // What one session accepted, in commit order.
  function AcceptedIn(effects: seq<Effect>, session: nat): (mine: seq<Effect>) {
    if effects == [] then []
    else AcceptedIn(effects[..|effects| - 1], session) +
         if effects[|effects| - 1].session == session then [effects[|effects| - 1]] else []
  }

  // A session's acceptances are its numbering, from 1 to its committed ack.
  ghost predicate SessionEffects(effects: seq<Effect>, session: nat, ack: nat, framed: seq<string>, bases: map<nat, int>) {
    var mine := AcceptedIn(effects, session);
    && |mine| == ack
    && (forall k :: 0 <= k < ack ==>
          mine[k].seqNo == k + 1 && NumbersFramed(Framed(mine[k].id, k + 1), session, framed, bases))
  }

  // What took effect is a prefix of what was framed, reaching at least as far as every session
  // and as what the plugin has trimmed.
  ghost predicate EffectsInv(effects: seq<Effect>, acks: seq<nat>, framed: seq<string>, bases: map<nat, int>, trimmed: int) {
    var reached := Firsts(effects);
    && reached <= framed
    && trimmed <= |reached|
    && (forall e :: e in effects ==> e.session < |acks|)
    && (forall s {:trigger SessionInv(effects, s, acks[s], framed, bases)} ::
          0 <= s < |acks| ==> SessionInv(effects, s, acks[s], framed, bases))
  }

  ghost predicate SessionInv(effects: seq<Effect>, session: nat, ack: nat, framed: seq<string>, bases: map<nat, int>) {
    && SessionEffects(effects, session, ack, framed, bases)
    && (session in bases ==> bases[session] + ack <= |Firsts(effects)|)
  }

  // The feed holds each claimed batch once.
  ghost predicate FeedInv(hub: Hub) {
    && Distinct(hub.feed)
    && forall id :: id in hub.claimed <==> id in hub.feed
  }

  ghost predicate ReportedBelow(responses: seq<Response>, mark: nat, session: nat, ack: nat) {
    forall j :: 0 <= j < mark && j < |responses| && responses[j].session == session ==> responses[j].ack <= ack
  }

  // No ack in flight is above the committed one, nor below one reported before it was read.
  ghost predicate PollInv(poll: Poll, responses: seq<Response>, acks: seq<nat>) {
    match poll
    case Applied(session, ack) => session < |acks| && ack <= acks[session]
    case Read(session, ack, mark) => session < |acks| && ack <= acks[session] &&
      mark <= |responses| && ReportedBelow(responses, mark, session, ack)
    case _ => true
  }

  ghost predicate ResponseInv(response: Response, acks: seq<nat>) {
    response.session < |acks| && response.ack <= acks[response.session]
  }

  ghost predicate AckInv(polls: seq<Poll>, responses: seq<Response>, acks: seq<nat>) {
    && (forall i {:trigger PollInv(polls[i], responses, acks)} :: 0 <= i < |polls| ==> PollInv(polls[i], responses, acks))
    && (forall j {:trigger ResponseInv(responses[j], acks)} :: 0 <= j < |responses| ==> ResponseInv(responses[j], acks))
  }

  ghost predicate Inv(st: State) {
    && 0 < |st.hub.acks| && st.plugin.session < |st.hub.acks|
    && BufferInv(st.plugin, st.framed, st.bases)
    && TravelInv(st.requests, st.polls, st.framed, st.bases)
    && EffectsInv(st.effects, st.hub.acks, st.framed, st.bases, |st.framed| - |st.plugin.buffer|)
    && FeedInv(st.hub)
    && AckInv(st.polls, st.responses, st.hub.acks)
  }

  // ---- Lemmas about the pieces ----

  ghost predicate Counts(buffer: seq<Framed>, first: int) {
    forall k :: 0 <= k < |buffer| ==> buffer[k].seqNo == first + k
  }

  // An ack trims a consecutively numbered buffer from the front, up to itself.
  lemma {:induction false} TrimDrops(buffer: seq<Framed>, first: int, ack: nat) returns (dropped: nat)
    requires Counts(buffer, first)
    ensures dropped <= |buffer| && Trim(buffer, ack) == buffer[dropped..]
    ensures dropped > 0 ==> first + dropped - 1 <= ack
    ensures dropped < |buffer| ==> first + dropped > ack
  {
    if buffer == [] {
      dropped := 0;
    } else if first > ack {
      TrimNothing(buffer, ack);
      dropped := 0;
    } else {
      dropped := TrimDrops(buffer[1..], first + 1, ack);
      dropped := dropped + 1;
    }
  }

  lemma {:induction false} TrimNothing(buffer: seq<Framed>, ack: nat)
    requires forall e :: e in buffer ==> e.seqNo > ack
    ensures Trim(buffer, ack) == buffer
  {
    if buffer != [] {
      TrimNothing(buffer[1..], ack);
    }
  }

  lemma {:induction false} FirstsMembers(effects: seq<Effect>)
    ensures forall id :: id in Firsts(effects) <==> exists i :: 0 <= i < |effects| && effects[i].id == id
  {
    if effects != [] {
      var last := |effects| - 1;
      FirstsMembers(effects[..last]);
      forall id | exists i :: 0 <= i < |effects| && effects[i].id == id
        ensures id in Firsts(effects)
      {
        var i :| 0 <= i < |effects| && effects[i].id == id;
        if i < last {
          assert effects[..last][i].id == id;
        }
      }
    }
  }

  lemma {:induction false} AcceptedInConcat(a: seq<Effect>, b: seq<Effect>, session: nat)
    ensures AcceptedIn(a + b, session) == AcceptedIn(a, session) + AcceptedIn(b, session)
  {
    if b == [] {
      assert a + b == a;
    } else {
      assert (a + b)[..|a + b| - 1] == a + b[..|b| - 1];
      AcceptedInConcat(a, b[..|b| - 1], session);
    }
  }

  lemma {:induction false} AcceptedInUniform(effects: seq<Effect>, one: nat, session: nat)
    requires forall e :: e in effects ==> e.session == one
    ensures AcceptedIn(effects, session) == if session == one then effects else []
  {
    if effects != [] {
      AcceptedInUniform(effects[..|effects| - 1], one, session);
    }
  }

  lemma FirstsSnoc(before: seq<Effect>, e: Effect, at: nat, framed: seq<string>)
    requires Distinct(framed) && Firsts(before) <= framed && at <= |Firsts(before)| && at < |framed| && e.id == framed[at]
    ensures Firsts(before + [e]) <= framed
    ensures |Firsts(before + [e])| == if at + 1 > |Firsts(before)| then at + 1 else |Firsts(before)|
  {
    var reached := Firsts(before);
    assert (before + [e])[..|before|] == before;
    if at < |reached| {
      assert reached[at] == e.id;
    } else {
      assert forall j :: 0 <= j < |reached| ==> reached[j] == framed[j] != e.id;
    }
  }

  // A run of the framing order that starts no later than what took effect extends it in order.
  lemma {:induction false} FirstsExtend(before: seq<Effect>, more: seq<Effect>, from: nat, framed: seq<string>)
    requires Distinct(framed) && Firsts(before) <= framed && from <= |Firsts(before)|
    requires from + |more| <= |framed| && forall k :: 0 <= k < |more| ==> more[k].id == framed[from + k]
    ensures Firsts(before + more) <= framed
    ensures |Firsts(before + more)| == if from + |more| > |Firsts(before)| then from + |more| else |Firsts(before)|
  {
    if more == [] {
      assert before + more == before;
    } else {
      var last := |more| - 1;
      FirstsExtend(before, more[..last], from, framed);
      assert before + more == (before + more[..last]) + [more[last]];
      FirstsSnoc(before + more[..last], more[last], from + last, framed);
    }
  }

  // What a batch accepts is the session's numbering, right after its ack.
  lemma AcceptIsNumbering(request: Request, ack: nat, framed: seq<string>, bases: map<nat, int>)
    requires RequestInv(request, framed, bases)
    ensures var batch := Classify(ack, SeqNos(request.envelopes));
            var effects := Accept(request, batch.accepted);
            && batch.ack == ack + |effects|
            && (effects != [] ==> request.session in bases)
            && forall k :: 0 <= k < |effects| ==>
                 && effects[k].session == request.session && effects[k].seqNo == ack + 1 + k
                 && NumbersFramed(Framed(effects[k].id, ack + 1 + k), request.session, framed, bases)
  {
    var seqs := SeqNos(request.envelopes);
    var accepted := Classify(ack, seqs).accepted;
    AcceptsChain(ack, seqs);
    forall k | 0 <= k < |accepted|
      ensures NumbersFramed(Framed(request.envelopes[accepted[k]].id, ack + 1 + k), request.session, framed, bases)
      ensures request.envelopes[accepted[k]].seqNo == ack + 1 + k
    {
      var e := request.envelopes[accepted[k]];
      assert e in request.envelopes && seqs[accepted[k]] == e.seqNo;
    }
    if accepted != [] {
      assert request.envelopes[accepted[0]] in request.envelopes;
    }
  }

  lemma {:induction false} IngestKeepsFeed(hub: Hub, effects: seq<Effect>, batches: set<string>)
    requires FeedInv(hub)
    ensures FeedInv(Ingest(hub, effects, batches))
    ensures hub.feed <= Ingest(hub, effects, batches).feed
    ensures forall e :: e in effects && e.id in batches ==> e.id in Ingest(hub, effects, batches).feed
  {
    if effects != [] {
      IngestKeepsFeed(hub, effects[..|effects| - 1], batches);
    }
  }

  // ---- Every step keeps the invariant ----

  lemma EndsSnoc(buffer: seq<Framed>, framed: seq<string>, trimmed: int, base: int, id: string)
    requires Ends(buffer, framed, trimmed, base)
    ensures Ends(buffer + [Framed(id, |framed| + 1 - base)], framed + [id], trimmed, base)
  {
  }

  lemma NumbersFramedGrows(e: Framed, session: nat, framed: seq<string>, more: seq<string>, bases: map<nat, int>)
    requires NumbersFramed(e, session, framed, bases)
    ensures NumbersFramed(e, session, framed + more, bases)
  {
  }

  lemma FrameKeepsTravel(requests: seq<Request>, polls: seq<Poll>, framed: seq<string>, bases: map<nat, int>, more: seq<string>)
    requires TravelInv(requests, polls, framed, bases)
    ensures TravelInv(requests, polls, framed + more, bases)
  {
    forall request: Request | RequestInv(request, framed, bases) ensures RequestInv(request, framed + more, bases) {
      forall e | e in request.envelopes ensures NumbersFramed(e, request.session, framed + more, bases) {
        NumbersFramedGrows(e, request.session, framed, more, bases);
      }
    }
  }

  lemma FrameKeepsSession(effects: seq<Effect>, session: nat, ack: nat, framed: seq<string>, bases: map<nat, int>, more: seq<string>)
    requires SessionInv(effects, session, ack, framed, bases)
    ensures SessionInv(effects, session, ack, framed + more, bases)
  {
    var mine := AcceptedIn(effects, session);
    forall k | 0 <= k < |mine| ensures NumbersFramed(Framed(mine[k].id, k + 1), session, framed + more, bases) {
      NumbersFramedGrows(Framed(mine[k].id, k + 1), session, framed, more, bases);
    }
  }

  lemma FrameKeepsEffects(effects: seq<Effect>, acks: seq<nat>, framed: seq<string>, bases: map<nat, int>, trimmed: int, more: seq<string>)
    requires EffectsInv(effects, acks, framed, bases, trimmed)
    ensures EffectsInv(effects, acks, framed + more, bases, trimmed)
  {
    forall s | 0 <= s < |acks| ensures SessionInv(effects, s, acks[s], framed + more, bases) {
      FrameKeepsSession(effects, s, acks[s], framed, bases, more);
    }
  }

  lemma FrameKeepsBuffer(plugin: Plugin, framed: seq<string>, bases: map<nat, int>, id: string)
    requires BufferInv(plugin, framed, bases) && id !in framed
    ensures var n := plugin.outboundSeq + 1;
            BufferInv(plugin.(outboundSeq := n, buffer := plugin.buffer + [Framed(id, n)]), framed + [id], bases)
  {
    EndsSnoc(plugin.buffer, framed, |framed| - |plugin.buffer|, bases[plugin.session], id);
  }

  lemma FrameKeeps(st: State, id: string)
    requires Inv(st)
    ensures Inv(Next(st, Frame(id)))
  {
    if id !in st.framed {
      FrameKeepsBuffer(st.plugin, st.framed, st.bases, id);
      FrameKeepsTravel(st.requests, st.polls, st.framed, st.bases, [id]);
      FrameKeepsEffects(st.effects, st.hub.acks, st.framed, st.bases, |st.framed| - |st.plugin.buffer|, [id]);
    }
  }

  lemma BufferNumbers(plugin: Plugin, framed: seq<string>, bases: map<nat, int>, e: Framed)
    requires BufferInv(plugin, framed, bases) && e in plugin.buffer
    ensures NumbersFramed(e, plugin.session, framed, bases)
  {
    var k :| 0 <= k < |plugin.buffer| && plugin.buffer[k] == e;
  }

  lemma SendKeeps(st: State, envelopes: seq<Framed>)
    requires Inv(st)
    ensures Inv(Next(st, Send(envelopes)))
  {
    if forall e :: e in envelopes ==> e in st.plugin.buffer {
      forall e | e in envelopes ensures NumbersFramed(e, st.plugin.session, st.framed, st.bases) {
        BufferNumbers(st.plugin, st.framed, st.bases, e);
      }
      assert RequestInv(Request(st.plugin.session, envelopes), st.framed, st.bases);
    }
  }

  lemma ArriveKeeps(st: State, i: nat)
    requires Inv(st)
    ensures Inv(Next(st, Arrive(i)))
  {
    if i < |st.requests| {
      assert PollInv(Arrived(st.requests[i]), st.responses, st.hub.acks);
    }
  }

  // A poll moving on, its request behind it.
  lemma PollMoves(st: State, i: nat, poll: Poll)
    requires Inv(st) && i < |st.polls| && !poll.Arrived? && PollInv(poll, st.responses, st.hub.acks)
    ensures Inv(st.(polls := st.polls[i := poll]))
  {
    var moved := st.polls[i := poll];
    assert TravelInv(st.requests, moved, st.framed, st.bases);
    assert AckInv(moved, st.responses, st.hub.acks);
  }

  lemma AllReportedBelow(responses: seq<Response>, acks: seq<nat>, mark: nat, session: nat, ack: nat)
    requires session < |acks| && acks[session] <= ack
    requires forall j :: 0 <= j < |responses| ==> ResponseInv(responses[j], acks)
    ensures ReportedBelow(responses, mark, session, ack)
  {
  }

  lemma ReadKeeps(st: State, i: nat)
    requires Inv(st)
    ensures Inv(Next(st, ReadOutbound(i)))
  {
    if i < |st.polls| && st.polls[i].Applied? {
      var p := st.polls[i];
      assert PollInv(p, st.responses, st.hub.acks);
      if Live(st.hub, p.session) {
        var ack := Max(p.ack, st.hub.acks[p.session]);
        AllReportedBelow(st.responses, st.hub.acks, |st.responses|, p.session, ack);
        PollMoves(st, i, Read(p.session, ack, |st.responses|));
      } else {
        PollMoves(st, i, Done);
      }
    }
  }

  lemma RefreshKeeps(st: State, i: nat)
    requires Inv(st)
    ensures Inv(Next(st, Refresh(i)))
  {
    if i < |st.polls| && st.polls[i].Read? {
      var p := st.polls[i];
      assert PollInv(p, st.responses, st.hub.acks);
      PollMoves(st, i, if Live(st.hub, p.session) then Applied(p.session, Max(p.ack, st.hub.acks[p.session])) else Done);
    }
  }

  lemma ResponseKeepsAcks(polls: seq<Poll>, responses: seq<Response>, acks: seq<nat>, response: Response)
    requires AckInv(polls, responses, acks) && ResponseInv(response, acks)
    ensures AckInv(polls, responses + [response], acks)
  {
    forall i | 0 <= i < |polls| ensures PollInv(polls[i], responses + [response], acks) {
      assert PollInv(polls[i], responses, acks);
    }
  }

  lemma RespondKeeps(st: State, i: nat)
    requires Inv(st)
    ensures Inv(Next(st, Respond(i)))
  {
    if i < |st.polls| && st.polls[i].Read? {
      var p := st.polls[i];
      assert PollInv(p, st.responses, st.hub.acks);
      PollMoves(st, i, Done);
      ResponseKeepsAcks(st.polls[i := Done], st.responses, st.hub.acks, Response(p.session, p.ack));
    }
  }

  lemma EndKeeps(st: State)
    requires Inv(st)
    ensures Inv(Next(st, EndSession))
  {
  }

  lemma {:induction false} AcceptedInNone(effects: seq<Effect>, session: nat)
    requires forall e :: e in effects ==> e.session != session
    ensures AcceptedIn(effects, session) == []
  {
    if effects != [] {
      AcceptedInNone(effects[..|effects| - 1], session);
    }
  }

  lemma StartKeepsEffects(effects: seq<Effect>, acks: seq<nat>, framed: seq<string>, bases: map<nat, int>, trimmed: int)
    requires EffectsInv(effects, acks, framed, bases, trimmed) && forall s :: s in bases ==> s < |acks|
    ensures EffectsInv(effects, acks + [0], framed, bases, trimmed)
  {
    AcceptedInNone(effects, |acks|);
    forall s | 0 <= s < |acks| + 1 ensures SessionInv(effects, s, (acks + [0])[s], framed, bases) {
      if s < |acks| {
        assert SessionInv(effects, s, acks[s], framed, bases);
      }
    }
  }

  lemma StartKeepsAcks(polls: seq<Poll>, responses: seq<Response>, acks: seq<nat>)
    requires AckInv(polls, responses, acks)
    ensures AckInv(polls, responses, acks + [0])
  {
    forall i | 0 <= i < |polls| ensures PollInv(polls[i], responses, acks + [0]) {
      assert PollInv(polls[i], responses, acks);
    }
    forall j | 0 <= j < |responses| ensures ResponseInv(responses[j], acks + [0]) {
      assert ResponseInv(responses[j], acks);
    }
  }

  lemma StartKeeps(st: State)
    requires Inv(st)
    ensures Inv(Next(st, StartSession))
  {
    StartKeepsEffects(st.effects, st.hub.acks, st.framed, st.bases, |st.framed| - |st.plugin.buffer|);
    StartKeepsAcks(st.polls, st.responses, st.hub.acks);
  }

  lemma EndsDrop(buffer: seq<Framed>, framed: seq<string>, trimmed: int, base: int, dropped: nat)
    requires Ends(buffer, framed, trimmed, base) && dropped <= |buffer|
    ensures Ends(buffer[dropped..], framed, trimmed + dropped, base)
  {
    forall k | 0 <= k < |buffer| - dropped
      ensures buffer[dropped..][k] == Framed(framed[trimmed + dropped + k], trimmed + dropped + k + 1 - base)
    {
      assert buffer[dropped..][k] == buffer[dropped + k];
    }
  }

  // Trimming leaves the end of the buffer, and drops only what the ack covers.
  lemma TrimKeepsBuffer(plugin: Plugin, framed: seq<string>, bases: map<nat, int>, ack: nat)
    requires BufferInv(plugin, framed, bases)
    ensures var kept := Trim(plugin.buffer, ack);
            && BufferInv(plugin.(buffer := kept), framed, bases)
            && (kept != plugin.buffer ==> |framed| - |kept| <= bases[plugin.session] + ack)
  {
    var trimmed := |framed| - |plugin.buffer|;
    var base := bases[plugin.session];
    var dropped := TrimDrops(plugin.buffer, trimmed + 1 - base, ack);
    EndsDrop(plugin.buffer, framed, trimmed, base, dropped);
  }

  lemma ReceiveKeeps(st: State, i: nat)
    requires Inv(st)
    ensures Inv(Next(st, Receive(i)))
  {
    if i < |st.responses| && st.responses[i].session == st.plugin.session {
      var session := st.plugin.session;
      TrimKeepsBuffer(st.plugin, st.framed, st.bases, st.responses[i].ack);
      assert ResponseInv(st.responses[i], st.hub.acks);
      assert SessionInv(st.effects, session, st.hub.acks[session], st.framed, st.bases);
    }
  }

  lemma AcceptedMeansAdopted(effects: seq<Effect>, session: nat, ack: nat, framed: seq<string>, bases: map<nat, int>)
    requires SessionEffects(effects, session, ack, framed, bases)
    ensures ack > 0 ==> session in bases
  {
    if ack > 0 {
      assert NumbersFramed(Framed(AcceptedIn(effects, session)[0].id, 1), session, framed, bases);
    }
  }

  lemma AdoptKeepsSession(effects: seq<Effect>, s: nat, ack: nat, framed: seq<string>, bases: map<nat, int>, session: nat, base: int)
    requires SessionInv(effects, s, ack, framed, bases) && session !in bases
    requires 0 <= base <= |Firsts(effects)|
    ensures SessionInv(effects, s, ack, framed, bases[session := base])
  {
    AcceptedMeansAdopted(effects, s, ack, framed, bases);
    var mine := AcceptedIn(effects, s);
    forall k | 0 <= k < |mine| ensures NumbersFramed(Framed(mine[k].id, k + 1), s, framed, bases[session := base]) {
      assert NumbersFramed(Framed(mine[k].id, k + 1), s, framed, bases);
    }
  }

  lemma AdoptKeepsEffects(effects: seq<Effect>, acks: seq<nat>, framed: seq<string>, bases: map<nat, int>, trimmed: int, session: nat)
    requires EffectsInv(effects, acks, framed, bases, trimmed) && session !in bases && 0 <= trimmed
    ensures EffectsInv(effects, acks, framed, bases[session := trimmed], trimmed)
  {
    forall s | 0 <= s < |acks| ensures SessionInv(effects, s, acks[s], framed, bases[session := trimmed]) {
      AdoptKeepsSession(effects, s, acks[s], framed, bases, session, trimmed);
    }
  }

  lemma AdoptKeepsTravel(requests: seq<Request>, polls: seq<Poll>, framed: seq<string>, bases: map<nat, int>, session: nat, base: int)
    requires TravelInv(requests, polls, framed, bases) && session !in bases
    ensures TravelInv(requests, polls, framed, bases[session := base])
  {
    forall request: Request | RequestInv(request, framed, bases) ensures RequestInv(request, framed, bases[session := base]) {
      forall e | e in request.envelopes ensures NumbersFramed(e, request.session, framed, bases[session := base]) {
        assert NumbersFramed(e, request.session, framed, bases);
      }
    }
  }

  // Renumbering from 1 rebases the buffer on what is still unacked.
  lemma AdoptKeepsBuffer(plugin: Plugin, framed: seq<string>, bases: map<nat, int>, session: nat)
    requires BufferInv(plugin, framed, bases) && plugin.session < session
    ensures session !in bases && |plugin.buffer| <= |framed|
    ensures BufferInv(Plugin(session, |plugin.buffer|, Renumbered(plugin.buffer)), framed,
                      bases[session := |framed| - |plugin.buffer|])
  {
    var trimmed := |framed| - |plugin.buffer|;
    assert Ends(plugin.buffer, framed, trimmed, bases[plugin.session]);
    assert Ends(Renumbered(plugin.buffer), framed, trimmed, trimmed);
  }

  lemma AdoptKeeps(st: State, session: nat)
    requires Inv(st)
    ensures Inv(Next(st, Adopt(session)))
  {
    if st.plugin.session < session < |st.hub.acks| {
      var trimmed := |st.framed| - |st.plugin.buffer|;
      AdoptKeepsBuffer(st.plugin, st.framed, st.bases, session);
      AdoptKeepsEffects(st.effects, st.hub.acks, st.framed, st.bases, trimmed, session);
      AdoptKeepsTravel(st.requests, st.polls, st.framed, st.bases, session, trimmed);
      var plugin, bases := Plugin(session, |st.plugin.buffer|, Renumbered(st.plugin.buffer)), st.bases[session := trimmed];
      assert Next(st, Adopt(session)) == st.(plugin := plugin, bases := bases);
      Adopted(st, plugin, bases);
    }
  }

  lemma Adopted(st: State, plugin: Plugin, bases: map<nat, int>)
    requires Inv(st) && plugin.session < |st.hub.acks| && |plugin.buffer| == |st.plugin.buffer|
    requires BufferInv(plugin, st.framed, bases) && TravelInv(st.requests, st.polls, st.framed, bases)
    requires EffectsInv(st.effects, st.hub.acks, st.framed, bases, |st.framed| - |st.plugin.buffer|)
    ensures Inv(st.(plugin := plugin, bases := bases))
  {
  }

  // The next stretch of a session's numbering.
  ghost predicate NextStretch(session: nat, ack: nat, more: seq<Effect>, framed: seq<string>, bases: map<nat, int>) {
    && (more != [] ==> session in bases)
    && forall k :: 0 <= k < |more| ==>
         && more[k].session == session && more[k].seqNo == ack + 1 + k
         && NumbersFramed(Framed(more[k].id, ack + 1 + k), session, framed, bases)
  }

  lemma SessionGrows(effects: seq<Effect>, session: nat, ack: nat, more: seq<Effect>, framed: seq<string>, bases: map<nat, int>)
    requires SessionEffects(effects, session, ack, framed, bases)
    requires NextStretch(session, ack, more, framed, bases)
    ensures SessionEffects(effects + more, session, ack + |more|, framed, bases)
  {
    AcceptedInConcat(effects, more, session);
    AcceptedInUniform(more, session, session);
    var mine := AcceptedIn(effects, session);
    forall k | 0 <= k < ack + |more|
      ensures (mine + more)[k].seqNo == k + 1 && NumbersFramed(Framed((mine + more)[k].id, k + 1), session, framed, bases)
    {
      if k >= ack {
        assert (mine + more)[k] == more[k - ack];
      }
    }
  }

  lemma OtherSessionStays(effects: seq<Effect>, s: nat, ack: nat, more: seq<Effect>, session: nat, framed: seq<string>, bases: map<nat, int>)
    requires SessionEffects(effects, s, ack, framed, bases) && s != session
    requires forall e :: e in more ==> e.session == session
    ensures SessionEffects(effects + more, s, ack, framed, bases)
  {
    AcceptedInConcat(effects, more, s);
    AcceptedInUniform(more, session, s);
  }

  lemma StretchIsFramed(session: nat, ack: nat, more: seq<Effect>, framed: seq<string>, bases: map<nat, int>)
    requires more != [] && NextStretch(session, ack, more, framed, bases) && 0 <= bases[session]
    ensures bases[session] + ack + |more| <= |framed|
    ensures forall k :: 0 <= k < |more| ==> more[k].id == framed[bases[session] + ack + k]
  {
    var last := |more| - 1;
    assert NumbersFramed(Framed(more[last].id, ack + 1 + last), session, framed, bases);
    forall k | 0 <= k < |more| ensures more[k].id == framed[bases[session] + ack + k] {
      assert NumbersFramed(Framed(more[k].id, ack + 1 + k), session, framed, bases);
    }
  }

  lemma StretchExtendsReached(effects: seq<Effect>, session: nat, ack: nat, more: seq<Effect>, framed: seq<string>, bases: map<nat, int>)
    requires Distinct(framed) && Firsts(effects) <= framed && SessionInv(effects, session, ack, framed, bases)
    requires NextStretch(session, ack, more, framed, bases) && (session in bases ==> 0 <= bases[session])
    ensures var reached := Firsts(effects + more);
            && reached <= framed && |Firsts(effects)| <= |reached|
            && (session in bases ==> bases[session] + ack + |more| <= |reached|)
  {
    if more == [] {
      assert effects + more == effects;
    } else {
      StretchIsFramed(session, ack, more, framed, bases);
      FirstsExtend(effects, more, bases[session] + ack, framed);
    }
  }

  lemma StretchExtendsSession(effects: seq<Effect>, session: nat, ack: nat, more: seq<Effect>, framed: seq<string>, bases: map<nat, int>)
    requires Distinct(framed) && Firsts(effects) <= framed && SessionInv(effects, session, ack, framed, bases)
    requires NextStretch(session, ack, more, framed, bases) && (session in bases ==> 0 <= bases[session])
    ensures SessionInv(effects + more, session, ack + |more|, framed, bases)
  {
    SessionGrows(effects, session, ack, more, framed, bases);
    StretchExtendsReached(effects, session, ack, more, framed, bases);
  }

  lemma StretchKeepsOther(effects: seq<Effect>, s: nat, ack: nat, more: seq<Effect>, session: nat, framed: seq<string>, bases: map<nat, int>)
    requires SessionInv(effects, s, ack, framed, bases) && s != session
    requires forall e :: e in more ==> e.session == session
    requires |Firsts(effects)| <= |Firsts(effects + more)|
    ensures SessionInv(effects + more, s, ack, framed, bases)
  {
    OtherSessionStays(effects, s, ack, more, session, framed, bases);
  }

  // Accepting it keeps what took effect in framing order.
  lemma EffectsExtend(effects: seq<Effect>, acks: seq<nat>, framed: seq<string>, bases: map<nat, int>, trimmed: int, session: nat, more: seq<Effect>)
    requires EffectsInv(effects, acks, framed, bases, trimmed) && Distinct(framed) && session < |acks|
    requires NextStretch(session, acks[session], more, framed, bases) && (session in bases ==> 0 <= bases[session])
    ensures EffectsInv(effects + more, acks[session := acks[session] + |more|], framed, bases, trimmed)
  {
    var after := acks[session := acks[session] + |more|];
    assert SessionInv(effects, session, acks[session], framed, bases);
    StretchExtendsReached(effects, session, acks[session], more, framed, bases);
    forall s | 0 <= s < |acks| ensures SessionInv(effects + more, s, after[s], framed, bases) {
      if s == session {
        StretchExtendsSession(effects, session, acks[session], more, framed, bases);
      } else {
        StretchKeepsOther(effects, s, acks[s], more, session, framed, bases);
      }
    }
  }

  lemma AckRaised(polls: seq<Poll>, responses: seq<Response>, acks: seq<nat>, i: nat, session: nat, ack: nat)
    requires AckInv(polls, responses, acks) && i < |polls| && session < |acks| && acks[session] <= ack
    ensures AckInv(polls[i := Applied(session, ack)], responses, acks[session := ack])
  {
    var moved, raised := polls[i := Applied(session, ack)], acks[session := ack];
    forall k | 0 <= k < |moved| ensures PollInv(moved[k], responses, raised) {
      assert PollInv(polls[k], responses, acks);
    }
    forall j | 0 <= j < |responses| ensures ResponseInv(responses[j], raised) {
      assert ResponseInv(responses[j], acks);
    }
  }

  // What the hub accepts from a request is the next stretch of its session's numbering.
  lemma AcceptedStretch(request: Request, ack: nat, framed: seq<string>, bases: map<nat, int>)
    requires RequestInv(request, framed, bases)
    ensures var batch := Classify(ack, SeqNos(request.envelopes));
            && NextStretch(request.session, ack, Accept(request, batch.accepted), framed, bases)
            && batch.ack == ack + |Accept(request, batch.accepted)|
  {
    AcceptIsNumbering(request, ack, framed, bases);
  }

  ghost predicate LiveRequest(st: State, i: nat, request: Request) {
    i < |st.polls| && st.polls[i] == Arrived(request) && Live(st.hub, request.session)
  }

  // What a live request adds, and where it takes its session's ack.
  lemma AppliedParts(st: State, i: nat, batches: set<string>, request: Request) returns (more: seq<Effect>)
    requires LiveRequest(st, i, request) && RequestInv(request, st.framed, st.bases)
    ensures var next, ack := ApplyTo(st, i, batches), st.hub.acks[request.session];
            && NextStretch(request.session, ack, more, st.framed, st.bases)
            && next.effects == st.effects + more && next.framed == st.framed && next.bases == st.bases
            && next.plugin == st.plugin
            && next.hub.acks == st.hub.acks[request.session := ack + |more|]
  {
    var ack := st.hub.acks[request.session];
    more := Accept(request, Classify(ack, SeqNos(request.envelopes)).accepted);
    AcceptedStretch(request, ack, st.framed, st.bases);
  }

  lemma ApplyKeepsEffects(st: State, i: nat, batches: set<string>, request: Request)
    requires LiveRequest(st, i, request) && RequestInv(request, st.framed, st.bases)
    requires Distinct(st.framed) && (request.session in st.bases ==> 0 <= st.bases[request.session])
    requires EffectsInv(st.effects, st.hub.acks, st.framed, st.bases, |st.framed| - |st.plugin.buffer|)
    ensures var next := ApplyTo(st, i, batches);
            EffectsInv(next.effects, next.hub.acks, next.framed, next.bases, |next.framed| - |next.plugin.buffer|)
  {
    var more := AppliedParts(st, i, batches, request);
    EffectsExtend(st.effects, st.hub.acks, st.framed, st.bases, |st.framed| - |st.plugin.buffer|, request.session, more);
  }

  lemma ApplyKeepsAcks(st: State, i: nat, batches: set<string>, request: Request)
    requires Inv(st) && LiveRequest(st, i, request)
    ensures var next := ApplyTo(st, i, batches); AckInv(next.polls, next.responses, next.hub.acks)
  {
    var ack := Classify(st.hub.acks[request.session], SeqNos(request.envelopes)).ack;
    AckRaised(st.polls, st.responses, st.hub.acks, i, request.session, ack);
  }

  lemma ApplyKeepsFeed(st: State, i: nat, batches: set<string>, request: Request)
    requires Inv(st) && LiveRequest(st, i, request)
    ensures FeedInv(ApplyTo(st, i, batches).hub)
  {
    var effects := Accept(request, Classify(st.hub.acks[request.session], SeqNos(request.envelopes)).accepted);
    IngestKeepsFeed(st.hub, effects, batches);
  }

  lemma ApplyKeeps(st: State, i: nat, batches: set<string>)
    requires Inv(st)
    ensures Inv(Next(st, Apply(i, batches)))
  {
    if i < |st.polls| && st.polls[i].Arrived? {
      var request := st.polls[i].request;
      if Live(st.hub, request.session) {
        ApplyKeepsEffects(st, i, batches, request);
        ApplyKeepsAcks(st, i, batches, request);
        ApplyKeepsFeed(st, i, batches, request);
      } else {
        PollMoves(st, i, Done);
      }
    }
  }

  lemma NextKeeps(st: State, step: Step)
    requires Inv(st)
    ensures Inv(Next(st, step))
  {
    match step
    case Frame(id) => FrameKeeps(st, id);
    case Send(envelopes) => SendKeeps(st, envelopes);
    case Arrive(i) => ArriveKeeps(st, i);
    case Apply(i, batches) => ApplyKeeps(st, i, batches);
    case ReadOutbound(i) => ReadKeeps(st, i);
    case Refresh(i) => RefreshKeeps(st, i);
    case Respond(i) => RespondKeeps(st, i);
    case Receive(i) => ReceiveKeeps(st, i);
    case StartSession => StartKeeps(st);
    case EndSession => EndKeeps(st);
    case Adopt(session) => AdoptKeeps(st, session);
  }

  lemma {:induction false} RunKeeps(steps: seq<Step>)
    ensures Inv(Run(steps))
  {
    if steps == [] {
      StartHolds();
    } else {
      RunKeeps(steps[..|steps| - 1]);
      NextKeeps(Run(steps[..|steps| - 1]), steps[|steps| - 1]);
    }
  }

  lemma StartHolds()
    ensures Inv(START)
  {
    assert forall s :: s in START.bases ==> s == 0;
  }

  // ---- The guarantees, over every run ----

  /** At-least-once: whatever the network loses, repeats or delays, and however often the session
      changes, every envelope the plugin framed is still in its buffer or was accepted. */
  lemma NothingLost(steps: seq<Step>, id: string)
    requires id in Run(steps).framed
    ensures var st := Run(steps);
            || (exists k :: 0 <= k < |st.plugin.buffer| && st.plugin.buffer[k].id == id)
            || (exists i :: 0 <= i < |st.effects| && st.effects[i].id == id)
  {
    RunKeeps(steps);
    var st := Run(steps);
    BufferedOrAccepted(st.plugin, st.framed, st.bases, st.effects, id);
  }

  lemma BufferedOrAccepted(plugin: Plugin, framed: seq<string>, bases: map<nat, int>, effects: seq<Effect>, id: string)
    requires BufferInv(plugin, framed, bases) && id in framed
    requires Firsts(effects) <= framed && |framed| - |plugin.buffer| <= |Firsts(effects)|
    ensures || (exists k :: 0 <= k < |plugin.buffer| && plugin.buffer[k].id == id)
            || (exists i :: 0 <= i < |effects| && effects[i].id == id)
  {
    var i :| 0 <= i < |framed| && framed[i] == id;
    var trimmed := |framed| - |plugin.buffer|;
    if i < trimmed {
      FirstsMembers(effects);
      assert Firsts(effects)[i] == id && id in Firsts(effects);
    } else {
      assert plugin.buffer[i - trimmed].id == id;
    }
  }

  /** Envelopes first take effect in the order they were framed, with none skipped. */
  lemma FirstEffectsInFramingOrder(steps: seq<Step>)
    ensures Firsts(Run(steps).effects) <= Run(steps).framed
  {
    RunKeeps(steps);
  }

  /** Within a session each seq takes effect once: what it accepted, in commit order and across
      every overlap of polls, is seq 1, 2, ... up to its committed ack. */
  lemma CommitsInSeqOrder(steps: seq<Step>, session: nat)
    requires session < |Run(steps).hub.acks|
    ensures var mine := AcceptedIn(Run(steps).effects, session);
            |mine| == Run(steps).hub.acks[session] && forall k :: 0 <= k < |mine| ==> mine[k].seqNo == k + 1
  {
    RunKeeps(steps);
    var st := Run(steps);
    assert SessionInv(st.effects, session, st.hub.acks[session], st.framed, st.bases);
  }

  /** However often a batch is accepted, the feed holds it once. Nothing is pruned here: EventFeed says
      what pruning changes. */
  lemma EventsStoredOnce(steps: seq<Step>)
    ensures Distinct(Run(steps).hub.feed)
  {
    RunKeeps(steps);
  }

  /** And at least once: a usable batch an application accepts is in the feed when it commits, so
      an ack that covers it is a promise already kept. */
  lemma AcceptedBatchIsStored(steps: seq<Step>, i: nat, batches: set<string>, e: Effect)
    requires var st := Run(steps); i < |st.polls| && st.polls[i].Arrived? && Live(st.hub, st.polls[i].request.session)
    requires e in Next(Run(steps), Apply(i, batches)).effects[|Run(steps).effects|..] && e.id in batches
    ensures e.id in Next(Run(steps), Apply(i, batches)).hub.feed
  {
    RunKeeps(steps);
    var st := Run(steps);
    var request := st.polls[i].request;
    var effects := Accept(request, Classify(st.hub.acks[request.session], SeqNos(request.envelopes)).accepted);
    IngestKeepsFeed(st.hub, effects, batches);
    assert (st.effects + effects)[|st.effects|..] == effects;
  }

  /** The committed ack of a session never falls, and nothing stored is ever taken back. */
  lemma CommittedNeverFalls(steps: seq<Step>, step: Step, session: nat)
    requires session < |Run(steps).hub.acks|
    ensures var st := Run(steps);
            var next := Next(st, step);
            && session < |next.hub.acks| && st.hub.acks[session] <= next.hub.acks[session]
            && st.hub.feed <= next.hub.feed && st.effects <= next.effects
  {
    RunKeeps(steps);
    var st := Run(steps);
    if step.Apply? && step.poll < |st.polls| && st.polls[step.poll].Arrived? {
      ApplyOnlyAdds(st, step.poll, step.batches, session);
    }
  }

  lemma ApplyOnlyAdds(st: State, i: nat, batches: set<string>, session: nat)
    requires FeedInv(st.hub) && i < |st.polls| && st.polls[i].Arrived? && session < |st.hub.acks|
    ensures var next := ApplyTo(st, i, batches);
            && session < |next.hub.acks| && st.hub.acks[session] <= next.hub.acks[session]
            && st.hub.feed <= next.hub.feed && st.effects <= next.effects
  {
    var request := st.polls[i].request;
    if Live(st.hub, request.session) {
      IngestKeepsFeed(st.hub, Accept(request, Classify(st.hub.acks[request.session], SeqNos(request.envelopes)).accepted), batches);
    }
  }

  /** What a poll answers: an ack no higher than the committed one, and no lower than any the
      session had been given when this poll last read the database. So a response lowers an ack
      already reported exactly when a higher one was reported after that read. */
  lemma ReportedAck(steps: seq<Step>, i: nat)
    requires i < |Run(steps).polls| && Run(steps).polls[i].Read?
    ensures var st := Run(steps);
            var p := st.polls[i];
            && p.session < |st.hub.acks| && p.ack <= st.hub.acks[p.session]
            && Next(st, Respond(i)).responses == st.responses + [Response(p.session, p.ack)]
            && ((exists j :: 0 <= j < |st.responses| && st.responses[j].session == p.session && st.responses[j].ack > p.ack) <==>
                (exists j :: p.mark <= j < |st.responses| && st.responses[j].session == p.session && st.responses[j].ack > p.ack))
  {
    RunKeeps(steps);
    var st := Run(steps);
    assert PollInv(st.polls[i], st.responses, st.hub.acks);
    assert ReportedBelow(st.responses, st.polls[i].mark, st.polls[i].session, st.polls[i].ack);
  }

  ghost predicate Reachable(st: State) {
    exists steps :: Run(steps) == st
  }

  lemma ReachableNext(st: State, step: Step)
    requires Reachable(st)
    ensures Reachable(Next(st, step))
  {
    var steps :| Run(steps) == st;
    assert (steps + [step])[..|steps|] == steps;
    assert Run(steps + [step]) == Next(st, step);
  }

  const PLUGIN := Plugin(1, 1, [Framed("e", 1)])
  const IDLE := Request(1, [])
  const ONE := Request(1, [Framed("e", 1)])

  // A session whose plugin has sent an idle poll, and then one carrying its first envelope.
  lemma TwoPollsArrive()
    ensures Reachable(State(PLUGIN, Hub(1, [0, 0], {}, []), [IDLE, ONE], [Arrived(IDLE), Arrived(ONE)], [], ["e"], map[0 := 0, 1 := 0], []))
  {
    OneAdopted();
    var s2 := State(Plugin(1, 0, []), Hub(1, [0, 0], {}, []), [], [], [], [], map[0 := 0, 1 := 0], []);
    ReachableNext(s2, Send([]));
    var s3 := s2.(requests := [IDLE]);
    assert Next(s2, Send([])) == s3;
    ReachableNext(s3, Frame("e"));
    var s4 := Next(s3, Frame("e"));
    assert s4 == State(PLUGIN, Hub(1, [0, 0], {}, []), [IDLE], [], [], ["e"], map[0 := 0, 1 := 0], []);
    BothSent(s4);
  }

  lemma OneAdopted()
    ensures Reachable(State(Plugin(1, 0, []), Hub(1, [0, 0], {}, []), [], [], [], [], map[0 := 0, 1 := 0], []))
  {
    assert Run([]) == START;
    ReachableNext(START, StartSession);
    var s1 := Next(START, StartSession);
    ReachableNext(s1, Adopt(1));
    assert Next(s1, Adopt(1)) == State(Plugin(1, 0, []), Hub(1, [0, 0], {}, []), [], [], [], [], map[0 := 0, 1 := 0], []);
  }

  lemma BothSent(s4: State)
    requires s4 == State(PLUGIN, Hub(1, [0, 0], {}, []), [IDLE], [], [], ["e"], map[0 := 0, 1 := 0], []) && Reachable(s4)
    ensures Reachable(s4.(requests := [IDLE, ONE], polls := [Arrived(IDLE), Arrived(ONE)]))
  {
    ReachableNext(s4, Send([Framed("e", 1)]));
    var s5 := Next(s4, Send([Framed("e", 1)]));
    assert s5 == s4.(requests := [IDLE, ONE]);
    ReachableNext(s5, Arrive(0));
    var s6 := Next(s5, Arrive(0));
    ReachableNext(s6, Arrive(1));
    assert Next(s6, Arrive(1)) == s4.(requests := [IDLE, ONE], polls := [Arrived(IDLE), Arrived(ONE)]);
  }

  // The idle poll is applied and reads the database; then the other one is applied.
  lemma IdleApplied(st: State)
    requires st == State(PLUGIN, Hub(1, [0, 0], {}, []), [IDLE, ONE], [Arrived(IDLE), Arrived(ONE)], [], ["e"], map[0 := 0, 1 := 0], []) && Reachable(st)
    ensures Reachable(st.(polls := [Read(1, 0, 0), Arrived(ONE)]))
  {
    assert SeqNos([]) == [] && Classify(0, []) == Batch(0, [], 0, 0);
    ReachableNext(st, Apply(0, {}));
    var s1 := Next(st, Apply(0, {}));
    assert s1 == st.(polls := [Applied(1, 0), Arrived(ONE)]);
    ReachableNext(s1, ReadOutbound(0));
    assert Next(s1, ReadOutbound(0)) == st.(polls := [Read(1, 0, 0), Arrived(ONE)]);
  }

  lemma BothApplied(st: State)
    requires st == State(PLUGIN, Hub(1, [0, 0], {}, []), [IDLE, ONE], [Arrived(IDLE), Arrived(ONE)], [], ["e"], map[0 := 0, 1 := 0], []) && Reachable(st)
    ensures Reachable(st.(polls := [Read(1, 0, 0), Applied(1, 1)], hub := Hub(1, [0, 1], {}, []), effects := [Effect(1, 1, "e")]))
  {
    IdleApplied(st);
    var s2 := st.(polls := [Read(1, 0, 0), Arrived(ONE)]);
    assert SeqNos([Framed("e", 1)]) == [1] && [1][..0] == [];
    assert Classify(0, [1]) == Batch(1, [0], 0, 0);
    var effects := Accept(ONE, [0]);
    assert effects == [Effect(1, 1, "e")] && effects[..0] == [];
    assert Ingest(s2.hub, effects, {}) == s2.hub;
    ReachableNext(s2, Apply(1, {}));
  }

  // The other poll answers first, with the higher ack.
  lemma AnsweredLate(st: State)
    requires Reachable(st) && st.polls == [Read(1, 0, 0), Read(1, 1, 0)] && st.responses == []
    ensures exists last :: Reachable(last) && last.responses == [Response(1, 1), Response(1, 0)]
  {
    ReachableNext(st, Respond(1));
    var next := Next(st, Respond(1));
    assert next == st.(polls := [Read(1, 0, 0), Done], responses := [Response(1, 1)]);
    ReachableNext(next, Respond(0));
    assert Next(next, Respond(0)).responses == [Response(1, 1), Response(1, 0)];
  }

  /** Reading and writing are not one step, so an ack can be reported lower than one already
      given: a poll that read before another committed answers after it. */
  lemma AckReportedLower()
    ensures exists st :: Reachable(st) && st.responses == [Response(1, 1), Response(1, 0)]
  {
    TwoPollsArrive();
    var st := State(PLUGIN, Hub(1, [0, 0], {}, []), [IDLE, ONE], [Arrived(IDLE), Arrived(ONE)], [], ["e"], map[0 := 0, 1 := 0], []);
    BothApplied(st);
    var s1 := st.(polls := [Read(1, 0, 0), Applied(1, 1)], hub := Hub(1, [0, 1], {}, []), effects := [Effect(1, 1, "e")]);
    ReachableNext(s1, ReadOutbound(1));
    var s2 := Next(s1, ReadOutbound(1));
    assert s2 == s1.(polls := [Read(1, 0, 0), Read(1, 1, 0)]);
    AnsweredLate(s2);
  }
}
