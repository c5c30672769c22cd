/** hub/contexts.go: the broker between reads of a custom context's members and the plugin that is
    asked for them. */
module Enumerations {
  import opened Wrappers

  // One cacheable question: a context of one server under one manifest revision.
  datatype Key = Key(serverID: string, contextID: string, revision: int)

  datatype Enumeration = Enumeration(context: string, entries: string, reason: Option<string>, enumeratedAt: int)

  datatype Fault = Fault(path: string, message: string)

  datatype Error = Timeout | Invalid(faults: seq<Fault>) | NotAsked(message: string)

  // A context.entries envelope after body validation.
  datatype Prepared = Prepared(requestID: string, enumeration: Option<Enumeration>, faults: seq<Fault>)

  // A reply as it was delivered: by which server, and at what time of the poll that carried it.
  datatype Reply = Reply(serverID: string, prepared: Prepared, at: int)

  /** pendingEnumeration. `closed` is its one-shot done channel. */
  class Question {
    const key: Key
    const requestID: string
    const deadline: int
    var closed: bool
    var enumeration: Option<Enumeration>
    var err: Option<Error>

    constructor (key: Key, requestID: string, deadline: int)
      ensures this.key == key && this.requestID == requestID && this.deadline == deadline
      ensures !closed && enumeration.None? && err.None?
    {
      this.key, this.requestID, this.deadline := key, requestID, deadline;
      closed, enumeration, err := false, None, None;
    }
  }

  // How a reader's select ends.
  datatype Wake = Done | Timer | Left

  // What makes a reply the answer to a question.
  ghost predicate Answers(reply: Reply, question: Question, enumeration: Enumeration) {
    && reply.serverID == question.key.serverID
    && reply.prepared.requestID == question.requestID
    && reply.prepared.faults == []
    && reply.prepared.enumeration == Some(enumeration)
    && enumeration.context == question.key.contextID && enumeration.enumeratedAt == reply.at
    && reply.at < question.deadline
  }

  ghost predicate Registered(question: Question, id: string, inflight: map<Key, Question>, asked: map<string, Question>) {
    id in asked && asked[id] == question && question.key in inflight && inflight[question.key] == question
  }

  ghost predicate Filed(question: Question, key: Key, pending: map<string, Question>) {
    question.key == key && question.requestID in pending && pending[question.requestID] == question
  }

  // The two maps name the same open questions, one per key, each filed under its own id.
  ghost predicate Links(pending: map<string, Question>, inflight: map<Key, Question>, asked: map<string, Question>) {
    && (forall id :: id in asked ==> asked[id].requestID == id)
    && (forall id :: id in pending ==> Registered(pending[id], id, inflight, asked))
    && (forall key :: key in inflight ==> Filed(inflight[key], key, pending))
  }

  function Lookup<K, V>(m: map<K, V>, k: K): Option<V> {
    if k in m then Some(m[k]) else None
  }

  /** A question is closed exactly when it is no longer registered; once closed it has an answer or
      an error, never both, and an answer only from a reply that answers it. */
  ghost predicate Settled(question: Question, registered: bool, reply: Option<Reply>)
    reads question
  {
    && (question.closed <==> !registered)
    && (!question.closed ==> question.enumeration.None? && question.err.None?)
    && (question.closed ==> (question.enumeration.Some? <==> question.err.None?))
    && (question.enumeration.Some? ==> reply.Some? && Answers(reply.value, question, question.enumeration.value))
  }

  // A cached answer is one that a reply gave to a question of its own key.
  ghost predicate Kept(cache: map<Key, Enumeration>, origin: map<Key, (Question, Reply)>, asked: map<string, Question>) {
    forall key :: key in cache ==> key in origin && KeptFrom(key, cache[key], origin[key], asked)
  }

  ghost predicate KeptFrom(key: Key, held: Enumeration, origin: (Question, Reply), asked: map<string, Question>) {
    && origin.0.key == key && origin.0.requestID in asked && asked[origin.0.requestID] == origin.0
    && Answers(origin.1, origin.0, held)
  }

  lemma LinksForget(pending: map<string, Question>, inflight: map<Key, Question>, asked: map<string, Question>, question: Question)
    requires Links(pending, inflight, asked)
    requires question.requestID in pending && pending[question.requestID] == question
    ensures Links(Without(pending, question.requestID), Without(inflight, question.key), asked)
  {
    var open, keys := Without(pending, question.requestID), Without(inflight, question.key);
    forall id | id in open ensures Registered(open[id], id, keys, asked) {
      assert Registered(pending[id], id, inflight, asked) && Registered(question, question.requestID, inflight, asked);
    }
    forall key | key in keys ensures Filed(keys[key], key, open) {
      assert Filed(inflight[key], key, pending) && Registered(question, question.requestID, inflight, asked);
    }
  }

  lemma LinksJoin(pending: map<string, Question>, inflight: map<Key, Question>, asked: map<string, Question>, question: Question)
    requires Links(pending, inflight, asked)
    requires question.requestID !in asked && question.key !in inflight
    ensures Links(pending[question.requestID := question], inflight[question.key := question], asked[question.requestID := question])
  {
    var open, keys := pending[question.requestID := question], inflight[question.key := question];
    var all := asked[question.requestID := question];
    forall id | id in open ensures Registered(open[id], id, keys, all) {
      assert id in pending ==> Registered(pending[id], id, inflight, asked);
    }
    forall key | key in keys ensures Filed(keys[key], key, open) {
      assert key in inflight ==> Filed(inflight[key], key, pending) && Registered(inflight[key], inflight[key].requestID, inflight, asked);
    }
  }

  lemma LinkedIds(pending: map<string, Question>, inflight: map<Key, Question>, asked: map<string, Question>)
    requires Links(pending, inflight, asked)
    ensures forall id :: id in pending ==> pending[id].requestID == id && id in asked && asked[id] == pending[id]
  {
    forall id | id in pending ensures pending[id].requestID == id && id in asked && asked[id] == pending[id] {
      assert Registered(pending[id], id, inflight, asked);
    }
  }

  lemma KeptGrows(cache: map<Key, Enumeration>, origin: map<Key, (Question, Reply)>, asked: map<string, Question>, question: Question)
    requires Kept(cache, origin, asked) && question.requestID !in asked
    ensures Kept(cache, origin, asked[question.requestID := question])
  {
    forall key | key in cache ensures KeptFrom(key, cache[key], origin[key], asked[question.requestID := question]) {
      assert KeptFrom(key, cache[key], origin[key], asked);
    }
  }

  class Broker {
    var pending: map<string, Question>
    var inflight: map<Key, Question>
    var cache: map<Key, Enumeration>
    const ttl: int
    const timeout: int

    /** Every question ever asked, the reply each answered one accepted, and the question and reply
        each cached answer is from. */
    ghost var asked: map<string, Question>
    ghost var accepted: map<string, Reply>
    ghost var origin: map<Key, (Question, Reply)>

    ghost predicate Valid()
      reads this, asked.Values
    {
      && Links(pending, inflight, asked)
      && (forall id :: id in asked ==> Settled(asked[id], id in pending, Lookup(accepted, id)))
      && Kept(cache, origin, asked)
    }

    constructor (ttl: int, timeout: int)
      ensures Valid() && asked == map[] && this.ttl == ttl && this.timeout == timeout
    {
      pending, inflight, cache := map[], map[], map[];
      asked, accepted, origin := map[], map[], map[];
      this.ttl, this.timeout := ttl, timeout;
    }

    /** Closed is for good: every question stays asked, and a closed one keeps its outcome. */
    twostate predicate Progress()
      reads this, asked.Values
    {
      forall id :: id in old(asked) ==>
        && id in asked && asked[id] == old(asked[id])
        && (old(asked[id].closed) ==> asked[id].closed && asked[id].enumeration == old(asked[id].enumeration) && asked[id].err == old(asked[id].err))
    }

    method Cached(key: Key, now: int) returns (held: Option<Enumeration>)
      requires Valid()
      ensures held.Some? <==> key in cache && now - cache[key].enumeratedAt < ttl
      ensures held.Some? ==>
                && now - held.value.enumeratedAt < ttl
                && key in origin && origin[key].0.key == key && Answers(origin[key].1, origin[key].0, held.value)
                && now - origin[key].1.at < ttl
    {
      if key in cache && now - cache[key].enumeratedAt < ttl {
        return Some(cache[key]);
      }
      held := None;
    }

    method Forget(question: Question)
      requires Links(pending, inflight, asked) && question.requestID in pending && pending[question.requestID] == question
      modifies this`pending, this`inflight
      ensures Links(pending, inflight, asked)
      ensures pending == Without(old(pending), question.requestID) && inflight == Without(old(inflight), question.key)
    {
      LinksForget(pending, inflight, asked, question);
      pending := Without(pending, question.requestID);
      if question.key in inflight && inflight[question.key] == question {
        inflight := Without(inflight, question.key);
      }
    }

    // Closes a registered question with an error: the ending of sweep, abandon and expire.
    method Fail(question: Question, err: Error)
      requires Valid() && question.requestID in pending && pending[question.requestID] == question
      modifies this`pending, this`inflight, question
      ensures Valid() && question.closed && question.err == Some(err) && question.enumeration.None?
      ensures pending == Without(old(pending), question.requestID)
    {
      assert Settled(question, question.requestID in pending, Lookup(accepted, question.requestID));
      question.err := Some(err);
      Forget(question);
      question.closed := true;
      forall id | id in asked ensures Settled(asked[id], id in pending, Lookup(accepted, id)) {
        assert old(Settled(asked[id], id in pending, Lookup(accepted, id)));
      }
    }

    /** Every question whose deadline has passed is closed with the timeout; the rest stay open. */
    method Sweep(now: int)
      requires Valid()
      modifies this`pending, this`inflight, pending.Values
      ensures Valid() && Progress() && pending == Unexpired(old(pending), now)
      ensures forall id :: id in pending <==> id in old(pending) && now < old(pending)[id].deadline
      ensures forall id :: id in pending ==> pending[id] == old(pending)[id]
      ensures forall id :: id in old(pending) && id !in pending ==> asked[id].err == Some(Timeout)
    {
      forall id | id in asked && asked[id].closed ensures asked[id] !in pending.Values {
        assert Settled(asked[id], id in pending, Lookup(accepted, id));
      }
      SweepAll(now);
    }

    method SweepAll(now: int)
      requires Valid()
      modifies this`pending, this`inflight, pending.Values
      ensures Valid() && pending == Unexpired(old(pending), now)
      ensures forall id :: id in old(pending) && id !in pending ==> asked[id].err == Some(Timeout)
    {
      ghost var before := pending;
      LinkedIds(pending, inflight, asked);
      var ids := pending.Keys;
      while ids != {}
        invariant Valid() && ids <= before.Keys && Swept(before, ids, now)
        decreases ids
      {
        var id :| id in ids;
        SweepOne(id, now, before, ids);
        ids := ids - {id};
      }
    }

    // A sweep of `before` with some ids still to visit: what it dropped, it failed.
    ghost predicate Swept(before: map<string, Question>, ids: set<string>, now: int)
      reads this, before.Values
    {
      && pending == Unswept(before, ids, now)
      && (forall id :: id in before ==> before[id].requestID == id)
      && (forall id :: id in before && id !in pending ==> before[id].err == Some(Timeout))
    }

    method SweepOne(id: string, now: int, ghost before: map<string, Question>, ghost ids: set<string>)
      requires Valid() && ids <= before.Keys && id in ids && Swept(before, ids, now)
      modifies this`pending, this`inflight, before[id]
      ensures Valid() && Swept(before, ids - {id}, now)
    {
      UnsweptStep(before, ids, id, now);
      var stale := pending[id];
      if now < stale.deadline {
        return;
      }
      Fail(stale, Timeout);
    }

    /** The question in flight for a key, or a new one under an id never used. */
    method Join(key: Key, now: int, id: string) returns (question: Question, started: bool)
      requires Valid() && id !in asked
      modifies this`pending, this`inflight, this`asked, pending.Values
      ensures Valid() && Progress()
      ensures question.key == key && !question.closed
      ensures key in inflight && inflight[key] == question
      ensures !started ==> key in old(inflight) && question == old(inflight)[key] && now < question.deadline &&
                           pending == Unexpired(old(pending), now) && asked == old(asked)
      ensures started ==> fresh(question) && question.requestID == id && question.deadline == now + timeout &&
                          pending == Unexpired(old(pending), now)[id := question] && asked == old(asked)[id := question]
      ensures started <==> !(key in old(inflight) && now < old(inflight)[key].deadline)
    {
      Sweep(now);
      if key in inflight {
        question, started := inflight[key], false;
        assert Settled(question, true, Lookup(accepted, question.requestID));
        return;
      }
      question := Open(key, id, now + timeout);
      started := true;
    }

    // Registers a new question.
    method Open(key: Key, id: string, deadline: int) returns (question: Question)
      requires Valid() && id !in asked && key !in inflight
      modifies this`pending, this`inflight, this`asked
      ensures Valid() && fresh(question) && !question.closed
      ensures question.key == key && question.requestID == id && question.deadline == deadline
      ensures pending == old(pending)[id := question] && inflight == old(inflight)[key := question]
      ensures asked == old(asked)[id := question]
    {
      question := new Question(key, id, deadline);
      LinksJoin(pending, inflight, asked, question);
      KeptGrows(cache, origin, asked, question);
      pending := pending[id := question];
      inflight := inflight[key := question];
      asked := asked[id := question];
      forall other | other in asked ensures Settled(asked[other], other in pending, Lookup(accepted, other)) {
        assert other != id ==> old(Settled(asked[other], other in pending, Lookup(accepted, other)));
      }
    }

    method Abandon(question: Question, err: Error)
      requires Valid() && question.requestID in asked && asked[question.requestID] == question
      modifies this`pending, this`inflight, question
      ensures Valid() && Progress() && question.closed
      ensures !old(question.closed) ==> question.err == Some(err)
    {
      assert Settled(question, question.requestID in pending, Lookup(accepted, question.requestID));
      if question.requestID !in pending || pending[question.requestID] != question {
        return;
      }
      Fail(question, err);
    }

    /** Afterwards the question is closed, whoever closed it, so a wait on it does not block. */
    method Expire(question: Question)
      requires Valid() && question.requestID in asked && asked[question.requestID] == question
      modifies this`pending, this`inflight, question
      ensures Valid() && Progress() && question.closed
      ensures !old(question.closed) ==> question.err == Some(Timeout)
    {
      assert Settled(question, question.requestID in pending, Lookup(accepted, question.requestID));
      if question.requestID !in pending || pending[question.requestID] != question {
        return;
      }
      Fail(question, Timeout);
    }

    /** Answers past the bound are dropped, and no other. */
    method Prune(now: int)
      modifies this`cache
      ensures forall key :: key in cache <==> key in old(cache) && now - old(cache)[key].enumeratedAt < ttl
      ensures forall key :: key in cache ==> cache[key] == old(cache)[key]
      ensures cache == Young(old(cache), now, ttl)
    {
      var keys := cache.Keys;
      while keys != {}
        invariant keys <= cache.Keys <= old(cache.Keys)
        invariant forall key :: key in cache ==> cache[key] == old(cache)[key] && (key in keys || now - cache[key].enumeratedAt < ttl)
        invariant forall key :: key in old(cache) && key !in cache ==> now - old(cache)[key].enumeratedAt >= ttl
        decreases |keys|
      {
        var key :| key in keys;
        keys := keys - {key};
        if now - cache[key].enumeratedAt >= ttl {
          cache := Without(cache, key);
        }
      }
    }

    /** Hands a reply to the question it echoes. False for a reply nobody is waiting on: an unknown
        or timed-out id, or another server's. */
    method Deliver(serverID: string, prepared: Prepared, now: int) returns (matched: bool)
      requires Valid() && (prepared.faults == [] ==> prepared.enumeration.Some? && prepared.enumeration.value.enumeratedAt == now)
      modifies this`pending, this`inflight, this`cache, this`accepted, this`origin, pending.Values
      ensures Valid() && Progress()
      ensures var open := Unexpired(old(pending), now);
              && (matched <==> prepared.requestID in open && open[prepared.requestID].key.serverID == serverID)
              && pending == if matched then Without(open, prepared.requestID) else open
      ensures !matched ==> cache == old(cache)
      ensures matched ==> Outcome(old(pending)[prepared.requestID], prepared, now, old(cache))
    {
      Sweep(now);
      if prepared.requestID !in pending || pending[prepared.requestID].key.serverID != serverID {
        return false;
      }
      Close(pending[prepared.requestID], Reply(serverID, prepared, now));
      matched := true;
    }

    // A reply that echoes the context is the answer, and cached; any other fails the question.
    ghost predicate Outcome(question: Question, prepared: Prepared, now: int, before: map<Key, Enumeration>)
      reads this, question
    {
      if prepared.faults == [] && prepared.enumeration.Some? && prepared.enumeration.value.context == question.key.contextID
      then question.enumeration == prepared.enumeration && cache == Young(before, now, ttl)[question.key := prepared.enumeration.value]
      else && question.err == Some(Invalid(if prepared.faults != [] then prepared.faults else [Fault("context", "the reply echoes another context")]))
           && cache == before
    }

    method Close(question: Question, reply: Reply)
      requires Valid() && question.requestID in pending && pending[question.requestID] == question
      requires reply.prepared.requestID == question.requestID && reply.serverID == question.key.serverID
      requires reply.at < question.deadline
      requires reply.prepared.faults == [] ==>
                 reply.prepared.enumeration.Some? && reply.prepared.enumeration.value.enumeratedAt == reply.at
      modifies this`pending, this`inflight, this`cache, this`accepted, this`origin, question
      ensures Valid() && Progress() && question.closed && Outcome(question, reply.prepared, reply.at, old(cache))
      ensures pending == Without(old(pending), question.requestID)
    {
      assert Settled(question, true, Lookup(accepted, question.requestID));
      if reply.prepared.faults != [] {
        Fail(question, Invalid(reply.prepared.faults));
      } else if reply.prepared.enumeration.value.context != question.key.contextID {
        Fail(question, Invalid([Fault("context", "the reply echoes another context")]));
      } else {
        Answer(question, reply);
      }
    }

    // Closes a registered question with the answer its reply carries, and caches it.
    method Answer(question: Question, reply: Reply)
      requires Valid() && question.requestID in pending && pending[question.requestID] == question
      requires reply.prepared.enumeration.Some? && Answers(reply, question, reply.prepared.enumeration.value)
      modifies this`pending, this`inflight, this`cache, this`accepted, this`origin, question
      ensures Valid() && question.closed && question.enumeration == reply.prepared.enumeration
      ensures pending == Without(old(pending), question.requestID)
      ensures cache == Young(old(cache), reply.at, ttl)[question.key := reply.prepared.enumeration.value]
    {
      Record(question, reply);
      label L:
      Forget(question);
      question.closed := true;
      forall id | id in asked ensures Settled(asked[id], id in pending, Lookup(accepted, id)) {
        assert id != question.requestID ==> old@L(Settled(asked[id], id in pending, Lookup(accepted, id)));
      }
    }

    ghost predicate OthersSettled(question: Question)
      reads this, asked.Values
    {
      forall id :: id in asked && asked[id] != question ==> Settled(asked[id], id in pending, Lookup(accepted, id))
    }

    method Record(question: Question, reply: Reply)
      requires Valid() && question.requestID in pending && pending[question.requestID] == question
      requires reply.prepared.enumeration.Some? && Answers(reply, question, reply.prepared.enumeration.value)
      modifies this`cache, this`accepted, this`origin, question
      ensures Kept(cache, origin, asked) && OthersSettled(question) && accepted == old(accepted)[question.requestID := reply]
      ensures question.enumeration == reply.prepared.enumeration && question.err.None?
      ensures cache == Young(old(cache), reply.at, ttl)[question.key := reply.prepared.enumeration.value]
    {
      assert Settled(question, true, Lookup(accepted, question.requestID));
      question.enumeration := reply.prepared.enumeration;
      accepted := accepted[question.requestID := reply];
      Keep(question, reply);
    }

    method Keep(question: Question, reply: Reply)
      requires Kept(cache, origin, asked) && question.requestID in asked && asked[question.requestID] == question
      requires reply.prepared.enumeration.Some? && Answers(reply, question, reply.prepared.enumeration.value)
      modifies this`cache, this`origin
      ensures Kept(cache, origin, asked)
      ensures cache == Young(old(cache), reply.at, ttl)[question.key := reply.prepared.enumeration.value]
    {
      Prune(reply.at);
      cache := cache[question.key := reply.prepared.enumeration.value];
      origin := origin[question.key := (question, reply)];
    }

    /** The select of handleEnumerateContext. A reader that did not leave finds the question
        closed, with its answer or its error: after an expiry the wait cannot block. */
    method Await(question: Question, wake: Wake) returns (outcome: Option<Result<Enumeration, Error>>)
      requires Valid() && question.requestID in asked && asked[question.requestID] == question
      requires wake.Done? ==> question.closed
      modifies this`pending, this`inflight, question
      ensures Valid() && Progress()
      ensures outcome.None? <==> wake.Left?
      ensures outcome.Some? ==> question.closed
      ensures outcome.Some? && outcome.value.Success? ==>
                && question.requestID in accepted
                && Answers(accepted[question.requestID], question, outcome.value.value)
      ensures outcome.Some? && outcome.value.Failure? ==> question.err == Some(outcome.value.error)
    {
      if wake.Left? {
        return None;
      }
      if wake.Timer? {
        Expire(question);
      }
      assert Settled(question, question.requestID in pending, Lookup(accepted, question.requestID));
      outcome := Some(if question.err.None? then Success(question.enumeration.value) else Failure(question.err.value));
    }
  }

  // What a sweep has left with some ids still to visit.
  function Unswept(pending: map<string, Question>, ids: set<string>, now: int): map<string, Question> {
    map id | id in pending && (id in ids || now < pending[id].deadline) :: pending[id]
  }

  lemma UnsweptStep(pending: map<string, Question>, ids: set<string>, id: string, now: int)
    requires id in ids && id in Unswept(pending, ids, now)
    ensures Unswept(pending, ids - {id}, now) ==
            if now < pending[id].deadline then Unswept(pending, ids, now) else Without(Unswept(pending, ids, now), id)
  {
  }

  function Unexpired(pending: map<string, Question>, now: int): map<string, Question> {
    map id | id in pending && now < pending[id].deadline :: pending[id]
  }

  function Young(cache: map<Key, Enumeration>, now: int, ttl: int): map<Key, Enumeration> {
    map key | key in cache && now - cache[key].enumeratedAt < ttl :: cache[key]
  }

  /** At most one question per key is ever open. */
  lemma OneOpenPerKey(broker: Broker, id: string, other: string)
    requires broker.Valid() && id in broker.asked && other in broker.asked
    requires !broker.asked[id].closed && !broker.asked[other].closed && broker.asked[id].key == broker.asked[other].key
    ensures id == other
  {
    assert Settled(broker.asked[id], id in broker.pending, Lookup(broker.accepted, id));
    assert Settled(broker.asked[other], other in broker.pending, Lookup(broker.accepted, other));
    assert Registered(broker.pending[id], id, broker.inflight, broker.asked);
    assert Registered(broker.pending[other], other, broker.inflight, broker.asked);
  }

  // ---- Validating a reply ----

  const MAX_CONTEXT_ENTRIES: nat := 5000
  const MAX_CONTEXT_ENTRIES_BYTES: nat := 262144
  const MAX_CONTEXT_REQUEST_ID: nat := 128
  const MAX_CONTEXT_ENTRY_KEY: nat := 128
  const MAX_CONTEXT_ENTRY_LABEL: nat := 200
  const MAX_CONTEXT_ID_LENGTH: nat := 64

  // A decoded context.entries body; a member of the wrong JSON type decodes to None, and the
  // faults of an entry's position and data come from validators outside this model.
  datatype Entry = Entry(referenceKey: string, displayLabel: Option<string>, positionFaults: seq<Fault>, dataFaults: seq<Fault>)
  datatype EntryList = Missing | Malformed | Listed(raw: string, entries: seq<Entry>)
  datatype Reason = Absent | Text(text: string) | NotText
  datatype Body = Body(size: nat, requestID: Option<string>, context: Option<string>, entries: EntryList, reason: Reason)

  predicate Within(text: Option<string>, limit: nat) {
    text.Some? && text.value != "" && |text.value| <= limit
  }

  predicate EntryConforms(entry: Entry) {
    && Within(Some(entry.referenceKey), MAX_CONTEXT_ENTRY_KEY)
    && entry.displayLabel.Some? && |entry.displayLabel.value| <= MAX_CONTEXT_ENTRY_LABEL
    && entry.positionFaults == [] && entry.dataFaults == []
  }

  // The bounds on a reply, section 6.2 of the protocol specification (spec/protocol.md).
  predicate Conforms(body: Body) {
    && Within(body.requestID, MAX_CONTEXT_REQUEST_ID)
    && body.size <= MAX_CONTEXT_ENTRIES_BYTES
    && Within(body.context, MAX_CONTEXT_ID_LENGTH)
    && body.entries.Listed? && |body.entries.entries| <= MAX_CONTEXT_ENTRIES
    && (forall entry :: entry in body.entries.entries ==> EntryConforms(entry))
    && !body.reason.NotText?
  }

  /** Faults or an enumeration, never both and never neither; an enumeration exactly for a body
      within the bounds; and the request id whenever the hub could have assigned it, so the reader
      waiting on it is failed at once rather than left to time out. */
  method ValidateContextEntries(body: Option<Body>, now: int) returns (prepared: Prepared)
    ensures prepared.faults == [] <==> prepared.enumeration.Some?
    ensures prepared.enumeration.Some? <==> body.Some? && Conforms(body.value)
    ensures prepared.enumeration.Some? ==>
              prepared.enumeration.value.context == body.value.context.value &&
              prepared.enumeration.value.entries == body.value.entries.raw &&
              prepared.enumeration.value.reason == (if body.value.reason.Text? then Some(body.value.reason.text) else None) &&
              prepared.enumeration.value.enumeratedAt == now
    ensures prepared.requestID ==
            if body.Some? && Within(body.value.requestID, MAX_CONTEXT_REQUEST_ID) then body.value.requestID.value else ""
  {
    if body.None? {
      return Prepared("", None, [Fault("", "shape")]);
    }
    var b := body.value;
    if !Within(b.requestID, MAX_CONTEXT_REQUEST_ID) {
      return Prepared("", None, [Fault("requestId", "required")]);
    }
    var id := b.requestID.value;
    if b.size > MAX_CONTEXT_ENTRIES_BYTES {
      return Prepared(id, None, [Fault("", "too large")]);
    }
    var faults: seq<Fault> := [];
    if !Within(b.context, MAX_CONTEXT_ID_LENGTH) {
      faults := faults + [Fault("context", "echo")];
    }
    if !b.entries.Listed? {
      return Prepared(id, None, faults + [Fault("entries", "required")]);
    }
    var entries := b.entries.entries;
    if |entries| > MAX_CONTEXT_ENTRIES {
      return Prepared(id, None, faults + [Fault("entries", "too many")]);
    }
    for i := 0 to |entries|
      invariant faults == [] <==> Within(b.context, MAX_CONTEXT_ID_LENGTH) && forall k :: 0 <= k < i ==> EntryConforms(entries[k])
    {
      var entry := entries[i];
      if entry.referenceKey == "" || |entry.referenceKey| > MAX_CONTEXT_ENTRY_KEY {
        faults := faults + [Fault("referenceKey", "length")];
      }
      if entry.displayLabel.None? {
        faults := faults + [Fault("label", "required")];
      } else if |entry.displayLabel.value| > MAX_CONTEXT_ENTRY_LABEL {
        faults := faults + [Fault("label", "length")];
      }
      faults := faults + entry.positionFaults;
      faults := faults + entry.dataFaults;
    }
    if b.reason.NotText? {
      faults := faults + [Fault("reason", "type")];
    }
    if faults != [] {
      return Prepared(id, None, faults);
    }
    var reason := if b.reason.Text? then Some(b.reason.text) else None;
    prepared := Prepared(id, Some(Enumeration(b.context.value, b.entries.raw, reason, now)), []);
  }
}
