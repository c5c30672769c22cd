/** hub/action.go, hub/store/actions.go and hub/store/manifests.go: dispatches racing manifest
    publishes and one another. Every store call is one atomic step. */
module Dispatch {
  import opened Wrappers

  // The schema an action declares, as the params it accepts; Broken when it no longer compiles.
  datatype Schema = NoSchema | Schema(accepts: iset<string>) | Broken

  datatype Declaration = Declaration(code: string, schema: Schema)

  datatype Manifest = Manifest(revision: int, actions: seq<Declaration>)

  datatype Verdict = Valid(revision: int) | Unpublished | Undeclared | ParamsInvalid | SchemaBroken

  // Declares the code, and its first declaration accepts the params.
  ghost predicate Approves(manifest: Manifest, code: string, params: string) {
    exists i :: 0 <= i < |manifest.actions| && FirstDeclares(manifest, i, code) && Accepts(manifest.actions[i].schema, params)
  }

  predicate FirstDeclares(manifest: Manifest, i: nat, code: string)
    requires i < |manifest.actions|
  {
    manifest.actions[i].code == code && forall j :: 0 <= j < i ==> manifest.actions[j].code != code
  }

  predicate Accepts(schema: Schema, params: string) {
    schema.NoSchema? || (schema.Schema? && params in schema.accepts)
  }

  // What validateDispatch answers for a stored manifest.
  function Judge(stored: Option<Manifest>, code: string, params: string): (verdict: Verdict) {
    if stored.None? then Unpublished
    else
      match Find(stored.value.actions, code)
      case None => Undeclared
      case Some(NoSchema) => Valid(stored.value.revision)
      case Some(Broken) => SchemaBroken
      case Some(Schema(accepts)) => if params in accepts then Valid(stored.value.revision) else ParamsInvalid
  }

  function Find(actions: seq<Declaration>, code: string): (schema: Option<Schema>) {
    if actions == [] then None
    else if actions[0].code == code then Some(actions[0].schema)
    else Find(actions[1..], code)
  }

  lemma {:induction false} FindsFirst(actions: seq<Declaration>, code: string, i: nat)
    requires i <= |actions| && forall j :: 0 <= j < i ==> actions[j].code != code
    ensures Find(actions, code) ==
            if i == |actions| then None else if actions[i].code == code then Some(actions[i].schema) else Find(actions[i + 1..], code)
    decreases i
  {
    if i > 0 {
      FindsFirst(actions[1..], code, i - 1);
    }
  }

  /** validateDispatch's search. A dispatch passes exactly when the stored manifest approves it. */
  method ValidateDispatch(stored: Option<Manifest>, code: string, params: string) returns (verdict: Verdict)
    ensures verdict == Judge(stored, code, params)
    ensures verdict.Valid? <==> stored.Some? && Approves(stored.value, code, params)
    ensures verdict.Valid? ==> verdict.revision == stored.value.revision
  {
    if stored.None? {
      return Unpublished;
    }
    var manifest := stored.value;
    var i := 0;
    while i < |manifest.actions| && manifest.actions[i].code != code
      invariant 0 <= i <= |manifest.actions|
      invariant forall j :: 0 <= j < i ==> manifest.actions[j].code != code
    {
      i := i + 1;
    }
    FindsFirst(manifest.actions, code, i);
    if i == |manifest.actions| {
      return Undeclared;
    }
    assert FirstDeclares(manifest, i, code);
    OneDeclares(manifest, i, code);
    match manifest.actions[i].schema {
      case NoSchema => verdict := Valid(manifest.revision);
      case Broken => verdict := SchemaBroken;
      case Schema(accepts) => verdict := if params in accepts then Valid(manifest.revision) else ParamsInvalid;
    }
  }

  lemma OneDeclares(manifest: Manifest, i: nat, code: string)
    requires i < |manifest.actions| && FirstDeclares(manifest, i, code)
    ensures forall j :: 0 <= j < |manifest.actions| && FirstDeclares(manifest, j, code) ==> j == i
  {
  }

  lemma {:induction false} FoundIsFirst(actions: seq<Declaration>, code: string) returns (i: nat)
    ensures i <= |actions| && forall j :: 0 <= j < i ==> actions[j].code != code
    ensures i < |actions| ==> actions[i].code == code && Find(actions, code) == Some(actions[i].schema)
    ensures i == |actions| ==> Find(actions, code) == None
  {
    if actions == [] || actions[0].code == code {
      i := 0;
    } else {
      i := FoundIsFirst(actions[1..], code);
      i := i + 1;
    }
  }

  lemma ValidIsApproved(manifest: Manifest, code: string, params: string)
    requires Judge(Some(manifest), code, params).Valid?
    ensures Judge(Some(manifest), code, params).revision == manifest.revision && Approves(manifest, code, params)
  {
    var i := FoundIsFirst(manifest.actions, code);
    assert FirstDeclares(manifest, i, code);
  }

  // ---- The retry loop ----

  datatype Stored = Created(id: string) | Existing(id: string, code: string) | ManifestChanged | QueueFull

  datatype Answer = Accepted(id: string) | Forbidden | Refused(verdict: Verdict) | Conflict | OutboundQueueFull

  // What one round is told: by its validation, and by the store if it gets that far.
  datatype Round = Round(verdict: Verdict, stored: Stored)

  predicate Retries(round: Round) {
    round.verdict.Valid? && round.stored.ManifestChanged?
  }

  // What an answer says of the round that gave it: a new action or a replay the caller may dispatch,
  // a replay it may not, or the refusal of that round's validation or store.
  ghost predicate AnswerOf(round: Round, may: iset<string>, answer: Answer) {
    match answer
    case Accepted(id) => round.verdict.Valid? &&
      (round.stored == Created(id) || exists code :: code in may && round.stored == Existing(id, code))
    case Forbidden => round.verdict.Valid? && round.stored.Existing? && round.stored.code !in may
    case Refused(verdict) => round.verdict == verdict && !verdict.Valid?
    case Conflict => Retries(round)
    case OutboundQueueFull => round.verdict.Valid? && round.stored.QueueFull?
  }

  // A round gives one answer.
  lemma OneAnswer(round: Round, may: iset<string>, answer: Answer, other: Answer)
    requires AnswerOf(round, may, answer) && AnswerOf(round, may, other)
    ensures answer == other
  {
  }

  /** The loop of handleDispatchAction. It settles on the first round that neither fails to
      validate nor loses to a publish, and gives up exactly when the first three all lose: one
      round more than the comment above it says. */
  method RetryLoop(rounds: seq<Round>, may: iset<string>) returns (answer: Answer, validations: nat)
    requires |rounds| >= 3
    ensures 1 <= validations <= 3
    ensures forall k :: 0 <= k < validations - 1 ==> Retries(rounds[k])
    ensures AnswerOf(rounds[validations - 1], may, answer)
    ensures answer.Conflict? ==> validations == 3
  {
    validations := 0;
    var attempt := 0;
    while true
      invariant attempt == validations <= 2
      invariant forall k :: 0 <= k < attempt ==> Retries(rounds[k])
      decreases 3 - attempt
    {
      var round := rounds[attempt];
      validations := validations + 1;
      if !round.verdict.Valid? {
        return Refused(round.verdict), validations;
      }
      match round.stored {
        case ManifestChanged =>
          if attempt < 2 {
            attempt := attempt + 1;
          } else {
            return Conflict, validations;
          }
        case QueueFull => return OutboundQueueFull, validations;
        case Existing(id, code) => return if code in may then Accepted(id) else Forbidden, validations;
        case Created(id) => return Accepted(id), validations;
      }
    }
  }

  // ---- Dispatches and publishes, interleaved ----

  datatype Request = Request(server: string, code: string, params: string, key: string, may: iset<string>)

  datatype Action = Action(server: string, code: string, params: string, key: string)

  /** A dispatch request in progress. `attempt` counts the rounds already lost. */
  datatype Thread =
    | Started(request: Request)
    | Validating(request: Request, attempt: nat)
    | Ready(request: Request, attempt: nat, revision: int)
    | Answered(request: Request, answer: Answer)

  /** `published` is every manifest a server ever had, by revision: history, read by no step. */
  datatype State = State(
    manifests: map<string, Manifest>,
    actions: map<string, Action>,
    threads: seq<Thread>,
    published: map<(string, int), Manifest>)

  datatype Step =
    | Publish(server: string, manifest: Manifest)
    | Arrive(request: Request)
    | Lookup(thread: nat)                       // the scope check, then ActionByIdempotencyKey
    | Validate(thread: nat)
    | Store(thread: nat, id: string, full: bool) // DispatchAction with a fresh id

  const START := State(map[], map[], [], map[])

  ghost predicate Binds(actions: map<string, Action>, id: string, server: string, key: string) {
    key != "" && id in actions && actions[id].server == server && actions[id].key == key
  }

  ghost predicate Bound(actions: map<string, Action>, server: string, key: string) {
    exists id :: Binds(actions, id, server, key)
  }

  // answerIdempotentReplay.
  ghost function Replay(st: State, request: Request): Thread
    requires Bound(st.actions, request.server, request.key)
  {
    var id :| Binds(st.actions, id, request.server, request.key);
    Answered(request, if st.actions[id].code in request.may then Accepted(id) else Forbidden)
  }

  ghost function Stepped(st: State, i: nat, thread: Thread): State
    requires i < |st.threads|
  {
    st.(threads := st.threads[i := thread])
  }

  ghost function Looked(st: State, request: Request): Thread {
    if request.code !in request.may then Answered(request, Forbidden)
    else if Bound(st.actions, request.server, request.key) then Replay(st, request)
    else Validating(request, 0)
  }

  ghost function Validated(st: State, thread: Thread): Thread
    requires thread.Validating?
  {
    var request := thread.request;
    var stored := if request.server in st.manifests then Some(st.manifests[request.server]) else None;
    match Judge(stored, request.code, request.params)
    case Valid(revision) => Ready(request, thread.attempt, revision)
    case verdict => Answered(request, Refused(verdict))
  }

  ghost predicate Inserts(st: State, thread: Thread, id: string, full: bool)
    requires thread.Ready?
  {
    && thread.request.server in st.manifests && st.manifests[thread.request.server].revision == thread.revision
    && !Bound(st.actions, thread.request.server, thread.request.key) && !full && id !in st.actions
  }

  ghost function Dispatched(st: State, thread: Thread, id: string, full: bool): Thread
    requires thread.Ready?
  {
    var request := thread.request;
    if request.server !in st.manifests || st.manifests[request.server].revision != thread.revision then
      if thread.attempt < 2 then Validating(request, thread.attempt + 1) else Answered(request, Conflict)
    else if Bound(st.actions, request.server, request.key) then Replay(st, request)
    else if full then Answered(request, OutboundQueueFull)
    else if id in st.actions then thread
    else Answered(request, Accepted(id))
  }

  ghost function Next(st: State, step: Step): State {
    match step
    case Publish(server, manifest) =>
      if server in st.manifests && manifest.revision <= st.manifests[server].revision then st
      else st.(manifests := st.manifests[server := manifest], published := st.published[(server, manifest.revision) := manifest])
    case Arrive(request) => st.(threads := st.threads + [Started(request)])
    case Lookup(i) =>
      if i < |st.threads| && st.threads[i].Started? then Stepped(st, i, Looked(st, st.threads[i].request)) else st
    case Validate(i) =>
      if i < |st.threads| && st.threads[i].Validating? then Stepped(st, i, Validated(st, st.threads[i])) else st
    case Store(i, id, full) =>
      if i < |st.threads| && st.threads[i].Ready? then
        var thread, request := st.threads[i], st.threads[i].request;
        var moved := Stepped(st, i, Dispatched(st, thread, id, full));
        if Inserts(st, thread, id, full) then
          moved.(actions := st.actions[id := Action(request.server, request.code, request.params, request.key)])
        else moved
      else st
  }

  ghost function Run(steps: seq<Step>): State {
    if steps == [] then START else Next(Run(steps[..|steps| - 1]), steps[|steps| - 1])
  }

  // ---- The invariant ----

  // A revision of a server names one manifest, and none stored before is above the stored one.
  ghost predicate ManifestsInv(st: State) {
    && (forall server :: server in st.manifests ==>
          (server, st.manifests[server].revision) in st.published &&
          st.published[(server, st.manifests[server].revision)] == st.manifests[server])
    && (forall at :: at in st.published ==> at.0 in st.manifests && at.1 <= st.manifests[at.0].revision)
  }

  ghost predicate KeysInv(actions: map<string, Action>) {
    forall id, other, server, key :: Binds(actions, id, server, key) && Binds(actions, other, server, key) ==> id == other
  }

  // An accepted answer names an action the caller may dispatch: the one its key names, or its own.
  ghost predicate AnswerInv(actions: map<string, Action>, request: Request, id: string) {
    && id in actions && actions[id].server == request.server && actions[id].code in request.may
    && actions[id].key == request.key
    && (request.key == "" ==> actions[id] == Action(request.server, request.code, request.params, ""))
  }

  ghost predicate ThreadInv(st: State, thread: Thread) {
    match thread
    case Started(_) => true
    case Validating(request, attempt) => request.code in request.may && attempt <= 2
    case Ready(request, attempt, revision) =>
      && request.code in request.may && attempt <= 2
      && (request.server, revision) in st.published
      && Approves(st.published[(request.server, revision)], request.code, request.params)
    case Answered(request, answer) => answer.Accepted? ==> AnswerInv(st.actions, request, answer.id)
  }

  ghost predicate Inv(st: State) {
    && ManifestsInv(st)
    && KeysInv(st.actions)
    && forall i :: 0 <= i < |st.threads| ==> ThreadInv(st, st.threads[i])
  }

  lemma ThreadStays(before: State, after: State, thread: Thread)
    requires ThreadInv(before, thread)
    requires forall at :: at in before.published ==> at in after.published && after.published[at] == before.published[at]
    requires forall id :: id in before.actions ==> id in after.actions && after.actions[id] == before.actions[id]
    ensures ThreadInv(after, thread)
  {
  }

  lemma PublishKeeps(st: State, server: string, manifest: Manifest)
    requires Inv(st)
    ensures Inv(Next(st, Publish(server, manifest)))
  {
    var next := Next(st, Publish(server, manifest));
    if next != st {
      assert (server, manifest.revision) !in st.published;
      forall i | 0 <= i < |st.threads| ensures ThreadInv(next, st.threads[i]) {
        ThreadStays(st, next, st.threads[i]);
      }
    }
  }

  // A step of one thread that stores nothing.
  lemma StepKeeps(st: State, i: nat, thread: Thread)
    requires Inv(st) && i < |st.threads| && ThreadInv(st, thread)
    ensures Inv(Stepped(st, i, thread))
  {
    var next := Stepped(st, i, thread);
    forall k | 0 <= k < |next.threads| ensures ThreadInv(next, next.threads[k]) {
      assert k != i ==> ThreadInv(st, st.threads[k]);
      ThreadStays(st, next, next.threads[k]);
    }
  }

  lemma ReplayAnswers(st: State, request: Request)
    requires Bound(st.actions, request.server, request.key)
    ensures ThreadInv(st, Replay(st, request))
  {
  }

  lemma InsertKeepsKeys(actions: map<string, Action>, id: string, action: Action)
    requires KeysInv(actions) && id !in actions && !Bound(actions, action.server, action.key)
    ensures KeysInv(actions[id := action])
  {
    var after := actions[id := action];
    forall a, b, server, key | Binds(after, a, server, key) && Binds(after, b, server, key) ensures a == b {
      assert a != id ==> Binds(actions, a, server, key);
      assert b != id ==> Binds(actions, b, server, key);
    }
  }

  lemma StoreKeeps(st: State, i: nat, id: string, full: bool)
    requires Inv(st) && i < |st.threads| && st.threads[i].Ready?
    ensures Inv(Next(st, Store(i, id, full)))
  {
    var thread, request := st.threads[i], st.threads[i].request;
    assert ThreadInv(st, thread);
    if Inserts(st, thread, id, full) {
      var next := Next(st, Store(i, id, full));
      InsertKeepsKeys(st.actions, id, next.actions[id]);
      forall k | 0 <= k < |next.threads| ensures ThreadInv(next, next.threads[k]) {
        if k != i {
          ThreadStays(st, next, st.threads[k]);
        }
      }
    } else {
      if Bound(st.actions, request.server, request.key) {
        ReplayAnswers(st, request);
      }
      StepKeeps(st, i, Dispatched(st, thread, id, full));
    }
  }

  lemma NextKeeps(st: State, step: Step)
    requires Inv(st)
    ensures Inv(Next(st, step))
  {
    match step
    case Publish(server, manifest) => PublishKeeps(st, server, manifest);
    case Arrive(request) =>
      forall k | 0 <= k < |st.threads| ensures ThreadInv(Next(st, step), st.threads[k]) {
        ThreadStays(st, Next(st, step), st.threads[k]);
      }
    case Lookup(i) =>
      if i < |st.threads| && st.threads[i].Started? {
        if Bound(st.actions, st.threads[i].request.server, st.threads[i].request.key) {
          ReplayAnswers(st, st.threads[i].request);
        }
        StepKeeps(st, i, Looked(st, st.threads[i].request));
      }
    case Validate(i) =>
      if i < |st.threads| && st.threads[i].Validating? {
        var thread := st.threads[i];
        assert ThreadInv(st, thread);
        if Validated(st, thread).Ready? {
          ValidIsApproved(st.manifests[thread.request.server], thread.request.code, thread.request.params);
        }
        StepKeeps(st, i, Validated(st, thread));
      }
    case Store(i, id, full) =>
      if i < |st.threads| && st.threads[i].Ready? {
        StoreKeeps(st, i, id, full);
      }
  }

  lemma {:induction false} RunKeeps(steps: seq<Step>)
    ensures Inv(Run(steps))
  {
    if steps != [] {
      RunKeeps(steps[..|steps| - 1]);
      NextKeeps(Run(steps[..|steps| - 1]), steps[|steps| - 1]);
    }
  }

  // ---- The guarantees, over every interleaving ----

  /** Whatever publishes landed between a validation and its insert, an action is only ever
      inserted under a manifest that approves its code and params. */
  lemma InsertedWasApproved(steps: seq<Step>, step: Step, id: string)
    requires id !in Run(steps).actions && id in Next(Run(steps), step).actions
    ensures var action := Next(Run(steps), step).actions[id];
            var manifests := Run(steps).manifests;
            action.server in manifests && Approves(manifests[action.server], action.code, action.params)
  {
    RunKeeps(steps);
    var st := Run(steps);
    assert step.Store? && ThreadInv(st, st.threads[step.thread]);
  }

  /** An idempotency key names at most one action of a server. */
  lemma KeyNamesOne(steps: seq<Step>, id: string, other: string)
    requires var actions := Run(steps).actions;
             && id in actions && other in actions && actions[id].key != ""
             && actions[id].server == actions[other].server && actions[id].key == actions[other].key
    ensures id == other
  {
    RunKeeps(steps);
    var actions := Run(steps).actions;
    assert Binds(actions, id, actions[id].server, actions[id].key) && Binds(actions, other, actions[id].server, actions[id].key);
  }

  /** Every accepted answer, fresh or replayed, names an action of the request's server and key
      whose code the caller may dispatch. */
  lemma AcceptedIsDispatchable(steps: seq<Step>, i: nat)
    requires i < |Run(steps).threads| && Run(steps).threads[i].Answered? && Run(steps).threads[i].answer.Accepted?
    ensures var thread := Run(steps).threads[i];
            AnswerInv(Run(steps).actions, thread.request, thread.answer.id)
  {
    RunKeeps(steps);
    assert ThreadInv(Run(steps), Run(steps).threads[i]);
  }

  /** A key already bound is answered with its action whatever the manifest now says. */
  lemma ReplayIgnoresManifest(steps: seq<Step>, i: nat, id: string)
    requires var st := Run(steps);
             && i < |st.threads| && st.threads[i].Started?
             && var request := st.threads[i].request;
             && request.code in request.may && Binds(st.actions, id, request.server, request.key)
    ensures var st := Run(steps);
            var request := st.threads[i].request;
            Next(st, Lookup(i)).threads[i] ==
              Answered(request, if st.actions[id].code in request.may then Accepted(id) else Forbidden)
  {
    RunKeeps(steps);
  }

  /** A request validates in at most three rounds, and one that loses the third is answered. */
  lemma AtMostThreeRounds(steps: seq<Step>, i: nat)
    requires i < |Run(steps).threads| && (Run(steps).threads[i].Validating? || Run(steps).threads[i].Ready?)
    ensures Run(steps).threads[i].attempt < 3
    ensures forall id, full :: Run(steps).threads[i].Ready? && Run(steps).threads[i].attempt == 2 ==>
              var after := Next(Run(steps), Store(i, id, full)).threads[i];
              after.Answered? || id in Run(steps).actions
  {
    RunKeeps(steps);
    assert ThreadInv(Run(steps), Run(steps).threads[i]);
  }
}
