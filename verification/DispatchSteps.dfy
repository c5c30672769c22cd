/** What each step of Dispatch does: how a request is looked up, validated, stored or refused, told
    over the tables it reads. */
module DispatchSteps {
  import opened Dispatch
  import opened Wrappers

  // An action of the server under the idempotency key; the empty key names none.
  ghost predicate Named(st: State, request: Request, id: string) {
    && request.key != "" && id in st.actions
    && st.actions[id].server == request.server && st.actions[id].key == request.key
  }

  ghost predicate Unnamed(st: State, request: Request) {
    forall id :: !Named(st, request, id)
  }

  // A thread has moved, and nothing else has.
  ghost predicate Moves(st: State, next: State, i: nat, thread: Thread) {
    i < |st.threads| && next == st.(threads := st.threads[i := thread])
  }

  // What a bound key is answered with.
  ghost predicate Replays(st: State, request: Request, thread: Thread) {
    exists id :: Named(st, request, id) && thread == Answered(request, if st.actions[id].code in request.may then Accepted(id) else Forbidden)
  }

  /** A request for a code its caller may not dispatch is forbidden; one whose key names an action is
      answered with it; any other goes on to its first validation. */
  lemma LookupAnswers(st: State, i: nat)
    requires i < |st.threads| && st.threads[i].Started?
    ensures var request, next := st.threads[i].request, Next(st, Lookup(i));
            && i < |next.threads| && Moves(st, next, i, next.threads[i])
            && (request.code !in request.may ==> next.threads[i] == Answered(request, Forbidden))
            && (request.code in request.may && Unnamed(st, request) ==> next.threads[i] == Validating(request, 0))
            && (request.code in request.may && !Unnamed(st, request) ==> Replays(st, request, next.threads[i]))
  {
    NamedIsBound(st, st.threads[i].request);
    if Bound(st.actions, st.threads[i].request.server, st.threads[i].request.key) {
      ReplayReplays(st, st.threads[i].request);
    }
  }

  lemma NamedIsBound(st: State, request: Request)
    ensures Unnamed(st, request) <==> !Bound(st.actions, request.server, request.key)
  {
    forall id ensures Named(st, request, id) <==> Binds(st.actions, id, request.server, request.key) {
    }
  }

  lemma ReplayReplays(st: State, request: Request)
    requires Bound(st.actions, request.server, request.key)
    ensures Replays(st, request, Replay(st, request))
  {
    forall id ensures Named(st, request, id) <==> Binds(st.actions, id, request.server, request.key) {
    }
  }

  // The first declaration of a code, or none.
  ghost predicate Declares(manifest: Manifest, code: string, schema: Schema) {
    exists k :: 0 <= k < |manifest.actions| && manifest.actions[k] == Declaration(code, schema) &&
                forall j :: 0 <= j < k ==> manifest.actions[j].code != code
  }

  ghost predicate DeclaresNone(manifest: Manifest, code: string) {
    forall k :: 0 <= k < |manifest.actions| ==> manifest.actions[k].code != code
  }

  // What a validation answers a server with this manifest stored.
  ghost predicate Judged(manifest: Manifest, code: string, params: string, verdict: Verdict) {
    && (verdict == Valid(manifest.revision) <==>
          Declares(manifest, code, NoSchema) || exists accepts :: params in accepts && Declares(manifest, code, Schema(accepts)))
    && (verdict == ParamsInvalid <==> exists accepts :: params !in accepts && Declares(manifest, code, Schema(accepts)))
    && (verdict == SchemaBroken <==> Declares(manifest, code, Broken))
    && (verdict == Undeclared <==> DeclaresNone(manifest, code))
    && verdict != Unpublished && (verdict.Valid? ==> verdict.revision == manifest.revision)
  }

  lemma JudgeIs(manifest: Manifest, code: string, params: string)
    ensures Judged(manifest, code, params, Judge(Some(manifest), code, params))
  {
    var i := FoundIsFirst(manifest.actions, code);
    forall schema ensures Declares(manifest, code, schema) <==> i < |manifest.actions| && manifest.actions[i].schema == schema {
      if i < |manifest.actions| && manifest.actions[i].schema == schema {
        assert manifest.actions[i] == Declaration(code, schema);
      }
    }
  }

  /** A validation refuses for the one reason that holds: nothing published, the code not declared, its
      first declaration's schema broken, the params not accepted. Otherwise the request may be stored
      under the revision that was validated. */
  lemma ValidateAnswers(st: State, i: nat)
    requires i < |st.threads| && st.threads[i].Validating?
    ensures var request, attempt, next := st.threads[i].request, st.threads[i].attempt, Next(st, Validate(i));
            && i < |next.threads| && Moves(st, next, i, next.threads[i])
            && (request.server !in st.manifests ==> next.threads[i] == Answered(request, Refused(Unpublished)))
            && (request.server in st.manifests ==>
                  exists verdict :: Judged(st.manifests[request.server], request.code, request.params, verdict) &&
                    next.threads[i] ==
                      if verdict.Valid? then Ready(request, attempt, verdict.revision) else Answered(request, Refused(verdict)))
  {
    var request := st.threads[i].request;
    if request.server in st.manifests {
      JudgeIs(st.manifests[request.server], request.code, request.params);
    }
  }

  /** A store under a manifest other than the one validated loses its round, the third for good; a key
      bound meanwhile is replayed; a full queue refuses; and otherwise the action is inserted as asked
      for and answered. Nothing but that one action is ever inserted. */
  lemma StoreAnswers(st: State, i: nat, id: string, full: bool)
    requires i < |st.threads| && st.threads[i].Ready? && id !in st.actions
    ensures var thread, request, next := st.threads[i], st.threads[i].request, Next(st, Store(i, id, full));
            var current := request.server in st.manifests && st.manifests[request.server].revision == thread.revision;
            && i < |next.threads|
            && (!current ==> Moves(st, next, i,
                  if thread.attempt < 2 then Validating(request, thread.attempt + 1) else Answered(request, Conflict)))
            && (current && !Unnamed(st, request) ==> Moves(st, next, i, next.threads[i]) && Replays(st, request, next.threads[i]))
            && (current && Unnamed(st, request) && full ==> Moves(st, next, i, Answered(request, OutboundQueueFull)))
            && (current && Unnamed(st, request) && !full ==>
                  next == st.(threads := st.threads[i := Answered(request, Accepted(id))],
                              actions := st.actions[id := Action(request.server, request.code, request.params, request.key)]))
  {
    var request := st.threads[i].request;
    NamedIsBound(st, request);
    if Bound(st.actions, request.server, request.key) {
      ReplayReplays(st, request);
    }
  }

  /** A publish is stored when its revision is above the server's, and refused otherwise; a request
      starts as it arrives. */
  lemma PublishStores(st: State, server: string, manifest: Manifest, request: Request)
    ensures var next := Next(st, Publish(server, manifest));
            if server in st.manifests && manifest.revision <= st.manifests[server].revision then next == st
            else next == st.(manifests := st.manifests[server := manifest], published := next.published)
    ensures Next(st, Arrive(request)) == st.(threads := st.threads + [Started(request)])
  {
  }

  /** A run takes its steps one after another from the start. */
  lemma RunGoesOn(steps: seq<Step>, step: Step)
    ensures Run([]) == START && Run(steps + [step]) == Next(Run(steps), step)
  {
    assert (steps + [step])[..|steps|] == steps;
  }
}
