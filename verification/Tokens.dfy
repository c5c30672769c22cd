/** hub/tokens.go: minting. A token can never do what its minter could not. */
module Tokens {
  import opened Wrappers
  import opened Text
  import opened Scopes

  const MAX_SCOPES_PER_TOKEN := 32

  datatype MintError = ScopesRequired | TooManyScopes | BadScope(error: ScopeError) | NotHeld(scope: string)

  // The scope a requested text asks for, and whether the minter may grant it.
  ghost predicate Grantable(minter: Principal, text: string) {
    && ParseScope(text).Success?
    && var s := ParseScope(text).value; minter.Covers(s.resource, s.verb, s.pattern)
  }

  /** The scopes a stored token carries when it is used: unparseable ones are dropped. */
  function StoredScopes(texts: seq<string>): (scopes: seq<Scope>) {
    if texts == [] then []
    else
      var before := StoredScopes(texts[..|texts| - 1]);
      match ParseScope(texts[|texts| - 1])
      case Success(scope) => before + [scope]
      case Failure(_) => before
  }

  // The printed form of a text that parses.
  function Printed(text: string): string {
    match ParseScope(text)
    case Success(scope) => Render(scope)
    case Failure(_) => ""
  }

  // A text may be granted just when its printed form may.
  lemma PrintedFormGrantable(minter: Principal, text: string)
    requires ParseScope(text).Success?
    ensures Grantable(minter, Printed(text)) <==> Grantable(minter, text)
  {
    ParseAfterPrint(text);
  }

  /** What minting leaves behind: a token each of whose grants its minter covered. */
  ghost predicate MintedBy(minter: Principal, token: Principal) {
    forall scope :: scope in token.scopes ==> minter.Covers(scope.resource, scope.verb, scope.pattern)
  }

  ghost predicate AllGrantable(minter: Principal, texts: seq<string>) {
    forall text :: text in texts ==> Grantable(minter, text)
  }

  lemma {:induction false} MintingStores(minter: Principal, texts: seq<string>, servers: seq<string>)
    requires AllGrantable(minter, texts)
    ensures MintedBy(minter, Principal(StoredScopes(texts), servers)) && |StoredScopes(texts)| == |texts|
  {
    if texts != [] {
      var last := |texts| - 1;
      MintingStores(minter, texts[..last], servers);
      assert Grantable(minter, texts[last]);
    }
  }

  // The printed forms of some texts.
  ghost function PrintedForms(texts: seq<string>): set<string> {
    set text | text in texts :: Printed(text)
  }

  /** What minting answers for some texts: every one grantable, and their printed forms, each
      once and nothing else, grantable too. */
  ghost predicate Answers(minter: Principal, texts: seq<string>, canonicals: seq<string>) {
    && AllGrantable(minter, texts) && AllGrantable(minter, canonicals)
    && PrintedForms(texts) == (set canonical | canonical in canonicals)
    && forall i, j :: 0 <= i < j < |canonicals| ==> canonicals[i] != canonicals[j]
  }

  lemma PrintedFormsSnoc(texts: seq<string>, text: string)
    ensures PrintedForms(texts + [text]) == PrintedForms(texts) + {Printed(text)}
  {
    assert forall t :: t in texts ==> t in texts + [text];
    assert text in texts + [text];
  }

  lemma GrantableSnoc(minter: Principal, texts: seq<string>, text: string)
    requires AllGrantable(minter, texts) && Grantable(minter, text)
    ensures AllGrantable(minter, texts + [text])
  {
  }

  lemma AnswersSnoc(minter: Principal, texts: seq<string>, text: string, canonicals: seq<string>)
    requires Answers(minter, texts, canonicals) && Grantable(minter, text)
    ensures var canonical := Printed(text);
            Answers(minter, texts + [text], if canonical in canonicals then canonicals else canonicals + [canonical])
  {
    PrintedFormsSnoc(texts, text);
    PrintedFormGrantable(minter, text);
    GrantableSnoc(minter, texts, text);
    GrantableSnoc(minter, canonicals, Printed(text));
  }

  lemma AnswersStore(minter: Principal, texts: seq<string>, canonicals: seq<string>)
    requires Answers(minter, texts, canonicals)
    ensures |StoredScopes(canonicals)| == |canonicals|
    ensures forall servers :: MintedBy(minter, Principal(StoredScopes(canonicals), servers))
  {
    forall servers ensures MintedBy(minter, Principal(StoredScopes(canonicals), servers)) {
      MintingStores(minter, canonicals, servers);
    }
    MintingStores(minter, canonicals, []);
  }

  /** parseRequestedScopes: succeeds exactly when every requested text is a scope its minter
      covers, and then answers their printed forms, each once, none of which the stored token
      will drop. */
  method ParseRequestedScopes(minter: Principal, requested: seq<string>) returns (r: Result<seq<string>, MintError>)
    ensures r.Success? <==> 0 < |requested| <= MAX_SCOPES_PER_TOKEN && AllGrantable(minter, requested)
    ensures r.Success? ==> Answers(minter, requested, r.value)
    ensures r.Success? ==> |StoredScopes(r.value)| == |r.value|
    ensures r.Success? ==> forall servers :: MintedBy(minter, Principal(StoredScopes(r.value), servers))
  {
    if requested == [] {
      return Failure(ScopesRequired);
    }
    if |requested| > MAX_SCOPES_PER_TOKEN {
      return Failure(TooManyScopes);
    }
    var seen: set<string> := {};
    var scopes: seq<string> := [];
    for i := 0 to |requested|
      invariant Answers(minter, requested[..i], scopes)
      invariant forall canonical :: canonical in seen <==> canonical in scopes
    {
      var text := requested[i];
      assert requested[..i + 1] == requested[..i] + [text];
      var canonical := Canonical(text);
      if canonical.Failure? {
        assert !Grantable(minter, text);
        return Failure(BadScope(canonical.error));
      }
      PrintedFormGrantable(minter, text);
      if canonical.value in seen {
        AnswersSnoc(minter, requested[..i], text, scopes);
        continue;
      }
      var held := Held(minter, text);
      if !held {
        return Failure(NotHeld(canonical.value));
      }
      AnswersSnoc(minter, requested[..i], text, scopes);
      seen := seen + {canonical.value};
      scopes := scopes + [canonical.value];
    }
    assert requested[..|requested|] == requested;
    AnswersStore(minter, requested, scopes);
    return Success(scopes);
  }

  // ParseScope followed by String.
  method Canonical(text: string) returns (r: Result<string, ScopeError>)
    ensures r.Success? <==> ParseScope(text).Success?
    ensures r.Success? ==> r.value == Printed(text)
  {
    var parsed := ParseScope(text);
    if parsed.Failure? {
      return Failure(parsed.error);
    }
    return Success(Render(parsed.value));
  }

  // The check that a minter holds what it is asked to grant.
  method Held(minter: Principal, text: string) returns (held: bool)
    requires ParseScope(text).Success?
    ensures held <==> Grantable(minter, text)
  {
    var scope := ParseScope(text).value;
    return minter.Covers(scope.resource, scope.verb, scope.pattern);
  }

  // `admin` is covered by `admin` alone.
  lemma OnlyAdminCoversAdmin(caller: Principal, verb: string, pattern: string)
    requires caller.Covers("admin", verb, pattern)
    ensures caller.IsAdmin()
  {
  }

  /** Everything a minted token may do (implied grants included) its minter may do. */
  lemma MintedWithinMinter(minter: Principal, token: Principal, resource: string, verb: string, value: string)
    requires MintedBy(minter, token) && token.Allows(resource, verb, value)
    ensures minter.Allows(resource, verb, value)
    decreases if verb == "read" then 1 else 0
  {
    if admin :| admin in token.scopes && admin.resource == "admin" {
      OnlyAdminCoversAdmin(minter, admin.verb, admin.pattern);
    } else if scope :| scope in token.scopes && scope.resource == resource && scope.verb == verb
                       && Match(scope.pattern, value) {
      CoversSound(minter, resource, verb, scope.pattern, value);
    } else if resource == "actions" {
      MintedWithinMinter(minter, token, "actions", "dispatch", value);
    } else {
      MintedWithinMinter(minter, token, "bans", "manage", value);
    }
  }

  /** A chain of mints, each token minted by the one before it. */
  ghost predicate MintChain(tokens: seq<Principal>) {
    tokens != [] && forall i :: 0 <= i < |tokens| - 1 ==> MintedBy(tokens[i], tokens[i + 1])
  }

  /** Along any chain of mints, what a token permits is contained in what the root permits. */
  lemma {:induction false} ChainWithinRoot(tokens: seq<Principal>, resource: string, verb: string, value: string)
    requires MintChain(tokens) && tokens[|tokens| - 1].Allows(resource, verb, value)
    ensures forall token :: token in tokens ==> token.Allows(resource, verb, value)
  {
    var last := |tokens| - 1;
    if last > 0 {
      MintedWithinMinter(tokens[last - 1], tokens[last], resource, verb, value);
      ChainWithinRoot(tokens[..last], resource, verb, value);
      assert tokens == tokens[..last] + [tokens[last]];
    } else {
      assert tokens == [tokens[0]];
    }
  }
}
