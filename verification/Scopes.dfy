/** hub/scope.go and hub/internal/pattern: the scope grammar, what a grant matches, and when a
    caller's grants cover a requested pattern. */
module Scopes {
  import opened Wrappers
  import opened Text
  import opened Names

  datatype Scope = Scope(resource: string, verb: string, pattern: string)

  datatype ScopeKind = ScopeKind(resource: string, verb: string, patterned: bool)

  datatype ScopeError =
    | EmptyScope
    | TooManyFields
    | UnknownScope
    | EmptyPattern
    | TakesNoPattern
    | MalformedPattern

  const SCOPE_KINDS: seq<ScopeKind> := [
    ScopeKind("servers", "read", false),
    ScopeKind("events", "read", true),
    ScopeKind("actions", "read", true),
    ScopeKind("actions", "dispatch", true),
    ScopeKind("kv", "rw", true),
    ScopeKind("notes", "read", false),
    ScopeKind("notes", "write", false),
    ScopeKind("bans", "read", false),
    ScopeKind("bans", "manage", false),
    ScopeKind("webhooks", "manage", false),
    ScopeKind("admin", "", false)
  ]

  function LookupKind(resource: string, verb: string, kinds: seq<ScopeKind> := SCOPE_KINDS): (r: Option<ScopeKind>)
    ensures r.Some? ==> r.value in kinds && r.value.resource == resource && r.value.verb == verb
  {
    if kinds == [] then None
    else if kinds[0].resource == resource && kinds[0].verb == verb then Some(kinds[0])
    else LookupKind(resource, verb, kinds[1..])
  }

  function ParseScope(value: string): Result<Scope, ScopeError> {
    ParseTrimmed(TrimSpace(value))
  }

  function ParseTrimmed(text: string): Result<Scope, ScopeError> {
    var parts := Split(text, ':');
    if text == "" then Failure(EmptyScope)
    else if |parts| > 3 then Failure(TooManyFields)
    else
      var resource := parts[0];
      var verb := if |parts| > 1 then parts[1] else "";
      var pattern := if |parts| > 2 then parts[2] else "";
      match LookupKind(resource, verb)
      case None => Failure(UnknownScope)
      case Some(kind) =>
        if pattern == "" then
          if |parts| > 2 then Failure(EmptyPattern) else Success(Scope(resource, verb, ""))
        else if !kind.patterned then Failure(TakesNoPattern)
        else if !ValidScopePattern(pattern) then Failure(MalformedPattern)
        else Success(Scope(resource, verb, pattern))
  }

  /** Scope.String. */
  function Render(s: Scope): string {
    s.resource
    + (if s.verb != "" then ":" + s.verb else "")
    + (if s.pattern != "" then ":" + s.pattern else "")
  }

  lemma KindsWithoutVerb(kind: ScopeKind)
    requires kind in SCOPE_KINDS
    ensures kind.verb == "" <==> kind.resource == "admin"
    ensures kind.patterned ==> kind.verb != ""
  {
  }

  // The fields a parsed text had.
  ghost predicate Fields(text: string, s: Scope) {
    var parts := Split(text, ':');
    && text != ""
    && s.resource == parts[0]
    && (s.verb == "" <==> s.resource == "admin")
    && (s.pattern != "" ==> s.verb != "")
    && match |parts|
       case 1 => s.verb == "" && s.pattern == ""
       case 2 => s.verb == parts[1] && s.pattern == ""
       case 3 => s.verb == parts[1] && s.pattern == parts[2] != ""
       case _ => false
  }

  lemma ParsedFields(value: string)
    requires ParseScope(value).Success?
    ensures Fields(TrimSpace(value), ParseScope(value).value)
  {
    var parts := Split(TrimSpace(value), ':');
    var verb := if |parts| > 1 then parts[1] else "";
    KindsWithoutVerb(LookupKind(parts[0], verb).value);
  }

  lemma ThreeParts(parts: seq<string>)
    requires 1 <= |parts| <= 3
    ensures Join(parts, ':') == parts[0] + (if |parts| > 1 then ":" + parts[1] else "") +
                                (if |parts| > 2 then ":" + parts[2] else "")
  {
    if |parts| == 3 {
      assert parts[1..][1..] == [parts[2]];
      assert Join(parts[1..], ':') == parts[1] + ":" + parts[2];
    }
  }

  lemma FieldsPrint(text: string, s: Scope)
    requires Fields(text, s)
    ensures Render(s) == text <==> text != "admin:"
    ensures text == "admin:" ==> s == Scope("admin", "", "")
  {
    var parts := Split(text, ':');
    JoinOfSplit(text, ':');
    ThreeParts(parts);
    if |parts| == 2 && parts[1] == "" {
      assert text == "admin" + ":" + "";
    } else {
      var last := parts[|parts| - 1];
      assert last in parts && last != "";
      assert text[|text| - 1] == last[|last| - 1];
    }
  }

  /** Printing a parsed scope gives back the trimmed text it was read from, for every text but
      `admin:`, whose empty verb is dropped. */
  lemma PrintAfterParse(value: string)
    requires ParseScope(value).Success?
    ensures var printed := Render(ParseScope(value).value);
            && (printed == TrimSpace(value) <==> TrimSpace(value) != "admin:")
            && (TrimSpace(value) == "admin:" ==> printed == "admin")
  {
    ParsedFields(value);
    FieldsPrint(TrimSpace(value), ParseScope(value).value);
  }

  lemma ParseAdmin()
    ensures ParseScope("admin") == Success(Scope("admin", "", ""))
  {
    assert "admin"[0] == 'a' && "admin"[4] == 'n';
    TrimSpaceKeeps("admin");
    SplitWithout("admin", ':');
    assert LookupKind("admin", "").Some? by {
      assert SCOPE_KINDS[10] == ScopeKind("admin", "", false);
      LookupFinds("admin", "", SCOPE_KINDS, 10);
    }
  }

  lemma {:induction false} LookupFinds(resource: string, verb: string, kinds: seq<ScopeKind>, i: nat)
    requires i < |kinds| && kinds[i].resource == resource && kinds[i].verb == verb
    ensures LookupKind(resource, verb, kinds).Some?
  {
    if i > 0 {
      LookupFinds(resource, verb, kinds[1..], i - 1);
    }
  }

  lemma SameText(a: string, b: string)
    requires a == b
    ensures ParseScope(a) == ParseScope(b)
  {
  }

  /** A scope survives printing and reading back. Tokens store printed scopes and re-read them on
      every request, so this is what keeps a minted grant from being dropped. */
  lemma ParseAfterPrint(value: string)
    requires ParseScope(value).Success?
    ensures ParseScope(Render(ParseScope(value).value)) == ParseScope(value)
  {
    var text := TrimSpace(value);
    var s := ParseScope(value).value;
    var printed := Render(s);
    PrintAfterParse(value);
    if text == "admin:" {
      ParsedFields(value);
      FieldsPrint(text, s);
      ParseAdmin();
    } else {
      TrimSpaceKeeps(text);
      SameText(printed, text);
    }
  }

  /** hub/internal/pattern/pattern.go: whether a pattern covers one concrete value. */
  predicate Match(pattern: string, value: string) {
    if pattern == "" || pattern == "*" then true
    else if HasSuffix(pattern, ".*") then HasPrefix(value, TrimSuffix(pattern, "*"))
    else pattern == value
  }

  /** Scope.covers: whether one grant covers everything a requested pattern could match. */
  predicate GrantCovers(grant: string, requested: string) {
    if grant == "" || grant == "*" then true
    else if !HasSuffix(requested, ".*") then
      if requested == "*" then false else Match(grant, requested)
    else if !HasSuffix(grant, ".*") then false
    else HasPrefix(TrimSuffix(requested, ".*") + ".", TrimSuffix(grant, ".*") + ".")
  }

  datatype Principal = Principal(scopes: seq<Scope>, servers: seq<string>) {

    predicate IsAdmin() {
      exists scope :: scope in scopes && scope.resource == "admin"
    }

    predicate AllowsAny(resource: string, verb: string)
      decreases if verb == "read" then 1 else 0
    {
      || IsAdmin()
      || (exists scope :: scope in scopes && scope.resource == resource && scope.verb == verb)
      || (resource == "actions" && verb == "read" && AllowsAny("actions", "dispatch"))
      || (resource == "bans" && verb == "read" && AllowsAny("bans", "manage"))
    }

    predicate Allows(resource: string, verb: string, value: string)
      decreases if verb == "read" then 1 else 0
    {
      || IsAdmin()
      || (exists scope :: scope in scopes && scope.resource == resource && scope.verb == verb &&
                          Match(scope.pattern, value))
      || (resource == "actions" && verb == "read" && Allows("actions", "dispatch", value))
      || (resource == "bans" && verb == "read" && Allows("bans", "manage", value))
    }

    predicate Covers(resource: string, verb: string, requested: string)
      decreases if verb == "read" then 1 else 0
    {
      || IsAdmin()
      || (exists scope :: scope in scopes && scope.resource == resource && scope.verb == verb &&
                          GrantCovers(scope.pattern, requested))
      || (resource == "actions" && verb == "read" && Covers("actions", "dispatch", requested))
      || (resource == "bans" && verb == "read" && Covers("bans", "manage", requested))
    }
  }

  lemma WildcardSuffix(pattern: string)
    requires HasSuffix(pattern, ".*")
    ensures TrimSuffix(pattern, ".*") + "." == TrimSuffix(pattern, "*")
    ensures TrimSuffix(pattern, "*") == pattern[..|pattern| - 1]
  {
    assert pattern[|pattern| - 2..] == ".*";
    assert pattern[|pattern| - 1..] == "*";
  }

  lemma GrantSound(grant: string, requested: string, value: string)
    requires GrantCovers(grant, requested) && Match(requested, value)
    ensures Match(grant, value)
  {
    if HasSuffix(requested, ".*") && HasSuffix(grant, ".*") {
      WildcardSuffix(requested);
      WildcardSuffix(grant);
    }
  }

  function LongestPattern(scopes: seq<Scope>): (n: nat)
    ensures forall scope :: scope in scopes ==> |scope.pattern| <= n
  {
    if scopes == [] then 0
    else
      var rest := LongestPattern(scopes[1..]);
      if |scopes[0].pattern| > rest then |scopes[0].pattern| else rest
  }

  // A segment longer than any pattern a caller holds.
  function FreshSegment(n: nat): (s: string)
    ensures |s| == n + 1 && forall c :: c in s ==> c == 'a'
  {
    seq(n + 1, _ => 'a')
  }

  /** A value the requested pattern matches, built so that no grant of at most `n` characters
      that fails to cover the request can match it. */
  function Witness(requested: string, n: nat): (value: string)
    ensures Match(requested, value)
  {
    if requested == "" || requested == "*" then FreshSegment(n) + ".a"
    else if HasSuffix(requested, ".*") then TrimSuffix(requested, "*") + FreshSegment(n)
    else requested
  }

  lemma GrantMissesWitness(grant: string, requested: string, n: nat)
    requires |grant| <= n && !GrantCovers(grant, requested)
    ensures !Match(grant, Witness(requested, n))
  {
    var value := Witness(requested, n);
    if HasSuffix(grant, ".*") {
      WildcardSuffix(grant);
      var prefix := TrimSuffix(grant, "*");
      assert prefix[|prefix| - 1] == '.';
      if HasSuffix(requested, ".*") {
        WildcardSuffix(requested);
        assert value[|requested| - 1..] == FreshSegment(n);
        assert forall i :: |requested| - 1 <= i < |value| ==> value[i] == FreshSegment(n)[i - |requested| + 1] == 'a';
      } else if requested == "" || requested == "*" {
        assert value[|prefix| - 1] == 'a';
      }
    }
  }

  /** Coverage decides inclusion exactly: the grants of a caller (implied ones included) cover a
      requested pattern if and only if every value the pattern matches is one the caller may
      act on. The second half needs one value that escapes every grant at once. */
  lemma CoversExactly(caller: Principal, resource: string, verb: string, requested: string)
    ensures caller.Covers(resource, verb, requested) <==>
            forall value :: Match(requested, value) ==> caller.Allows(resource, verb, value)
  {
    if caller.Covers(resource, verb, requested) {
      forall value | Match(requested, value) ensures caller.Allows(resource, verb, value) {
        CoversSound(caller, resource, verb, requested, value);
      }
    } else {
      CoversComplete(caller, resource, verb, requested, LongestPattern(caller.scopes));
    }
  }

  lemma WitnessIsName(requested: string, n: nat)
    requires requested == "" || ValidScopePattern(requested)
    ensures DottedName(Witness(requested, n))
  {
    var run := FreshSegment(n);
    assert '.' !in run;
    SplitWithout(run, '.');
    if requested == "" || requested == "*" {
      SegmentExtends(run, "a");
      assert Witness(requested, n) == run + "." + "a";
    } else if HasSuffix(requested, ".*") {
      WildcardSuffix(requested);
      var stem := TrimSuffix(requested, ".*");
      SegmentExtends(stem, run);
      assert Witness(requested, n) == stem + "." + run;
    }
  }

  /** So does inclusion in the names the hub accepts alone, of any pattern it accepts: what a caller
      does not cover, some dotted name shows. */
  lemma CoversExactlyNames(caller: Principal, resource: string, verb: string, requested: string)
    requires requested == "" || ValidScopePattern(requested)
    ensures caller.Covers(resource, verb, requested) <==>
            forall value :: DottedName(value) && Match(requested, value) ==> caller.Allows(resource, verb, value)
  {
    if caller.Covers(resource, verb, requested) {
      forall value | Match(requested, value) ensures caller.Allows(resource, verb, value) {
        CoversSound(caller, resource, verb, requested, value);
      }
    } else {
      var n := LongestPattern(caller.scopes);
      WitnessIsName(requested, n);
      CoversComplete(caller, resource, verb, requested, n);
    }
  }

  lemma CoversSound(caller: Principal, resource: string, verb: string, requested: string, value: string)
    requires caller.Covers(resource, verb, requested) && Match(requested, value)
    ensures caller.Allows(resource, verb, value)
    decreases if verb == "read" then 1 else 0
  {
    if caller.IsAdmin() {
    } else if scope :| scope in caller.scopes && scope.resource == resource && scope.verb == verb
                       && GrantCovers(scope.pattern, requested) {
      GrantSound(scope.pattern, requested, value);
    } else if resource == "actions" {
      CoversSound(caller, "actions", "dispatch", requested, value);
    } else {
      CoversSound(caller, "bans", "manage", requested, value);
    }
  }

  lemma CoversComplete(caller: Principal, resource: string, verb: string, requested: string, n: nat)
    requires !caller.Covers(resource, verb, requested) && n >= LongestPattern(caller.scopes)
    ensures !caller.Allows(resource, verb, Witness(requested, n))
    decreases if verb == "read" then 1 else 0
  {
    forall scope | scope in caller.scopes && scope.resource == resource && scope.verb == verb
      ensures !Match(scope.pattern, Witness(requested, n))
    {
      GrantMissesWitness(scope.pattern, requested, n);
    }
    if resource == "actions" && verb == "read" {
      CoversComplete(caller, "actions", "dispatch", requested, n);
    } else if resource == "bans" && verb == "read" {
      CoversComplete(caller, "bans", "manage", requested, n);
    }
  }

  // For one concrete value, covering it and being allowed it are the same question.
  lemma CoversOneValue(caller: Principal, resource: string, verb: string, value: string)
    requires ExactPattern(value)
    ensures caller.Covers(resource, verb, value) <==> caller.Allows(resource, verb, value)
  {
    CoversExactly(caller, resource, verb, value);
    assert Match(value, value);
  }
}
