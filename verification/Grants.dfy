/** What a scope says, told without its parser and its matcher: which texts are scopes and of what,
    which values a pattern is for, and what a caller's grants allow. */
module Grants {
  import opened Names
  import opened Scopes
  import opened Text
  import opened Wrappers

  // ---- Patterns and grants ----

  // A namespace pattern, of the values under its stem.
  ghost predicate Under(pattern: string, stem: string, value: string) {
    pattern == stem + ".*" && stem + "." <= value
  }

  /** A pattern is for every value, for one value, or for those under a stem. */
  lemma MatchMeans(pattern: string, value: string)
    ensures Match(pattern, value) <==>
            pattern == "" || pattern == "*" || pattern == value || exists stem :: Under(pattern, stem, value)
  {
    if HasSuffix(pattern, ".*") {
      var stem := pattern[..|pattern| - 2];
      WildcardSuffix(pattern);
      assert pattern == stem + ".*";
      assert stem + "." == pattern[..|pattern| - 1];
      if Match(pattern, value) {
        assert Under(pattern, stem, value);
      }
      if other :| Under(pattern, other, value) {
        assert other == stem;
      }
    } else if other :| Under(pattern, other, value) {
      assert HasSuffix(other + ".*", ".*");
    }
  }

  // A grant of a resource and verb: itself, or the one that implies reading.
  ghost predicate Grants(scope: Scope, resource: string, verb: string) {
    && scope.resource == resource
    && (|| scope.verb == verb
        || (verb == "read" && resource == "actions" && scope.verb == "dispatch")
        || (verb == "read" && resource == "bans" && scope.verb == "manage"))
  }

  ghost predicate Opens(scope: Scope, resource: string, verb: string, value: string) {
    scope.resource == "admin" || (Grants(scope, resource, verb) && Match(scope.pattern, value))
  }

  // Admin, or a grant of this very verb.
  ghost predicate OpensItself(scope: Scope, resource: string, verb: string, value: string) {
    scope.resource == "admin" || (scope.resource == resource && scope.verb == verb && Match(scope.pattern, value))
  }

  lemma PlainAllows(caller: Principal, resource: string, verb: string, value: string)
    requires !(verb == "read" && resource in {"actions", "bans"})
    ensures caller.Allows(resource, verb, value) <==> exists scope :: scope in caller.scopes && OpensItself(scope, resource, verb, value)
  {
    if scope :| scope in caller.scopes && OpensItself(scope, resource, verb, value) {
      assert caller.Allows(resource, verb, value);
    }
    if caller.Allows(resource, verb, value) {
      var scope :| scope in caller.scopes &&
                   (scope.resource == "admin" || (scope.resource == resource && scope.verb == verb && Match(scope.pattern, value)));
      assert OpensItself(scope, resource, verb, value);
    }
  }

  lemma ReadAllows(caller: Principal, resource: string, implying: string, value: string)
    requires (resource == "actions" && implying == "dispatch") || (resource == "bans" && implying == "manage")
    ensures caller.Allows(resource, "read", value) <==>
            exists scope :: scope in caller.scopes &&
                            (OpensItself(scope, resource, "read", value) || OpensItself(scope, resource, implying, value))
  {
    PlainAllows(caller, resource, implying, value);
    if caller.Allows(resource, "read", value) && !caller.Allows(resource, implying, value) {
      var scope :| scope in caller.scopes &&
                   (scope.resource == "admin" || (scope.resource == resource && scope.verb == "read" && Match(scope.pattern, value)));
      assert OpensItself(scope, resource, "read", value);
    }
  }

  /** A caller may act on a value when one of its scopes is admin, or grants the verb, or a verb that
      implies it, under a pattern for that value. */
  lemma AllowsIff(caller: Principal, resource: string, verb: string, value: string)
    ensures caller.Allows(resource, verb, value) <==> exists scope :: scope in caller.scopes && Opens(scope, resource, verb, value)
  {
    var implying := if verb == "read" && resource == "actions" then "dispatch" else if verb == "read" && resource == "bans" then "manage" else verb;
    if implying == verb {
      PlainAllows(caller, resource, verb, value);
    } else {
      ReadAllows(caller, resource, implying, value);
    }
    forall scope
      ensures Opens(scope, resource, verb, value) <==> OpensItself(scope, resource, verb, value) || OpensItself(scope, resource, implying, value)
    {
    }
  }

  /** The route gate opens to a caller exactly when there is some value it may act on. */
  lemma AllowsAnyIff(caller: Principal, resource: string, verb: string)
    ensures caller.AllowsAny(resource, verb) <==> exists value :: caller.Allows(resource, verb, value)
    decreases if verb == "read" then 1 else 0
  {
    if value :| caller.Allows(resource, verb, value) {
      AllowedPasses(caller, resource, verb, value);
    }
    if caller.AllowsAny(resource, verb) {
      var value := PassesAllowed(caller, resource, verb);
      assert caller.Allows(resource, verb, value);
    }
  }

  lemma AllowedPasses(caller: Principal, resource: string, verb: string, value: string)
    requires caller.Allows(resource, verb, value)
    ensures caller.AllowsAny(resource, verb)
    decreases if verb == "read" then 1 else 0
  {
    if resource == "actions" && verb == "read" && caller.Allows("actions", "dispatch", value) {
      AllowedPasses(caller, "actions", "dispatch", value);
    } else if resource == "bans" && verb == "read" && caller.Allows("bans", "manage", value) {
      AllowedPasses(caller, "bans", "manage", value);
    }
  }

  lemma PassesAllowed(caller: Principal, resource: string, verb: string) returns (value: string)
    requires caller.AllowsAny(resource, verb)
    ensures caller.Allows(resource, verb, value)
    decreases if verb == "read" then 1 else 0
  {
    if caller.IsAdmin() {
      value := "";
    } else if scope :| scope in caller.scopes && scope.resource == resource && scope.verb == verb {
      value := SomeMatch(scope.pattern);
    } else if resource == "actions" {
      value := PassesAllowed(caller, "actions", "dispatch");
    } else {
      value := PassesAllowed(caller, "bans", "manage");
    }
  }

  lemma SomeMatch(pattern: string) returns (value: string)
    ensures Match(pattern, value)
  {
    value := if HasSuffix(pattern, ".*") then TrimSuffix(pattern, "*") else pattern;
  }

  // ---- Parsing ----

  // A known resource and verb, with a valid pattern or none; some kinds take none.
  ghost predicate Known(s: Scope) {
    exists kind :: kind in SCOPE_KINDS && kind.resource == s.resource && kind.verb == s.verb &&
                   (s.pattern != "" ==> kind.patterned && ValidScopePattern(s.pattern))
  }

  // Its fields between colons. The one kind without a verb may end in a colon.
  ghost predicate Writes(text: string, s: Scope) {
    || (s.verb == "" && s.pattern == "" && (text == s.resource || text == s.resource + ":"))
    || (s.verb != "" && s.pattern == "" && text == s.resource + ":" + s.verb)
    || (s.verb != "" && s.pattern != "" && text == s.resource + ":" + s.verb + ":" + s.pattern)
  }

  /** A text parses to a scope exactly when the scope is one the hub knows and the text, trimmed,
      writes it. */
  lemma ParsesIff(value: string, s: Scope)
    ensures ParseScope(value) == Success(s) <==> Known(s) && Writes(TrimSpace(value), s)
  {
    var text := TrimSpace(value);
    if ParseScope(value) == Success(s) {
      ParsedFields(value);
      FieldsWrite(text, s);
      ParsedKnown(text, s);
    }
    if Known(s) && Writes(text, s) {
      WrittenParses(text, s);
    }
  }

  lemma FieldsWrite(text: string, s: Scope)
    requires Fields(text, s)
    ensures Writes(text, s)
  {
    JoinOfSplit(text, ':');
    ThreeParts(Split(text, ':'));
  }

  lemma ParsedKnown(text: string, s: Scope)
    requires ParseTrimmed(text) == Success(s)
    ensures Known(s)
  {
    var parts := Split(text, ':');
    var kind := LookupKind(parts[0], if |parts| > 1 then parts[1] else "").value;
    assert kind.resource == s.resource && kind.verb == s.verb;
  }

  lemma KindTakesPatterns(kind: ScopeKind)
    requires kind in SCOPE_KINDS
    ensures kind.patterned <==> kind.resource in {"events", "actions", "kv"}
  {
  }

  lemma ResourceHasNoColon(kind: ScopeKind)
    requires kind in SCOPE_KINDS
    ensures ':' !in kind.resource && kind.resource != ""
  {
  }

  lemma VerbHasNoColon(kind: ScopeKind)
    requires kind in SCOPE_KINDS
    ensures ':' !in kind.verb
  {
  }

  lemma KindFound(kind: ScopeKind)
    requires kind in SCOPE_KINDS
    ensures LookupKind(kind.resource, kind.verb) == Some(kind)
  {
    var i :| 0 <= i < |SCOPE_KINDS| && SCOPE_KINDS[i] == kind;
    LookupFinds(kind.resource, kind.verb, SCOPE_KINDS, i);
    KindTakesPatterns(kind);
    KindTakesPatterns(LookupKind(kind.resource, kind.verb).value);
  }

  // The pieces of a written scope.
  lemma WrittenSplits(text: string, s: Scope)
    requires Writes(text, s) && ':' !in s.resource && ':' !in s.verb && ':' !in s.pattern
    ensures s.pattern != "" ==> Split(text, ':') == [s.resource, s.verb, s.pattern]
    ensures s.pattern == "" && text != s.resource ==> Split(text, ':') == [s.resource, s.verb]
    ensures text == s.resource ==> Split(text, ':') == [s.resource]
  {
    if s.pattern != "" {
      ThreeSplit(s.resource, s.verb, s.pattern);
    } else if text == s.resource {
      SplitWithout(text, ':');
    } else {
      assert text == s.resource + ":" + s.verb;
      TwoSplit(s.resource, s.verb);
    }
  }

  lemma TwoSplit(a: string, b: string)
    requires ':' !in a && ':' !in b
    ensures Split(a + ":" + b, ':') == [a, b]
  {
    SplitWithout(a, ':');
    SplitWithout(b, ':');
    SplitConcat(a, b, ':');
  }

  lemma ThreeSplit(a: string, b: string, c: string)
    requires ':' !in a && ':' !in b && ':' !in c
    ensures Split(a + ":" + b + ":" + c, ':') == [a, b, c]
  {
    TwoSplit(b, c);
    SplitWithout(a, ':');
    SplitConcat(a, b + ":" + c, ':');
    assert a + ":" + b + ":" + c == a + [':'] + (b + ":" + c);
  }

  lemma SplitsParse(text: string, s: Scope, kind: ScopeKind)
    requires Writes(text, s) && s.resource != "" && ':' !in s.resource && ':' !in s.verb && ':' !in s.pattern
    requires LookupKind(s.resource, s.verb) == Some(kind) && (s.pattern != "" ==> kind.patterned && ValidScopePattern(s.pattern))
    ensures ParseTrimmed(text) == Success(s)
  {
    WrittenSplits(text, s);
  }

  lemma WrittenParses(text: string, s: Scope)
    requires Known(s) && Writes(text, s)
    ensures ParseTrimmed(text) == Success(s)
  {
    var kind :| kind in SCOPE_KINDS && kind.resource == s.resource && kind.verb == s.verb &&
                (s.pattern != "" ==> kind.patterned && ValidScopePattern(s.pattern));
    ResourceHasNoColon(kind);
    VerbHasNoColon(kind);
    KindFound(kind);
    if s.pattern != "" {
      PatternHasNoColon(s.pattern);
    }
    SplitsParse(text, s, kind);
  }

  lemma PatternHasNoColon(pattern: string)
    requires ValidScopePattern(pattern)
    ensures ':' !in pattern
  {
    if pattern != "*" {
      var stem := TrimSuffix(pattern, ".*");
      DottedNameChars(stem);
      assert pattern == stem || pattern == stem + ".*";
    }
  }
}
