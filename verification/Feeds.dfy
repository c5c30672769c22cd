/** How a grant that does not gate a read shapes it: hub/events.go (`eventFilters`,
    `parseEventTypeFilters`), hub/players.go (`patternFilters`, `actionReadFilters`),
    hub/scope.go (`patternsFor`), and the store's reading of the filters they build. */
module Feeds {
  import opened Wrappers
  import opened Text
  import opened Names
  import opened ByteOrder
  import opened Scopes

  const MAX_EVENT_TYPE_FILTERS := 20

  // store.EventTypeFilter: one of the two is set.
  datatype TypeFilter = TypeFilter(exact: string, prefix: string)

  datatype FilterError = TooManyFilters | BadFilter | NotCovered(pattern: string)

  // The exclusive upper bound the store scans a prefix to.
  function PrefixUpperBound(prefix: string): string {
    if HasSuffix(prefix, ".") then TrimSuffix(prefix, ".") + "/" else prefix + "\U{FFFF}"
  }

  // One term of the store's type condition.
  predicate FilterAdmits(filter: TypeFilter, value: string) {
    if filter.prefix == "" then value == filter.exact
    else AtMost(filter.prefix, value) && Less(value, PrefixUpperBound(filter.prefix))
  }

  predicate AnyAdmits(filters: seq<TypeFilter>, value: string) {
    exists filter :: filter in filters && FilterAdmits(filter, value)
  }

  predicate AnyMatches(patterns: seq<string>, value: string) {
    exists pattern :: pattern in patterns && Match(pattern, value)
  }

  // Whether some term of a query, trimmed, matches a value.
  predicate AnyTermMatches(terms: seq<string>, value: string) {
    exists term :: term in terms && Match(TrimSpace(term), value)
  }

  /** The rows a filter list selects; an empty list is no condition at all. */
  predicate Selects(filters: seq<TypeFilter>, value: string) {
    filters == [] || AnyAdmits(filters, value)
  }

  function PatternFilter(pattern: string): TypeFilter {
    if HasSuffix(pattern, ".*") then TypeFilter("", TrimSuffix(pattern, ".*") + ".")
    else TypeFilter(pattern, "")
  }

  // The store's byte range admits exactly what the pattern matches.
  lemma PatternFilterAdmits(pattern: string, value: string)
    requires pattern != "" && pattern != "*"
    ensures FilterAdmits(PatternFilter(pattern), value) <==> Match(pattern, value)
  {
    if HasSuffix(pattern, ".*") {
      WildcardSuffix(pattern);
      var stem := TrimSuffix(pattern, ".*");
      assert TrimSuffix(stem + ".", ".") == stem;
      RangeIsPrefix(value, stem, '.', '/');
    }
  }

  /** patternFilters: the filters select what some pattern matches. */
  method PatternFilters(patterns: seq<string>) returns (filters: seq<TypeFilter>)
    requires forall pattern :: pattern in patterns ==> pattern != "" && pattern != "*"
    ensures |filters| == |patterns|
    ensures forall value :: AnyAdmits(filters, value) <==> AnyMatches(patterns, value)
  {
    filters := [];
    for i := 0 to |patterns|
      invariant |filters| == i
      invariant forall j :: 0 <= j < i ==> filters[j] == PatternFilter(patterns[j])
    {
      filters := filters + [PatternFilter(patterns[i])];
    }
    forall value ensures AnyAdmits(filters, value) <==> AnyMatches(patterns, value) {
      forall j | 0 <= j < |patterns| ensures FilterAdmits(filters[j], value) <==> Match(patterns[j], value) {
        assert patterns[j] in patterns;
        PatternFilterAdmits(patterns[j], value);
      }
      if filter :| filter in filters && FilterAdmits(filter, value) {
        var j :| 0 <= j < |filters| && filters[j] == filter;
        assert patterns[j] in patterns && Match(patterns[j], value);
      }
      if pattern :| pattern in patterns && Match(pattern, value) {
        var j :| 0 <= j < |patterns| && patterns[j] == pattern;
        assert filters[j] in filters && FilterAdmits(filters[j], value);
      }
    }
  }

  // Whether a scope is a grant on one of the verbs of a resource.
  predicate GrantsOn(scope: Scope, resource: string, verbs: set<string>) {
    scope.resource == resource && scope.verb in verbs
  }

  ghost predicate HoldsPattern(caller: Principal, resource: string, verbs: set<string>, pattern: string) {
    exists scope :: scope in caller.scopes && GrantsOn(scope, resource, verbs) && scope.pattern == pattern
  }

  /** The narrowings a caller holds on a resource, for the verbs that count. `None` is the
      unnarrowed grant. `patternsFor` asks about one verb; `actionReadFilters` about two. */
  method GrantPatterns(caller: Principal, resource: string, verbs: set<string>) returns (r: Option<seq<string>>)
    ensures r.None? ==> caller.IsAdmin() || HoldsPattern(caller, resource, verbs, "") || HoldsPattern(caller, resource, verbs, "*")
    ensures r.Some? ==> !caller.IsAdmin()
    ensures r.Some? ==> forall pattern :: pattern in r.value ==>
                          pattern != "" && pattern != "*" && HoldsPattern(caller, resource, verbs, pattern)
    ensures r.Some? ==> forall scope :: scope in caller.scopes && GrantsOn(scope, resource, verbs) ==>
                          scope.pattern in r.value
  {
    if caller.IsAdmin() {
      return None;
    }
    var patterns := [];
    for i := 0 to |caller.scopes|
      invariant forall pattern :: pattern in patterns ==>
                  pattern != "" && pattern != "*" && HoldsPattern(caller, resource, verbs, pattern)
      invariant forall j :: 0 <= j < i && GrantsOn(caller.scopes[j], resource, verbs) ==>
                  caller.scopes[j].pattern in patterns
    {
      var scope := caller.scopes[i];
      if !GrantsOn(scope, resource, verbs) {
        continue;
      }
      if scope.pattern == "" || scope.pattern == "*" {
        return None;
      }
      patterns := patterns + [scope.pattern];
    }
    return Some(patterns);
  }

  // Whether some grant on the verbs matches a value.
  ghost predicate GrantedValue(caller: Principal, resource: string, verbs: set<string>, value: string) {
    || caller.IsAdmin()
    || (exists scope :: scope in caller.scopes && GrantsOn(scope, resource, verbs) && Match(scope.pattern, value))
  }

  ghost predicate GrantedAny(caller: Principal, resource: string, verbs: set<string>) {
    caller.IsAdmin() || exists scope :: scope in caller.scopes && GrantsOn(scope, resource, verbs)
  }

  lemma NonEmptyHasMember(list: seq<string>)
    ensures list != [] ==> exists member :: member in list
  {
    if list != [] {
      assert list[0] in list;
    }
  }

  /** The filters of a read narrowed to a caller's grants. They select exactly the granted values
      just when the caller holds some grant: the route gate is what makes the empty filter list
      mean "everything I may see" rather than "everything". */
  method NarrowedFilters(caller: Principal, resource: string, verbs: set<string>) returns (filters: seq<TypeFilter>)
    ensures (forall value :: Selects(filters, value) <==> GrantedValue(caller, resource, verbs, value)) <==>
            GrantedAny(caller, resource, verbs)
  {
    var patterns := GrantPatterns(caller, resource, verbs);
    match patterns {
      case None =>
        filters := [];
        forall value ensures GrantedValue(caller, resource, verbs, value) {
        }
      case Some(list) =>
        filters := PatternFilters(list);
        if GrantedAny(caller, resource, verbs) {
          var scope :| scope in caller.scopes && GrantsOn(scope, resource, verbs);
          assert scope.pattern in list;
          forall value ensures Selects(filters, value) <==> GrantedValue(caller, resource, verbs, value) {
            if pattern :| pattern in list && Match(pattern, value) {
              assert GrantedValue(caller, resource, verbs, value);
            }
          }
        } else {
          NonEmptyHasMember(list);
          assert filters == [];
          assert Selects(filters, "a.b") && !GrantedValue(caller, resource, verbs, "a.b");
        }
    }
  }

  /** actionReadFilters: a profile's action list shows exactly the codes readable through read or
      dispatch grants, given the route gate. */
  method ActionReadFilters(caller: Principal) returns (filters: seq<TypeFilter>)
    ensures (forall code :: Selects(filters, code) <==> caller.Allows("actions", "read", code)) <==>
            caller.AllowsAny("actions", "read")
  {
    filters := NarrowedFilters(caller, "actions", {"read", "dispatch"});
    forall code ensures GrantedValue(caller, "actions", {"read", "dispatch"}, code) <==>
                        caller.Allows("actions", "read", code) {
    }
    assert GrantedAny(caller, "actions", {"read", "dispatch"}) <==> caller.AllowsAny("actions", "read");
  }

  // The terms parseEventTypeFilters accepts, once trimmed.
  predicate LegalTerm(pattern: string) {
    || pattern == "*"
    || (HasSuffix(pattern, ".*") && ValidEventType(TrimSuffix(pattern, ".*") + ".x"))
    || (!HasSuffix(pattern, ".*") && ValidEventType(pattern))
  }

  /** parseEventTypeFilters: every term is checked, and the filters select the union of the terms. */
  method ParseEventTypeFilters(values: seq<string>) returns (r: Result<seq<TypeFilter>, FilterError>)
    ensures r.Success? <==> |values| <= MAX_EVENT_TYPE_FILTERS &&
                            forall value :: value in values ==> LegalTerm(TrimSpace(value))
    ensures r.Success? ==> forall t :: Selects(r.value, t) <==>
                             values == [] || AnyTermMatches(values, t)
  {
    if |values| > MAX_EVENT_TYPE_FILTERS {
      return Failure(TooManyFilters);
    }
    var everything := false;
    var terms: seq<string> := [];
    for i := 0 to |values|
      invariant forall value :: value in values[..i] ==> LegalTerm(TrimSpace(value))
      invariant everything <==> exists value :: value in values[..i] && TrimSpace(value) == "*"
      invariant forall term :: term in terms <==>
                  term != "*" && exists value :: value in values[..i] && TrimSpace(value) == term
      invariant "" !in terms
    {
      assert values[..i + 1] == values[..i] + [values[i]];
      var pattern := TrimSpace(values[i]);
      assert !ValidEventType("");
      if !LegalTerm(pattern) {
        assert values[i] in values;
        return Failure(BadFilter);
      }
      if pattern == "*" {
        everything := true;
      } else {
        terms := terms + [pattern];
      }
    }
    assert values[..|values|] == values;
    if everything {
      forall t ensures AnyTermMatches(values, t) {
        var value :| value in values && TrimSpace(value) == "*";
      }
      return Success([]);
    }
    var filters := PatternFilters(terms);
    assert values != [] ==> values[0] in values && TrimSpace(values[0]) in terms;
    assert terms != [] ==> terms[0] in terms;
    forall t ensures AnyMatches(terms, t) <==> AnyTermMatches(values, t) {
      if value :| value in values && Match(TrimSpace(value), t) {
        assert TrimSpace(value) in terms;
      }
      if term :| term in terms && Match(term, t) {
        var value :| value in values && TrimSpace(value) == term;
      }
    }
    return Success(filters);
  }

  /** eventFilters. With no `type` the feed is narrowed to the grant; with one, a term the caller
      does not cover refuses the request, and a request that passes selects exactly the union of
      its terms, every selected type being one the caller may read. */
  method EventFilters(caller: Principal, requested: seq<string>) returns (r: Result<seq<TypeFilter>, FilterError>)
    ensures requested == [] ==> r.Success?
    ensures requested == [] ==> ((forall t :: Selects(r.value, t) <==> caller.Allows("events", "read", t)) <==>
                                 caller.AllowsAny("events", "read"))
    ensures requested != [] && r.Success? ==> forall t :: Selects(r.value, t) <==>
              AnyTermMatches(requested, t)
    ensures requested != [] && r.Success? ==> forall t :: Selects(r.value, t) ==> caller.Allows("events", "read", t)
    ensures r.Success? <==> |requested| <= MAX_EVENT_TYPE_FILTERS && forall value :: value in requested ==>
              LegalTerm(TrimSpace(value)) && caller.Covers("events", "read", TrimSpace(value))
  {
    var parsed := ParseEventTypeFilters(requested);
    if parsed.Failure? {
      return parsed;
    }
    if requested == [] {
      var filters := NarrowedEventFilters(caller);
      return Success(filters);
    }
    var refused := FirstUncovered(caller, requested);
    if refused.Some? {
      return Failure(NotCovered(refused.value));
    }
    forall t | AnyTermMatches(requested, t) ensures caller.Allows("events", "read", t) {
      var value :| value in requested && Match(TrimSpace(value), t);
      CoversSound(caller, "events", "read", TrimSpace(value), t);
    }
    return parsed;
  }

  method NarrowedEventFilters(caller: Principal) returns (filters: seq<TypeFilter>)
    ensures (forall t :: Selects(filters, t) <==> caller.Allows("events", "read", t)) <==>
            caller.AllowsAny("events", "read")
  {
    filters := NarrowedFilters(caller, "events", {"read"});
    forall t ensures GrantedValue(caller, "events", {"read"}, t) <==> caller.Allows("events", "read", t) {
    }
    assert GrantedAny(caller, "events", {"read"}) <==> caller.AllowsAny("events", "read");
  }

  // The coverage check of an explicit query, term by term.
  method FirstUncovered(caller: Principal, requested: seq<string>) returns (refused: Option<string>)
    ensures refused.None? <==> forall value :: value in requested ==> caller.Covers("events", "read", TrimSpace(value))
  {
    for i := 0 to |requested|
      invariant forall value :: value in requested[..i] ==> caller.Covers("events", "read", TrimSpace(value))
    {
      var pattern := TrimSpace(requested[i]);
      if !caller.Covers("events", "read", pattern) {
        assert requested[i] in requested;
        return Some(pattern);
      }
    }
    assert requested[..|requested|] == requested;
    return None;
  }

  /** A term is the catch-all, an event type, or `.*` after a dotted name that leaves room for a
      segment. */
  lemma LegalTermMeans(pattern: string)
    ensures LegalTerm(pattern) <==>
            || pattern == "*" || ValidEventType(pattern)
            || exists stem :: DottedName(stem) && |stem| + 2 <= 128 && pattern == stem + ".*"
  {
    if ValidEventType(pattern) {
      DottedNameIsExact(pattern);
    }
    if HasSuffix(pattern, ".*") {
      StemTakesSegment(TrimSuffix(pattern, ".*"));
      assert pattern == TrimSuffix(pattern, ".*") + ".*";
    }
    if stem :| DottedName(stem) && |stem| + 2 <= 128 && pattern == stem + ".*" {
      assert HasSuffix(pattern, ".*") && TrimSuffix(pattern, ".*") == stem;
    }
  }

  lemma StemTakesSegment(stem: string)
    ensures ValidEventType(stem + ".x") <==> DottedName(stem) && |stem| + 2 <= 128
  {
    var t := stem + ".x";
    assert t == stem + ['.'] + "x";
    SplitWithout("x", '.');
    SplitConcat(stem, "x", '.');
    assert Segment("x");
  }
}
