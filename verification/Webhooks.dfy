/** hub/webhooks.go with hub/internal/webhook/match.go and the store's webhook writes: what a
    registration or an edit must cover, and why a race of edits cannot widen an export. */
module Webhooks {
  import opened Wrappers
  import opened Text
  import opened Names
  import opened Scopes

  const ACTION_COMPLETED := "action.completed"
  const LINK_LOST := "server.link.lost"
  const LINK_RESTORED := "server.link.restored"
  const AUDIT_RECORDED := "audit.recorded"

  predicate Lifecycle(n: string) {
    n == ACTION_COMPLETED || n == LINK_LOST || n == LINK_RESTORED || n == AUDIT_RECORDED
  }

  predicate ReservedNamespace(value: string) {
    HasPrefix(value, "action.") || HasPrefix(value, "server.") || HasPrefix(value, "audit.")
  }

  predicate OptIn(n: string) {
    HasPrefix(n, "audit.")
  }

  predicate PatternAdmits(filter: string, n: string) {
    !(filter == "*" && OptIn(n)) && Match(filter, n)
  }

  predicate FilterAdmitsAudit(events: seq<string>) {
    exists filter :: filter in events && PatternAdmits(filter, AUDIT_RECORDED)
  }

  predicate SubscribesTelemetry(filter: string) {
    filter == "*" || !ReservedNamespace(filter)
  }

  // An empty filter is the catch-all.
  function Subscribed(events: seq<string>): seq<string> {
    if events == [] then ["*"] else events
  }

  // The event half of webhookMatches.
  predicate Admits(events: seq<string>, n: string) {
    exists filter :: filter in Subscribed(events) && PatternAdmits(filter, n)
  }

  /** Telemetry a plugin may publish: a namespaced type outside the hub's own namespaces. */
  predicate Telemetry(n: string) {
    DottedName(n) && '.' in n && !ReservedNamespace(n)
  }

  predicate Notification(n: string) {
    Lifecycle(n) || Telemetry(n)
  }

  datatype Refusal = NeedsEvents(pattern: string) | NeedsActions | NeedsServers | NeedsAdmin

  // What one pattern of a filter asks of the caller.
  predicate PatternCovered(caller: Principal, filter: string) {
    && (SubscribesTelemetry(filter) ==> caller.Covers("events", "read", filter))
    && (PatternAdmits(filter, ACTION_COMPLETED) ==> caller.Covers("actions", "read", "*"))
    && (PatternAdmits(filter, LINK_LOST) || PatternAdmits(filter, LINK_RESTORED) ==>
          caller.AllowsAny("servers", "read"))
    && (PatternAdmits(filter, AUDIT_RECORDED) ==> caller.IsAdmin())
  }

  predicate SubscriptionCovered(caller: Principal, events: seq<string>, namesServers: bool) {
    && (forall filter :: filter in Subscribed(events) ==> PatternCovered(caller, filter))
    && (namesServers ==> caller.AllowsAny("servers", "read"))
  }

  predicate AnyAdmits(patterns: seq<string>, n: string) {
    exists filter :: filter in patterns && PatternAdmits(filter, n)
  }

  lemma AnyAdmitsSnoc(patterns: seq<string>, filter: string, n: string)
    ensures AnyAdmits(patterns + [filter], n) <==> AnyAdmits(patterns, n) || PatternAdmits(filter, n)
  {
    assert filter in patterns + [filter];
    if f :| f in patterns && PatternAdmits(f, n) {
      assert f in patterns + [filter];
    }
  }

  ghost predicate TelemetryCovered(caller: Principal, patterns: seq<string>) {
    forall filter :: filter in patterns && SubscribesTelemetry(filter) ==> caller.Covers("events", "read", filter)
  }

  // The whole rule, by what the filter as a whole admits.
  lemma CoveredByNeeds(caller: Principal, events: seq<string>, namesServers: bool)
    ensures SubscriptionCovered(caller, events, namesServers) <==>
            && TelemetryCovered(caller, Subscribed(events))
            && (AnyAdmits(Subscribed(events), ACTION_COMPLETED) ==> caller.Covers("actions", "read", "*"))
            && (namesServers || AnyAdmits(Subscribed(events), LINK_LOST) || AnyAdmits(Subscribed(events), LINK_RESTORED) ==>
                  caller.AllowsAny("servers", "read"))
            && (AnyAdmits(Subscribed(events), AUDIT_RECORDED) ==> caller.IsAdmin())
  {
  }

  /** subscriptionCoverage: one pass that notes what the filter needs, then the checks. */
  method SubscriptionCoverage(caller: Principal, events: seq<string>, namesServers: bool)
    returns (refused: Option<Refusal>)
    ensures refused.None? <==> SubscriptionCovered(caller, events, namesServers)
  {
    var subscribed := Subscribed(events);
    var needsActions, needsServers, needsAdmin := false, namesServers, false;
    CoveredByNeeds(caller, events, namesServers);
    for i := 0 to |subscribed|
      invariant needsActions <==> AnyAdmits(subscribed[..i], ACTION_COMPLETED)
      invariant needsServers <==> namesServers || AnyAdmits(subscribed[..i], LINK_LOST) ||
                                  AnyAdmits(subscribed[..i], LINK_RESTORED)
      invariant needsAdmin <==> AnyAdmits(subscribed[..i], AUDIT_RECORDED)
      invariant TelemetryCovered(caller, subscribed[..i])
    {
      var pattern := subscribed[i];
      assert subscribed[..i + 1] == subscribed[..i] + [pattern];
      AnyAdmitsSnoc(subscribed[..i], pattern, ACTION_COMPLETED);
      AnyAdmitsSnoc(subscribed[..i], pattern, LINK_LOST);
      AnyAdmitsSnoc(subscribed[..i], pattern, LINK_RESTORED);
      AnyAdmitsSnoc(subscribed[..i], pattern, AUDIT_RECORDED);
      if PatternAdmits(pattern, ACTION_COMPLETED) {
        needsActions := true;
      }
      if PatternAdmits(pattern, LINK_LOST) || PatternAdmits(pattern, LINK_RESTORED) {
        needsServers := true;
      }
      if PatternAdmits(pattern, AUDIT_RECORDED) {
        needsAdmin := true;
      }
      if SubscribesTelemetry(pattern) && !caller.Covers("events", "read", pattern) {
        return Some(NeedsEvents(pattern));
      }
    }
    assert subscribed[..|subscribed|] == subscribed;
    if needsActions && !caller.Covers("actions", "read", "*") {
      return Some(NeedsActions);
    }
    if needsServers && !caller.AllowsAny("servers", "read") {
      return Some(NeedsServers);
    }
    if needsAdmin && !caller.IsAdmin() {
      return Some(NeedsAdmin);
    }
    return None;
  }

  /** notificationCoverage: whether the caller may export one stored notification type. */
  predicate NotificationCovered(caller: Principal, n: string) {
    if n == ACTION_COMPLETED then caller.Covers("actions", "read", "*")
    else if n == LINK_LOST || n == LINK_RESTORED then caller.AllowsAny("servers", "read")
    else if OptIn(n) then caller.IsAdmin()
    else caller.Covers("events", "read", n)
  }

  lemma LifecycleIsReserved(n: string)
    requires Lifecycle(n)
    ensures ReservedNamespace(n) && (OptIn(n) <==> n == AUDIT_RECORDED)
  {
    assert ACTION_COMPLETED == "action." + "completed" && AUDIT_RECORDED == "audit." + "recorded";
    assert LINK_LOST == "server." + "link.lost" && LINK_RESTORED == "server." + "link.restored";
    assert "audit."[0] == 'a' && "audit."[1] == 'u' && ACTION_COMPLETED[1] == 'c';
  }

  // A pattern inside a reserved namespace matches nothing outside it.
  lemma ReservedPatternStaysInside(filter: string, n: string)
    requires ReservedNamespace(filter) && Match(filter, n) && filter != "*"
    ensures ReservedNamespace(n)
  {
    if HasSuffix(filter, ".*") {
      WildcardSuffix(filter);
      var head := if HasPrefix(filter, "action.") then "action." else if HasPrefix(filter, "server.") then "server." else "audit.";
      assert filter[..|head|] == head;
      assert filter[|filter| - 1] == '*' && head[|head| - 1] == '.';
      assert n[..|filter| - 1] == filter[..|filter| - 1];
      assert n[..|head|] == head;
    }
  }

  /** Registration covers every export: if a subscription is accepted, the caller could have
      replayed or redirected each notification its filter admits. */
  lemma SubscriptionCoversExports(caller: Principal, events: seq<string>, namesServers: bool, n: string)
    requires SubscriptionCovered(caller, events, namesServers)
    requires Notification(n) && Admits(events, n)
    ensures NotificationCovered(caller, n)
  {
    var filter :| filter in Subscribed(events) && PatternAdmits(filter, n);
    assert PatternCovered(caller, filter);
    if Lifecycle(n) {
      LifecycleIsReserved(n);
    } else {
      if !SubscribesTelemetry(filter) {
        ReservedPatternStaysInside(filter, n);
      }
      DottedNameIsExact(n);
      CoversSound(caller, "events", "read", filter, n);
      CoversOneValue(caller, "events", "read", n);
    }
  }

  // The patterns a filter may hold that name something a hub can send.
  predicate Meaningful(filter: string) {
    ValidScopePattern(filter) && (ExactPattern(filter) ==> '.' in filter)
  }

  // One more segment takes no name into a reserved namespace.
  lemma ExtensionStaysOutside(stem: string, tail: string)
    requires !ReservedNamespace(stem + ".")
    ensures !ReservedNamespace(stem + "." + tail)
  {
    var value := stem + "." + tail;
    assert value[..|stem| + 1] == stem + "." && value[|stem|] == '.';
    forall head | head == "action." || head == "server." || head == "audit." ensures !HasPrefix(value, head) {
      if |head| <= |stem| + 1 {
        assert HasPrefix(value, head) ==> HasPrefix(stem + ".", head);
      } else {
        assert head[|stem|] != '.';
      }
    }
  }

  lemma RunOfA(n: nat)
    ensures Segment(FreshSegment(n)) && DottedName(FreshSegment(n)) && !ReservedNamespace(FreshSegment(n) + ".")
  {
    var run := FreshSegment(n);
    assert '.' !in run;
    SplitWithout(run, '.');
    assert run[0] == 'a' && (|run| > 1 ==> run[1] == 'a');
    assert (run + ".")[1] == 'a' || (run + ".")[1] == '.';
    assert "action."[1] == 'c' && "audit."[1] == 'u' && "server."[0] == 's';
  }

  lemma WitnessIsTelemetry(filter: string, n: nat)
    requires Meaningful(filter) && SubscribesTelemetry(filter)
    ensures Telemetry(Witness(filter, n)) && PatternAdmits(filter, Witness(filter, n))
  {
    var run := FreshSegment(n);
    RunOfA(n);
    if filter == "*" {
      SegmentExtends(run, "a");
      ExtensionStaysOutside(run, "a");
      assert Witness(filter, n) == run + "." + "a";
    } else if HasSuffix(filter, ".*") {
      WildcardSuffix(filter);
      var stem := TrimSuffix(filter, ".*");
      assert filter == stem + "." + "*";
      SegmentExtends(stem, run);
      assert !ReservedNamespace(stem + ".");
      ExtensionStaysOutside(stem, run);
      assert Witness(filter, n) == stem + "." + run;
    } else {
      DottedNameIsExact(filter);
    }
  }

  // A pattern naming one undotted type, which nothing the hub sends has.
  predicate Dotless(filter: string) {
    ExactPattern(filter) && '.' !in filter
  }

  lemma PrefixBringsDot(value: string, head: string, i: nat)
    requires i < |head| && head[i] == '.'
    ensures HasPrefix(value, head) ==> '.' in value
  {
    assert HasPrefix(value, head) ==> value[i] == '.';
  }

  lemma DotlessIsFree(filter: string)
    requires Dotless(filter)
    ensures SubscribesTelemetry(filter)
    ensures forall n :: Lifecycle(n) ==> !PatternAdmits(filter, n)
  {
    PrefixBringsDot(filter, "action.", 6);
    PrefixBringsDot(filter, "server.", 6);
    PrefixBringsDot(filter, "audit.", 5);
    LifecycleIsReserved(ACTION_COMPLETED);
    LifecycleIsReserved(LINK_LOST);
    LifecycleIsReserved(LINK_RESTORED);
    LifecycleIsReserved(AUDIT_RECORDED);
  }

  lemma DotlessCovered(caller: Principal, filter: string)
    requires Dotless(filter)
    ensures PatternCovered(caller, filter) <==> caller.Allows("events", "read", filter)
  {
    DotlessIsFree(filter);
    assert Lifecycle(ACTION_COMPLETED) && Lifecycle(LINK_LOST) && Lifecycle(LINK_RESTORED) && Lifecycle(AUDIT_RECORDED);
    CoversOneValue(caller, "events", "read", filter);
  }

  /** The rule is no stricter than it must be: a subscription to valid patterns is accepted exactly
      when every notification it admits is one the caller may export, a caller naming servers may
      read them, and each undotted type it names, which no notification has, is one the caller may
      read. */
  lemma SubscriptionExactly(caller: Principal, events: seq<string>, namesServers: bool)
    requires forall filter :: filter in events ==> ValidScopePattern(filter)
    ensures SubscriptionCovered(caller, events, namesServers) <==>
            && (namesServers ==> caller.AllowsAny("servers", "read"))
            && (forall n :: Notification(n) && Admits(events, n) ==> NotificationCovered(caller, n))
            && (forall filter :: filter in events && Dotless(filter) ==> caller.Allows("events", "read", filter))
  {
    if SubscriptionCovered(caller, events, namesServers) {
      forall n | Notification(n) && Admits(events, n) ensures NotificationCovered(caller, n) {
        SubscriptionCoversExports(caller, events, namesServers, n);
      }
      forall filter | filter in events && Dotless(filter) ensures caller.Allows("events", "read", filter) {
        assert filter in Subscribed(events) && PatternCovered(caller, filter);
        DotlessCovered(caller, filter);
      }
    } else if namesServers ==> caller.AllowsAny("servers", "read") {
      var filter :| filter in Subscribed(events) && !PatternCovered(caller, filter);
      if Dotless(filter) {
        DotlessCovered(caller, filter);
      } else {
        UncoveredExport(caller, events, filter);
      }
    }
  }

  lemma UncoveredExport(caller: Principal, events: seq<string>, filter: string)
    requires filter in Subscribed(events) && (filter == "*" || Meaningful(filter)) && !PatternCovered(caller, filter)
    ensures exists n :: Notification(n) && Admits(events, n) && !NotificationCovered(caller, n)
  {
    UncoveredPatternExports(caller, filter);
    var n :| Notification(n) && PatternAdmits(filter, n) && !NotificationCovered(caller, n);
    assert Admits(events, n);
  }

  lemma TelemetryAsks(caller: Principal, n: string)
    requires Telemetry(n)
    ensures NotificationCovered(caller, n) <==> caller.Covers("events", "read", n)
  {
    if Lifecycle(n) {
      LifecycleIsReserved(n);
    }
  }

  lemma UncoveredTelemetry(caller: Principal, filter: string) returns (n: string)
    requires (filter == "*" || Meaningful(filter)) && SubscribesTelemetry(filter) && !caller.Covers("events", "read", filter)
    ensures Notification(n) && PatternAdmits(filter, n) && !NotificationCovered(caller, n)
  {
    assert Meaningful("*");
    var k := LongestPattern(caller.scopes);
    n := Witness(filter, k);
    WitnessIsTelemetry(filter, k);
    CoversComplete(caller, "events", "read", filter, k);
    DottedNameIsExact(n);
    CoversOneValue(caller, "events", "read", n);
    TelemetryAsks(caller, n);
  }

  lemma UncoveredPatternExports(caller: Principal, filter: string)
    requires (filter == "*" || Meaningful(filter)) && !PatternCovered(caller, filter)
    ensures exists n :: Notification(n) && PatternAdmits(filter, n) && !NotificationCovered(caller, n)
  {
    if SubscribesTelemetry(filter) && !caller.Covers("events", "read", filter) {
      var n := UncoveredTelemetry(caller, filter);
    } else {
      LifecycleIsReserved(ACTION_COMPLETED);
      LifecycleIsReserved(LINK_LOST);
      LifecycleIsReserved(LINK_RESTORED);
      LifecycleIsReserved(AUDIT_RECORDED);
      var n := if PatternAdmits(filter, ACTION_COMPLETED) && !caller.Covers("actions", "read", "*") then ACTION_COMPLETED
               else if PatternAdmits(filter, AUDIT_RECORDED) && !caller.IsAdmin() then AUDIT_RECORDED
               else if PatternAdmits(filter, LINK_LOST) then LINK_LOST else LINK_RESTORED;
      assert Notification(n) && PatternAdmits(filter, n) && !NotificationCovered(caller, n);
    }
  }

  /** Where the two rules part: a reserved type that is not one of the hub's four notifications
      can be subscribed to by a caller with no grants at all, though redirecting it would be
      refused. For a legal type, acceptance implies coverage for every caller and filter if and
      only if the type is a lifecycle notification or lies outside the reserved namespaces. */
  lemma ReservedTypesEscape(n: string)
    requires DottedName(n) && '.' in n
    ensures (forall caller, events :: SubscriptionCovered(caller, events, false) && Admits(events, n) ==>
                                        NotificationCovered(caller, n)) <==>
            Lifecycle(n) || !ReservedNamespace(n)
  {
    if Lifecycle(n) || !ReservedNamespace(n) {
      forall caller, events | SubscriptionCovered(caller, events, false) && Admits(events, n)
        ensures NotificationCovered(caller, n)
      {
        SubscriptionCoversExports(caller, events, false, n);
      }
    } else {
      DottedNameIsExact(n);
      var nobody := Principal([], []);
      assert n in Subscribed([n]) && PatternAdmits(n, n);
      assert SubscriptionCovered(nobody, [n], false) && Admits([n], n) && !NotificationCovered(nobody, n);
    }
  }

  /** What it takes to export a notification: of a finished action, to read every action; of a link,
      to read servers; of the audit namespace, to be an admin; of telemetry, to read that very type. */
  lemma CoveredMeans(caller: Principal, n: string)
    ensures n == "action.completed" ==>
              (NotificationCovered(caller, n) <==> forall code :: caller.Allows("actions", "read", code))
    ensures n == "server.link.lost" || n == "server.link.restored" ==>
              (NotificationCovered(caller, n) <==> caller.AllowsAny("servers", "read"))
    ensures "audit." <= n ==> (NotificationCovered(caller, n) <==> exists scope :: scope in caller.scopes && scope.resource == "admin")
    ensures Telemetry(n) ==> (NotificationCovered(caller, n) <==> caller.Allows("events", "read", n))
  {
    CoversExactly(caller, "actions", "read", "*");
    if Lifecycle(n) {
      LifecycleIsReserved(n);
    }
    if "audit." <= n {
      assert n[1] == 'u' && ACTION_COMPLETED[1] == 'c' && LINK_LOST[1] == 'e' && LINK_RESTORED[1] == 'e';
    }
    if Telemetry(n) {
      DottedNameIsExact(n);
      CoversOneValue(caller, "events", "read", n);
    }
  }
}
