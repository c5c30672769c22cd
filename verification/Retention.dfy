/** hub/events.go: how long an event type is kept. */
module Retention {
  datatype Rule = Rule(pattern: string, ttl: int)

  // Thirty days, in nanoseconds.
  const DEFAULT_RETENTION_TTL := 2_592_000_000_000_000

  // A namespace pattern whose prefix, dot included, begins the type.
  predicate Namespaces(pattern: string, eventType: string) {
    && |pattern| >= 2 && pattern[|pattern| - 2] == '.' && pattern[|pattern| - 1] == '*'
    && pattern[..|pattern| - 1] <= eventType
  }

  // retentionMatch: -1 for no match, else how specifically the pattern matches.
  function Score(pattern: string, eventType: string): (score: int)
    ensures -1 <= score
  {
    if pattern == "*" then 0
    else if pattern == eventType then |eventType| + 1
    else if Namespaces(pattern, eventType) then |pattern| - 1
    else -1
  }

  // A pattern for the types under a stem.
  ghost predicate Under(pattern: string, stem: string, eventType: string) {
    pattern == stem + ".*" && stem + "." <= eventType
  }

  lemma UnderIsNamespace(pattern: string, stem: string, eventType: string)
    ensures Under(pattern, stem, eventType) <==> Namespaces(pattern, eventType) && stem == pattern[..|pattern| - 2]
  {
    if Under(pattern, stem, eventType) {
      assert pattern[..|pattern| - 1] == stem + ".";
      assert pattern[..|pattern| - 2] == stem;
    }
    if Namespaces(pattern, eventType) && stem == pattern[..|pattern| - 2] {
      assert stem + "." == pattern[..|pattern| - 1];
      assert stem + ".*" == pattern;
    }
  }

  /** What a pattern scores: nothing for the catch-all, the type's length and one for the type itself,
      the length of stem and dot for a stem the type is under, and -1 exactly when it is none of these. */
  lemma ScoreMeans(pattern: string, stem: string, eventType: string)
    ensures Score(pattern, eventType) == 0 <==> pattern == "*"
    ensures pattern != "*" && pattern == eventType ==> Score(pattern, eventType) == |eventType| + 1
    ensures pattern != eventType && Under(pattern, stem, eventType) ==> Score(pattern, eventType) == |stem| + 1
    ensures Score(pattern, eventType) == -1 <==> pattern != "*" && pattern != eventType && !SomeUnder(pattern, eventType)
  {
    UnderIsNamespace(pattern, stem, eventType);
    if Namespaces(pattern, eventType) {
      UnderIsNamespace(pattern, pattern[..|pattern| - 2], eventType);
    } else {
      NotUnder(pattern, eventType);
    }
  }

  ghost predicate SomeUnder(pattern: string, eventType: string) {
    exists stem :: Under(pattern, stem, eventType)
  }

  lemma NotUnder(pattern: string, eventType: string)
    requires !Namespaces(pattern, eventType)
    ensures !SomeUnder(pattern, eventType)
  {
    if stem :| Under(pattern, stem, eventType) {
      UnderIsNamespace(pattern, stem, eventType);
    }
  }

  // What a rule offers a type: its TTL, and how specifically; -1 when it has nothing to say.
  datatype Offer = Offer(ttl: int, score: int)

  function OfferOf(rule: Rule, eventType: string): (offer: Offer)
    ensures -1 <= offer.score && offer.ttl == rule.ttl
    ensures rule.ttl > 0 ==> offer.score == Score(rule.pattern, eventType)
    ensures rule.ttl <= 0 ==> offer.score == -1
  {
    Offer(rule.ttl, if rule.ttl <= 0 then -1 else Score(rule.pattern, eventType))
  }

  function Offers(rules: seq<Rule>, eventType: string): (offers: seq<Offer>)
    ensures |offers| == |rules| && forall i :: 0 <= i < |rules| ==> offers[i] == OfferOf(rules[i], eventType)
  {
    seq(|rules|, i requires 0 <= i < |rules| => OfferOf(rules[i], eventType))
  }

  // An offer that no other outscores.
  predicate IsBest(offers: seq<Offer>, i: int) {
    0 <= i < |offers| && offers[i].score >= 0 && forall j :: 0 <= j < |offers| ==> offers[j].score <= offers[i].score
  }

  predicate FirstBest(offers: seq<Offer>, i: int) {
    IsBest(offers, i) && forall j :: 0 <= j < i ==> offers[j].score < offers[i].score
  }

  // The TTL a type is given: its first best offer's, or the default when there is none.
  ghost predicate Gives(offers: seq<Offer>, ttl: int) {
    || (exists i :: FirstBest(offers, i) && offers[i].ttl == ttl)
    || ((forall i :: 0 <= i < |offers| ==> offers[i].score < 0) && ttl == DEFAULT_RETENTION_TTL)
  }

  method RetentionFor(rules: seq<Rule>, eventType: string) returns (best: int)
    ensures best > 0
    ensures Gives(Offers(rules, eventType), best)
  {
    best := 0;
    var bestScore := -1;
    ghost var offers := Offers(rules, eventType);
    ghost var chosen := -1;
    for k := 0 to |rules|
      invariant bestScore >= -1 && -1 <= chosen < k
      invariant bestScore == -1 <==> chosen == -1
      invariant chosen >= 0 ==> offers[chosen] == Offer(best, bestScore) && best > 0
      invariant forall j :: 0 <= j < k ==> offers[j].score <= bestScore && (j < chosen ==> offers[j].score < bestScore)
    {
      assert offers[k] == OfferOf(rules[k], eventType);
      if rules[k].ttl > 0 {
        var score := Score(rules[k].pattern, eventType);
        if score > bestScore {
          best, bestScore, chosen := rules[k].ttl, score, k;
        }
      }
    }
    if bestScore < 0 {
      return DEFAULT_RETENTION_TTL;
    }
    assert FirstBest(offers, chosen);
  }

  /** Distinct patterns never tie on a type they both match. */
  lemma NoTies(a: string, b: string, eventType: string)
    requires Score(a, eventType) == Score(b, eventType) >= 0
    ensures a == b
  {
    if a != "*" && a != eventType && b != "*" && b != eventType {
      assert a[..|a| - 1] == eventType[..|a| - 1] == b[..|b| - 1];
      assert a == a[..|a| - 1] + "*" && b == b[..|b| - 1] + "*";
    }
  }

  /** Exact beats any prefix, a longer prefix a shorter one, and the catch-all loses to both. */
  lemma SpecificityOrder(stem: string, longer: string, eventType: string)
    requires stem + "." <= eventType && longer + "." <= eventType && |stem| < |longer|
    requires eventType != "*" && eventType != stem + ".*" && eventType != longer + ".*"
    ensures 0 == Score("*", eventType) < Score(stem + ".*", eventType)
            < Score(longer + ".*", eventType) < Score(eventType, eventType)
  {
    PrefixScores(stem, eventType);
    PrefixScores(longer, eventType);
  }

  lemma PrefixScores(stem: string, eventType: string)
    requires stem + "." <= eventType && eventType != stem + ".*"
    ensures Score(stem + ".*", eventType) == |stem| + 1
  {
    var pattern := stem + ".*";
    assert pattern[..|pattern| - 1] == stem + ".";
    assert pattern != "*";
  }

  // The best offers agree on their TTL.
  ghost predicate BestAgree(offers: seq<Offer>) {
    forall i, j :: IsBest(offers, i) && IsBest(offers, j) ==> offers[i].ttl == offers[j].ttl
  }

  ghost predicate SameMembers(a: seq<Offer>, b: seq<Offer>) {
    forall offer :: offer in a <==> offer in b
  }

  lemma PermutedOffers(rules: seq<Rule>, other: seq<Rule>, eventType: string)
    requires multiset(rules) == multiset(other)
    ensures SameMembers(Offers(rules, eventType), Offers(other, eventType))
  {
    OffersFrom(rules, other, eventType);
    OffersFrom(other, rules, eventType);
  }

  lemma OffersFrom(rules: seq<Rule>, other: seq<Rule>, eventType: string)
    requires multiset(rules) == multiset(other)
    ensures forall offer :: offer in Offers(rules, eventType) ==> offer in Offers(other, eventType)
  {
    var offers, others := Offers(rules, eventType), Offers(other, eventType);
    forall offer | offer in offers ensures offer in others {
      var i :| 0 <= i < |offers| && offers[i] == offer;
      assert rules[i] in multiset(rules);
      var k :| 0 <= k < |other| && other[k] == rules[i];
      assert others[k] == offer;
    }
  }

  // Being best is about the offers, not their order.
  lemma BestAnywhere(a: seq<Offer>, b: seq<Offer>, i: nat) returns (k: nat)
    requires SameMembers(a, b) && IsBest(a, i)
    ensures IsBest(b, k) && b[k] == a[i]
  {
    assert a[i] in b;
    k :| 0 <= k < |b| && b[k] == a[i];
    forall j | 0 <= j < |b| ensures b[j].score <= b[k].score {
      assert b[j] in a;
    }
  }

  lemma {:induction false} FirstBestExists(offers: seq<Offer>, i: nat) returns (first: nat)
    requires IsBest(offers, i)
    ensures FirstBest(offers, first)
    decreases i
  {
    if j :| 0 <= j < i && offers[j].score >= offers[i].score {
      first := FirstBestExists(offers, j);
    } else {
      first := i;
    }
  }

  lemma GivesOnlyBest(a: seq<Offer>, b: seq<Offer>, ttl: int)
    requires SameMembers(a, b) && BestAgree(a) && Gives(a, ttl)
    ensures Gives(b, ttl)
  {
    if i :| FirstBest(a, i) && a[i].ttl == ttl {
      var k := BestAnywhere(a, b, i);
      var first := FirstBestExists(b, k);
      assert SameMembers(b, a);
      var back := BestAnywhere(b, a, first);
      assert a[back].ttl == a[i].ttl;
    } else {
      forall k | 0 <= k < |b| ensures b[k].score < 0 {
        assert b[k] in a;
      }
    }
  }

  lemma FrontGives(offers: seq<Offer>, ttl: int)
    requires IsBest(offers, 0) && offers[0].ttl != ttl
    ensures !Gives(offers, ttl)
  {
    forall i | FirstBest(offers, i) ensures i == 0 {
    }
  }

  /** When the order of the rules matters: every permutation gives the type the same TTL exactly
      when the most specific of its rules agree on one. */
  lemma OrderIrrelevantIff(rules: seq<Rule>, eventType: string, ttl: int)
    requires Gives(Offers(rules, eventType), ttl)
    ensures BestAgree(Offers(rules, eventType)) <==>
            forall other :: multiset(other) == multiset(rules) ==> Gives(Offers(other, eventType), ttl)
  {
    var offers := Offers(rules, eventType);
    if BestAgree(offers) {
      forall other | multiset(other) == multiset(rules) ensures Gives(Offers(other, eventType), ttl) {
        PermutedOffers(rules, other, eventType);
        GivesOnlyBest(offers, Offers(other, eventType), ttl);
      }
    } else {
      var i, j :| IsBest(offers, i) && IsBest(offers, j) && offers[i].ttl != offers[j].ttl;
      var k := if offers[i].ttl == ttl then j else i;
      var other := [rules[k]] + rules[..k] + rules[k + 1..];
      MovedToFront(rules, k);
      PermutedOffers(rules, other, eventType);
      FrontIsBest(offers, Offers(other, eventType), k);
      FrontGives(Offers(other, eventType), ttl);
    }
  }

  lemma FrontIsBest(a: seq<Offer>, b: seq<Offer>, k: nat)
    requires SameMembers(a, b) && IsBest(a, k) && b != [] && b[0] == a[k]
    ensures IsBest(b, 0)
  {
    forall j | 0 <= j < |b| ensures b[j].score <= b[0].score {
      assert b[j] in a;
    }
  }

  lemma MovedToFront(rules: seq<Rule>, k: nat)
    requires k < |rules|
    ensures multiset([rules[k]] + rules[..k] + rules[k + 1..]) == multiset(rules)
  {
    assert rules == rules[..k] + [rules[k]] + rules[k + 1..];
  }

  /** With one rule per pattern the order never matters. */
  lemma DistinctPatternsAgree(rules: seq<Rule>, eventType: string)
    requires forall i, j :: 0 <= i < j < |rules| ==> rules[i].pattern != rules[j].pattern
    ensures BestAgree(Offers(rules, eventType))
  {
    var offers := Offers(rules, eventType);
    forall i, j | IsBest(offers, i) && IsBest(offers, j) ensures offers[i].ttl == offers[j].ttl {
      NoTies(rules[i].pattern, rules[j].pattern, eventType);
    }
  }
}
