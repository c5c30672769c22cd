/** Following nextCursor: walks in pages of at most `limit`, each read with one row past the page,
    over a store that may change between any two pages. */
module Walks {
  import opened ByteOrder
  import opened Wrappers

  /** A place in a listing: its order columns, compared left to right in byte order. The empty
      place is before everything. */
  type Place = seq<string>

  predicate Before(a: Place, b: Place) {
    b != [] && (a == [] || Less(a[0], b[0]) || (a[0] == b[0] && Before(a[1..], b[1..])))
  }

  lemma {:induction false} BeforeIrreflexive(a: Place)
    ensures !Before(a, a)
  {
    if a != [] {
      LessIrreflexive(a[0]);
      BeforeIrreflexive(a[1..]);
    }
  }

  lemma {:induction false} BeforeTransitive(a: Place, b: Place, c: Place)
    requires Before(a, b) && Before(b, c)
    ensures Before(a, c)
  {
    if a != [] {
      if Less(a[0], b[0]) && Less(b[0], c[0]) {
        LessTransitive(a[0], b[0], c[0]);
      } else if a[0] == b[0] == c[0] && !Less(a[0], b[0]) && !Less(b[0], c[0]) {
        BeforeTransitive(a[1..], b[1..], c[1..]);
      } else if a[0] == b[0] == c[0] {
        LessIrreflexive(a[0]);
      }
    }
  }

  lemma {:induction false} BeforeTotal(a: Place, b: Place)
    ensures a == b || Before(a, b) || Before(b, a)
  {
    if a != [] && b != [] {
      LessTotal(a[0], b[0]);
      if a[0] == b[0] {
        BeforeTotal(a[1..], b[1..]);
        assert a == [a[0]] + a[1..] && b == [b[0]] + b[1..];
      }
    }
  }

  ghost predicate Ascending(places: seq<Place>) {
    forall i, j :: 0 <= i < j < |places| ==> Before(places[i], places[j])
  }

  /** A read of at most `count` rows after a place: in order, live, and skipping nothing. */
  ghost predicate IsRead(live: set<Place>, after: Place, count: nat, found: seq<Place>) {
    && |found| <= count
    && Ascending(found)
    && (forall p :: p in found ==> p in live && Before(after, p))
    && (forall p :: p in live && Before(after, p) && p !in found ==>
          |found| == count && forall q :: q in found ==> Before(q, p))
  }

  // The page a read of one row past the limit makes, and the place its cursor names.
  function Page(found: seq<Place>, limit: nat): (page: (seq<Place>, Option<Place>))
    requires limit > 0
  {
    if |found| > limit then (found[..limit], Some(found[limit - 1])) else (found, None)
  }

  ghost predicate IsPage(live: set<Place>, after: Place, limit: nat, places: seq<Place>, next: Option<Place>)
    requires limit > 0
  {
    exists found :: IsRead(live, after, limit + 1, found) && Page(found, limit) == (places, next)
  }

  /** A finished walk: one page against each store in turn, each with a limit of its own and from
      the last one's cursor, the last with no cursor. */
  ghost predicate IsWalk(stores: seq<set<Place>>, after: Place, limits: seq<nat>, pages: seq<seq<Place>>)
    decreases |pages|
  {
    && pages != [] && |stores| == |limits| == |pages| && limits[0] > 0
    && exists next :: IsPage(stores[0], after, limits[0], pages[0], next) &&
         (if |pages| == 1 then next == None
          else next.Some? && IsWalk(stores[1..], next.value, limits[1..], pages[1..]))
  }

  function Flatten(pages: seq<seq<Place>>): (places: seq<Place>) {
    if pages == [] then [] else pages[0] + Flatten(pages[1..])
  }

  /** A page and its cursor divide what follows: nothing on the page is past the cursor, and
      whatever is live is on the page or past the cursor, or there is no cursor and it is on the
      page. */
  lemma PageDivides(live: set<Place>, after: Place, limit: nat, places: seq<Place>, next: Option<Place>)
    requires limit > 0 && IsPage(live, after, limit, places, next)
    ensures Ascending(places) && |places| <= limit
    ensures forall p :: p in places ==> p in live && Before(after, p)
    ensures next.Some? ==> |places| == limit && next.value == places[limit - 1]
    ensures next.Some? ==> forall p :: p in places ==> p == next.value || Before(p, next.value)
    ensures forall p :: p in live && Before(after, p) ==> p in places || (next.Some? && Before(next.value, p))
  {
    var found :| IsRead(live, after, limit + 1, found) && Page(found, limit) == (places, next);
    if next.Some? {
      assert forall k :: 0 <= k < limit ==> found[k] == places[k] && places[k] in places;
      forall p | p in places ensures p == next.value || Before(p, next.value) {
        var i :| 0 <= i < |places| && places[i] == p;
      }
      forall p | p in live && Before(after, p) && p !in places ensures Before(next.value, p) {
        if p in found {
          var i :| 0 <= i < |found| && found[i] == p;
          assert i >= limit;
        } else {
          assert found[limit - 1] in found;
        }
      }
    }
  }

  // Everything a walk lists comes after the place it started from.
  lemma {:induction false} WalkAfter(stores: seq<set<Place>>, after: Place, limits: seq<nat>, pages: seq<seq<Place>>, p: Place)
    requires IsWalk(stores, after, limits, pages) && p in Flatten(pages)
    ensures Before(after, p)
    decreases |pages|
  {
    var next :| IsPage(stores[0], after, limits[0], pages[0], next) &&
                (if |pages| == 1 then next == None else next.Some? && IsWalk(stores[1..], next.value, limits[1..], pages[1..]));
    PageDivides(stores[0], after, limits[0], pages[0], next);
    if p !in pages[0] {
      WalkAfter(stores[1..], next.value, limits[1..], pages[1..], p);
      assert next.value in pages[0];
      BeforeTransitive(after, next.value, p);
    }
  }

  /** A walk is strictly ascending, so it lists nothing twice, whatever changed between pages. */
  lemma {:induction false} WalkAscends(stores: seq<set<Place>>, after: Place, limits: seq<nat>, pages: seq<seq<Place>>)
    requires IsWalk(stores, after, limits, pages)
    ensures Ascending(Flatten(pages))
    decreases |pages|
  {
    var next :| IsPage(stores[0], after, limits[0], pages[0], next) &&
                (if |pages| == 1 then next == None else next.Some? && IsWalk(stores[1..], next.value, limits[1..], pages[1..]));
    PageDivides(stores[0], after, limits[0], pages[0], next);
    if |pages| == 1 {
      assert Flatten(pages[1..]) == [];
      assert Flatten(pages) == pages[0];
    } else {
      var rest := Flatten(pages[1..]);
      WalkAscends(stores[1..], next.value, limits[1..], pages[1..]);
      forall p, q | p in pages[0] && q in rest ensures Before(p, q) {
        WalkAfter(stores[1..], next.value, limits[1..], pages[1..], q);
        if p != next.value {
          BeforeTransitive(p, next.value, q);
        }
      }
      AscendingConcat(pages[0], rest);
    }
  }

  lemma AscendingConcat(a: seq<Place>, b: seq<Place>)
    requires Ascending(a) && Ascending(b) && forall p, q :: p in a && q in b ==> Before(p, q)
    ensures Ascending(a + b)
  {
    forall i, j | 0 <= i < j < |a + b| ensures Before((a + b)[i], (a + b)[j]) {
      if i < |a| <= j {
        assert a[i] in a && b[j - |a|] in b;
      }
    }
  }

  /** A walk meets everything that was live at every one of its pages. */
  lemma {:induction false} WalkMeets(stores: seq<set<Place>>, after: Place, limits: seq<nat>, pages: seq<seq<Place>>, p: Place)
    requires IsWalk(stores, after, limits, pages)
    requires Before(after, p) && forall i :: 0 <= i < |stores| ==> p in stores[i]
    ensures p in Flatten(pages)
    decreases |pages|
  {
    var next :| IsPage(stores[0], after, limits[0], pages[0], next) &&
                (if |pages| == 1 then next == None else next.Some? && IsWalk(stores[1..], next.value, limits[1..], pages[1..]));
    PageDivides(stores[0], after, limits[0], pages[0], next);
    if p !in pages[0] {
      WalkMeets(stores[1..], next.value, limits[1..], pages[1..], p);
    }
  }

  /** What it lists was live when its page was read. */
  lemma {:induction false} WalkLists(stores: seq<set<Place>>, after: Place, limits: seq<nat>, pages: seq<seq<Place>>, p: Place)
    returns (i: nat)
    requires IsWalk(stores, after, limits, pages) && p in Flatten(pages)
    ensures i < |pages| == |stores| && p in pages[i] && p in stores[i]
    decreases |pages|
  {
    var next :| IsPage(stores[0], after, limits[0], pages[0], next) &&
                (if |pages| == 1 then next == None else next.Some? && IsWalk(stores[1..], next.value, limits[1..], pages[1..]));
    PageDivides(stores[0], after, limits[0], pages[0], next);
    if p in pages[0] {
      i := 0;
    } else {
      i := WalkLists(stores[1..], next.value, limits[1..], pages[1..], p);
      i := i + 1;
    }
  }

  /** Over a store that does not change, a walk from the start lists exactly it, once, in order. */
  lemma WalkIsExact(live: set<Place>, stores: seq<set<Place>>, limits: seq<nat>, pages: seq<seq<Place>>)
    requires IsWalk(stores, [], limits, pages)
    requires [] !in live && forall i :: 0 <= i < |stores| ==> stores[i] == live
    ensures Ascending(Flatten(pages)) && forall p :: p in Flatten(pages) <==> p in live
    ensures forall i, j :: 0 <= i < j < |Flatten(pages)| ==> Flatten(pages)[i] != Flatten(pages)[j]
  {
    WalkAscends(stores, [], limits, pages);
    var all := Flatten(pages);
    forall i, j | 0 <= i < j < |all| ensures all[i] != all[j] {
      AscendingDistinct(all, i, j);
    }
    forall p ensures p in Flatten(pages) <==> p in live {
      if p in live {
        WalkMeets(stores, [], limits, pages, p);
      }
      if p in Flatten(pages) {
        var i := WalkLists(stores, [], limits, pages, p);
      }
    }
  }

  lemma AscendingDistinct(places: seq<Place>, i: nat, j: nat)
    requires Ascending(places) && i < j < |places|
    ensures places[i] != places[j]
  {
    BeforeIrreflexive(places[i]);
  }
}
