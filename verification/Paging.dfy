/**
 Cursor pagination over a strictly ordered listing, walked page by page while the
 underlying set may change between calls.
 */
module Paging {
  import opened Order
  import opened Wrappers

  datatype Page<K> = Page(items: seq<K>, next: Option<K>)

  /** `next` is the last item of a full page with more rows waiting. */
  function Paginate<K>(sorted: seq<K>, limit: int): Page<K> {
    if limit <= 0 then Page([], None)
    else if |sorted| <= limit then Page(sorted, None)
    else Page(sorted[..limit], Some(sorted[limit - 1]))
  }

  ghost function After<K>(less: (K, K) -> bool, cursor: Option<K>, snap: set<K>): set<K> {
    set k | k in snap && (cursor.Some? ==> less(cursor.value, k))
  }

  ghost function PageOf<K(!new)>(less: (K, K) -> bool, snap: set<K>, cursor: Option<K>, limit: int): Page<K>
    requires StrictTotal(less)
  {
    Paginate(Sort(less, After(less, cursor, snap)), limit)
  }

  datatype Walk<K> = Walk(items: seq<K>, calls: nat, complete: bool)

  /** Follow cursors, the i-th call seeing the i-th snapshot, until a page has no next. */
  ghost function WalkOf<K(!new)>(less: (K, K) -> bool, snaps: seq<set<K>>, cursor: Option<K>, limit: int): Walk<K>
    requires StrictTotal(less)
    decreases |snaps|
  {
    if snaps == [] then Walk([], 0, false)
    else
      var page := PageOf(less, snaps[0], cursor, limit);
      if page.next.None? then Walk(page.items, 1, true)
      else
        var rest := WalkOf(less, snaps[1..], page.next, limit);
        Walk(page.items + rest.items, rest.calls + 1, rest.complete)
  }

  lemma PageFacts<K(!new)>(less: (K, K) -> bool, snap: set<K>, cursor: Option<K>, limit: int)
    requires StrictTotal(less) && 1 <= limit
    ensures
      var page := PageOf(less, snap, cursor, limit);
      && Sorted(less, page.items)
      && (forall k :: k in page.items ==> k in After(less, cursor, snap))
      && (page.next.None? ==> forall k :: k in After(less, cursor, snap) ==> k in page.items)
      && (page.next.Some? ==>
          && (forall k :: k in page.items ==> k == page.next.value || less(k, page.next.value))
          && (forall k :: k in After(less, cursor, snap) ==> k in page.items || less(page.next.value, k)))
  {
    var all := Sort(less, After(less, cursor, snap));
    var page := PageOf(less, snap, cursor, limit);
    forall k | k in page.items ensures k in After(less, cursor, snap) {
      assert k in all;
      ElemsMembership(all, k);
    }
    forall k | k in After(less, cursor, snap)
      ensures k in page.items || (page.next.Some? && less(page.next.value, k))
    {
      ElemsMembership(all, k);
      var i :| 0 <= i < |all| && all[i] == k;
      if |all| > limit && i < limit { assert page.items[i] == k; }
    }
  }

  /** What a walk starting after `cursor` returns, whatever happened between calls. */
  ghost predicate Sound<K(!new)>(less: (K, K) -> bool, snaps: seq<set<K>>, cursor: Option<K>, w: Walk<K>) {
    && Sorted(less, w.items)
    && w.calls <= |snaps|
    && (forall k :: k in w.items ==> (cursor.Some? ==> less(cursor.value, k)))
    && (forall k :: k in w.items ==> exists i :: 0 <= i < w.calls && k in snaps[i])
    && (w.complete ==>
        forall k :: (forall i :: 0 <= i < w.calls ==> k in snaps[i]) && (cursor.Some? ==> less(cursor.value, k))
          ==> k in w.items)
  }

  lemma {:induction false} WalkIsSound<K(!new)>(less: (K, K) -> bool, snaps: seq<set<K>>, cursor: Option<K>, limit: int)
    requires StrictTotal(less) && 1 <= limit
    ensures Sound(less, snaps, cursor, WalkOf(less, snaps, cursor, limit))
    decreases |snaps|
  {
    if snaps != [] {
      var page := PageOf(less, snaps[0], cursor, limit);
      PageFacts(less, snaps[0], cursor, limit);
      var w := WalkOf(less, snaps, cursor, limit);
      if page.next.None? {
        forall k | k in w.items ensures exists i :: 0 <= i < w.calls && k in snaps[i] {
          assert k in snaps[0];
        }
      } else {
        WalkIsSound(less, snaps[1..], page.next, limit);
        SoundStep(less, snaps, cursor, limit);
      }
    }
  }

  lemma SoundStep<K(!new)>(less: (K, K) -> bool, snaps: seq<set<K>>, cursor: Option<K>, limit: int)
    requires StrictTotal(less) && 1 <= limit && snaps != []
    requires PageOf(less, snaps[0], cursor, limit).next.Some?
    requires
      var next := PageOf(less, snaps[0], cursor, limit).next;
      Sound(less, snaps[1..], next, WalkOf(less, snaps[1..], next, limit))
    ensures Sound(less, snaps, cursor, WalkOf(less, snaps, cursor, limit))
  {
    var page := PageOf(less, snaps[0], cursor, limit);
    var rest := WalkOf(less, snaps[1..], page.next, limit);
    var w := WalkOf(less, snaps, cursor, limit);
    var next := page.next.value;
    PageFacts(less, snaps[0], cursor, limit);
    NextIsAfter(less, snaps[0], cursor, limit);
    SortedConcat(less, page.items, rest.items);
    forall k | k in w.items ensures exists i :: 0 <= i < w.calls && k in snaps[i] {
      if k in page.items {
        assert k in snaps[0];
      } else {
        var i :| 0 <= i < rest.calls && k in snaps[1..][i];
        assert k in snaps[i + 1];
      }
    }
    if w.complete {
      forall k | (forall i :: 0 <= i < w.calls ==> k in snaps[i]) && (cursor.Some? ==> less(cursor.value, k))
        ensures k in w.items
      {
        assert k in snaps[0];
        if k !in page.items {
          assert less(next, k);
          forall i | 0 <= i < rest.calls ensures k in snaps[1..][i] { assert snaps[1..][i] == snaps[i + 1]; }
        }
      }
    }
  }

  lemma NextIsAfter<K(!new)>(less: (K, K) -> bool, snap: set<K>, cursor: Option<K>, limit: int)
    requires StrictTotal(less) && 1 <= limit && PageOf(less, snap, cursor, limit).next.Some?
    ensures PageOf(less, snap, cursor, limit).next.value in After(less, cursor, snap)
  {
    var all := Sort(less, After(less, cursor, snap));
    ElemsMembership(all, all[limit - 1]);
  }

  // ----- no mutation -----

  /** Calls needed for `n` rows: see CallsForIsCeil. */
  function CallsFor(n: nat, limit: nat): nat
    requires 1 <= limit
  {
    if n <= limit then 1 else 1 + CallsFor(n - limit, limit)
  }

  /** max(1, ceil(n / limit)) */
  lemma {:induction false} CallsForIsCeil(n: nat, limit: nat)
    requires 1 <= limit
    ensures CallsFor(n, limit) == if n == 0 then 1 else (n + limit - 1) / limit
  {
    if n > limit {
      CallsForIsCeil(n - limit, limit);
      DivAdd(n - 1, limit);
      assert n - limit + limit - 1 == n - 1;
    } else if n > 0 {
      QuotientUnique(n + limit - 1, limit, 1, n - 1);
    }
  }

  /** After a full page exactly the rows behind it remain. */
  lemma RestAfterPage<K(!new)>(less: (K, K) -> bool, snap: set<K>, cursor: Option<K>, limit: nat)
    requires StrictTotal(less) && 1 <= limit && PageOf(less, snap, cursor, limit).next.Some?
    ensures
      var next := PageOf(less, snap, cursor, limit).next;
      && |After(less, cursor, snap)| > limit
      && |After(less, next, snap)| == |After(less, cursor, snap)| - limit
  {
    var all := Sort(less, After(less, cursor, snap));
    var next := PageOf(less, snap, cursor, limit).next;
    var rest := all[limit..];
    NextIsAfter(less, snap, cursor, limit);
    assert Sorted(less, rest);
    assert !less(all[limit - 1], all[limit - 1]);
    assert forall j :: 0 <= j < limit - 1 ==> less(all[j], all[limit - 1]);
    forall k ensures k in rest <==> k in After(less, next, snap) {
      if k in rest {
        var i :| 0 <= i < |rest| && rest[i] == k;
        assert all[limit + i] == k;
        ElemsMembership(all, k);
      }
      if k in After(less, next, snap) {
        assert k in After(less, cursor, snap);
        ElemsMembership(all, k);
        var i :| 0 <= i < |all| && all[i] == k;
        assert rest[i - limit] == k;
      }
    }
    assert Elems(rest) == After(less, next, snap);
    SortedUnique(less, rest, Sort(less, After(less, next, snap)));
  }

  /** A page decides alone whether the listing is finished and how many calls that takes. */
  lemma PageCalls<K(!new)>(less: (K, K) -> bool, snap: set<K>, cursor: Option<K>, limit: nat)
    requires StrictTotal(less) && 1 <= limit
    ensures
      var left, next := |After(less, cursor, snap)|, PageOf(less, snap, cursor, limit).next;
      CallsFor(left, limit) == if next.None? then 1 else 1 + CallsFor(|After(less, next, snap)|, limit)
  {
    if PageOf(less, snap, cursor, limit).next.Some? { RestAfterPage(less, snap, cursor, limit); }
  }

  lemma {:induction false} QuietWalkCalls<K(!new)>(
      less: (K, K) -> bool, snaps: seq<set<K>>, snap: set<K>, cursor: Option<K>, limit: nat)
    requires StrictTotal(less) && 1 <= limit
    requires forall i :: 0 <= i < |snaps| ==> snaps[i] == snap
    requires CallsFor(|After(less, cursor, snap)|, limit) <= |snaps|
    ensures
      var w := WalkOf(less, snaps, cursor, limit);
      w.complete && w.calls == CallsFor(|After(less, cursor, snap)|, limit)
    decreases |snaps|
  {
    PageCalls(less, snap, cursor, limit);
    var next := PageOf(less, snap, cursor, limit).next;
    if next.Some? { QuietWalkCalls(less, snaps[1..], snap, next, limit); }
  }

  lemma DivAdd(x: nat, d: nat)
    requires 1 <= d
    ensures (x + d) / d == x / d + 1
  {
    var q, r := x / d, x % d;
    assert x + d == (q + 1) * d + r;
    QuotientUnique(x + d, d, q + 1, r);
  }

  lemma QuotientUnique(x: nat, d: nat, q: nat, r: nat)
    requires 1 <= d && r < d && x == q * d + r
    ensures x / d == q
  {
    var k := x / d - q;
    assert x == (x / d) * d + x % d;
    assert k * d == r - x % d by { assert k * d == (x / d) * d - q * d; }
    MultipleBelow(k, d);
  }

  lemma MultipleBelow(k: int, d: int)
    requires 1 <= d
    ensures -d < k * d < d ==> k == 0
  {
    if k >= 1 {
      assert k * d == (k - 1) * d + d && (k - 1) * d >= 0;
    } else if k <= -1 {
      assert k * d == (k + 1) * d - d && (k + 1) * d <= 0;
    }
  }

  /** With no mutation the walk is the whole sorted listing in max(1, ceil(n/limit)) calls. */
  lemma QuietWalk<K(!new)>(less: (K, K) -> bool, snap: set<K>, n: nat, limit: nat)
    requires StrictTotal(less) && 1 <= limit && CallsFor(|snap|, limit) <= n
    ensures
      WalkOf(less, seq(n, _ => snap), None, limit)
      == Walk(Sort(less, snap), CallsFor(|snap|, limit), true)
  {
    var snaps := seq(n, _ => snap);
    var w := WalkOf(less, snaps, None, limit);
    assert After(less, None, snap) == snap;
    QuietWalkCalls(less, snaps, snap, None, limit);
    WalkIsSound(less, snaps, None, limit);
    forall k ensures k in w.items <==> k in snap {}
    assert Elems(w.items) == snap;
    SortedUnique(less, w.items, Sort(less, snap));
  }
}
