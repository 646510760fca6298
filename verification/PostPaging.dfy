/** Walking a post listing by cursor while posts are created and soft-deleted. */
module PostPaging {
  import opened Text
  import opened Order
  import opened Paging
  import opened Posts
  import opened Wrappers

  ghost function WalkPosts(stores: seq<Store>, f: Filter, cursor: Option<Str>, limit: int): Walk<Post>
    decreases |stores|
  {
    if stores == [] then Walk([], 0, false)
    else
      var (page, next) := List(stores[0], f, cursor, limit);
      if next == [] then Walk(page, 1, true)
      else
        var rest := WalkPosts(stores[1..], f, Some(next), limit);
        Walk(page + rest.items, rest.calls + 1, rest.complete)
  }

  /** Rows sit under their own, non-empty id. */
  predicate Keyed(store: Store) {
    forall id :: id in store ==> id != [] && store[id].id == id
  }

  predicate AllKeyed(stores: seq<Store>) {
    forall i :: 0 <= i < |stores| ==> Keyed(stores[i])
  }

  ghost function Snaps(stores: seq<Store>, f: Filter): seq<set<Str>> {
    seq(|stores|, i requires 0 <= i < |stores| => Matching(stores[i], f))
  }

  function Ids(ps: seq<Post>): seq<Str> {
    seq(|ps|, i requires 0 <= i < |ps| => ps[i].id)
  }

  ghost predicate FromSnapshot(p: Post, stores: seq<Store>, f: Filter, calls: nat) {
    exists i :: 0 <= i < calls <= |stores| && p.id in stores[i] && stores[i][p.id] == p && Matches(f, p)
  }

  ghost function IdPage(store: Store, f: Filter, cursor: Option<Str>, limit: int): Page<Str> {
    LessIsStrictTotal();
    PageOf(Greater, Matching(store, f), cursor, limit)
  }

  ghost function IdWalk(stores: seq<Store>, f: Filter, cursor: Option<Str>, limit: int): Walk<Str> {
    LessIsStrictTotal();
    WalkOf(Greater, Snaps(stores, f), cursor, limit)
  }

  lemma IdPageIsPaginate(store: Store, f: Filter, cursor: Option<Str>, limit: int)
    ensures IdPage(store, f, cursor, limit) == Paginate(Descending(store, f, cursor), limit)
  {
    assert After(Greater, cursor, Matching(store, f)) == Below(cursor, Matching(store, f));
  }

  ghost predicate RowsOf(ps: seq<Post>, store: Store, f: Filter) {
    forall i :: 0 <= i < |ps| ==> ps[i].id in store && store[ps[i].id] == ps[i] && Matches(f, ps[i])
  }

  lemma PageRows(store: Store, f: Filter, cursor: Option<Str>, limit: int)
    requires Keyed(store)
    ensures RowsOf(List(store, f, cursor, limit).0, store, f)
  {
    DescendingInStore(store, f, cursor);
    var ids := Paginate(Descending(store, f, cursor), limit).items;
    forall i | 0 <= i < |ids| ensures ids[i] in store && Matches(f, store[ids[i]]) {
      assert ids[i] in Descending(store, f, cursor);
    }
  }

  lemma PageIds(store: Store, f: Filter, cursor: Option<Str>, limit: int)
    requires Keyed(store)
    ensures Ids(List(store, f, cursor, limit).0) == IdPage(store, f, cursor, limit).items
  {
    IdPageIsPaginate(store, f, cursor, limit);
    DescendingInStore(store, f, cursor);
    var ids := IdPage(store, f, cursor, limit).items;
    forall i | 0 <= i < |ids| ensures ids[i] in store {
      assert ids[i] in Descending(store, f, cursor);
    }
  }

  lemma PageNext(store: Store, f: Filter, cursor: Option<Str>, limit: int)
    requires Keyed(store)
    ensures
      var next := IdPage(store, f, cursor, limit).next;
      if List(store, f, cursor, limit).1 == [] then next.None? else next == Some(List(store, f, cursor, limit).1)
  {
    IdPageIsPaginate(store, f, cursor, limit);
    DescendingInStore(store, f, cursor);
    var d := Descending(store, f, cursor);
    if limit >= 1 && |d| > limit { assert d[limit - 1] in d; }
  }

  lemma {:induction false} WalkIsIdWalk(stores: seq<Store>, f: Filter, cursor: Option<Str>, limit: int)
    requires AllKeyed(stores)
    ensures
      var w, g := WalkPosts(stores, f, cursor, limit), IdWalk(stores, f, cursor, limit);
      Ids(w.items) == g.items && w.calls == g.calls <= |stores| && w.complete == g.complete
    decreases |stores|
  {
    if stores != [] {
      PageIds(stores[0], f, cursor, limit);
      PageNext(stores[0], f, cursor, limit);
      IdWalkUnfolds(stores, f, cursor, limit);
      var (page, next) := List(stores[0], f, cursor, limit);
      if next != [] {
        WalkIsIdWalk(stores[1..], f, Some(next), limit);
        var rest := WalkPosts(stores[1..], f, Some(next), limit);
        IdsConcat(page, rest.items);
        assert WalkPosts(stores, f, cursor, limit) == Walk(page + rest.items, rest.calls + 1, rest.complete);
      }
    }
  }

  lemma IdsConcat(a: seq<Post>, b: seq<Post>)
    ensures Ids(a + b) == Ids(a) + Ids(b)
  {}

  ghost predicate AllFromSnapshots(ps: seq<Post>, stores: seq<Store>, f: Filter, calls: nat) {
    forall i :: 0 <= i < |ps| ==> FromSnapshot(ps[i], stores, f, calls)
  }

  lemma {:induction false} WalkReadsSnapshots(stores: seq<Store>, f: Filter, cursor: Option<Str>, limit: int)
    requires AllKeyed(stores)
    ensures
      var w := WalkPosts(stores, f, cursor, limit);
      w.calls <= |stores| && AllFromSnapshots(w.items, stores, f, w.calls)
    decreases |stores|
  {
    if stores != [] {
      var (page, next) := List(stores[0], f, cursor, limit);
      PageRows(stores[0], f, cursor, limit);
      if next == [] {
        RowsFromHead(page, stores, f, 1);
      } else {
        WalkReadsSnapshots(stores[1..], f, Some(next), limit);
        var rest := WalkPosts(stores[1..], f, Some(next), limit);
        RowsFromHead(page, stores, f, rest.calls + 1);
        LaterSnapshots(rest.items, stores, f, rest.calls);
      }
    }
  }

  lemma RowsFromHead(ps: seq<Post>, stores: seq<Store>, f: Filter, calls: nat)
    requires stores != [] && RowsOf(ps, stores[0], f) && 1 <= calls <= |stores|
    ensures AllFromSnapshots(ps, stores, f, calls)
  {
    forall i | 0 <= i < |ps| ensures FromSnapshot(ps[i], stores, f, calls) {
      assert ps[i].id in stores[0];
    }
  }

  lemma LaterSnapshots(ps: seq<Post>, stores: seq<Store>, f: Filter, calls: nat)
    requires stores != [] && AllFromSnapshots(ps, stores[1..], f, calls)
    ensures AllFromSnapshots(ps, stores, f, calls + 1)
  {
    forall j | 0 <= j < |ps| ensures FromSnapshot(ps[j], stores, f, calls + 1) {
      assert FromSnapshot(ps[j], stores[1..], f, calls);
      var p := ps[j];
      var i :| 0 <= i < calls <= |stores[1..]| && p.id in stores[1..][i] && stores[1..][i][p.id] == p;
      assert stores[i + 1] == stores[1..][i];
    }
  }

  lemma IdWalkUnfolds(stores: seq<Store>, f: Filter, cursor: Option<Str>, limit: int)
    requires stores != []
    ensures
      var page := IdPage(stores[0], f, cursor, limit);
      IdWalk(stores, f, cursor, limit) ==
        if page.next.None? then Walk(page.items, 1, true)
        else
          var rest := IdWalk(stores[1..], f, page.next, limit);
          Walk(page.items + rest.items, rest.calls + 1, rest.complete)
  {
    assert Snaps(stores, f)[0] == Matching(stores[0], f);
    assert Snaps(stores, f)[1..] == Snaps(stores[1..], f);
  }

  /**
   Whatever is created or soft-deleted between calls: ids strictly descend (so no
   post twice), every row was live and matching when read, and a complete walk
   returns every post that was live and matching throughout.
   */
  lemma PagingUnderMutation(stores: seq<Store>, f: Filter, limit: nat)
    requires AllKeyed(stores) && 1 <= limit
    ensures
      var w := WalkPosts(stores, f, None, limit);
      && (forall i, j :: 0 <= i < j < |w.items| ==> Less(w.items[j].id, w.items[i].id))
      && AllFromSnapshots(w.items, stores, f, w.calls)
      && w.calls <= |stores|
      && (w.complete ==>
          forall id :: (forall i :: 0 <= i < w.calls ==> id in Matching(stores[i], f)) ==> id in Ids(w.items))
  {
    LessIsStrictTotal();
    var w, g := WalkPosts(stores, f, None, limit), IdWalk(stores, f, None, limit);
    WalkIsIdWalk(stores, f, None, limit);
    WalkReadsSnapshots(stores, f, None, limit);
    WalkIsSound(Greater, Snaps(stores, f), None, limit);
    forall i, j | 0 <= i < j < |w.items| ensures Less(w.items[j].id, w.items[i].id) {
      assert Greater(g.items[i], g.items[j]);
      assert Ids(w.items)[i] == w.items[i].id && Ids(w.items)[j] == w.items[j].id;
    }
    if w.complete {
      forall id | forall i :: 0 <= i < w.calls ==> id in Matching(stores[i], f) ensures id in Ids(w.items) {
        forall i | 0 <= i < w.calls ensures id in Snaps(stores, f)[i] {
          assert Snaps(stores, f)[i] == Matching(stores[i], f);
        }
      }
    }
  }

  /** With no mutation: the full filtered listing, in max(1, ceil(n / limit)) calls. */
  lemma PagingQuiet(store: Store, f: Filter, n: nat, limit: nat)
    requires Keyed(store) && 1 <= limit && CallsFor(|Matching(store, f)|, limit) <= n
    ensures
      var w := WalkPosts(seq(n, _ => store), f, None, limit);
      && w.complete
      && w.calls == CallsFor(|Matching(store, f)|, limit)
      && Ids(w.items) == Descending(store, f, None)
      && AllFromSnapshots(w.items, seq(n, _ => store), f, w.calls)
  {
    var stores := seq(n, _ => store);
    WalkIsIdWalk(stores, f, None, limit);
    WalkReadsSnapshots(stores, f, None, limit);
    QuietIdWalk(store, f, n, limit);
  }

  lemma QuietIdWalk(store: Store, f: Filter, n: nat, limit: nat)
    requires 1 <= limit && CallsFor(|Matching(store, f)|, limit) <= n
    ensures IdWalk(seq(n, _ => store), f, None, limit)
         == Walk(Descending(store, f, None), CallsFor(|Matching(store, f)|, limit), true)
  {
    LessIsStrictTotal();
    assert Snaps(seq(n, _ => store), f) == seq(n, _ => Matching(store, f));
    QuietWalk(Greater, Matching(store, f), n, limit);
    assert Below(None, Matching(store, f)) == Matching(store, f);
  }
}
