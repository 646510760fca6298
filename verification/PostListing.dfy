/** What a reader of a post listing sees: which posts belong to it, and greatest ids first. */
module PostListing {
  import opened Text
  import opened Order
  import opened Paging
  import opened Posts
  import opened PostPaging
  import opened Wrappers

  /** Nothing deleted; top-level posts of anyone, one user or some users; or direct replies of one post. */
  predicate Belongs(f: Filter, p: Post) {
    && !p.deleted
    && (f.Feed? ==> p.parent == None && (f.user == None || f.user == Some(p.userID)))
    && (f.Authors? ==> p.parent == None && p.userID in f.users)
    && (f.Replies? ==> p.parent.Some? && p.parent.value == f.of)
  }

  lemma MatchesBelong(f: Filter, p: Post)
    ensures Matches(f, p) <==> Belongs(f, p)
  {}

  /** Below the cursor, which is itself not shown again; everything is when there is none. */
  ghost predicate PastCursor(cursor: Option<Str>, id: Str) {
    cursor.Some? ==> Precedes(id, cursor.value)
  }

  lemma AfterIsPast(store: Store, f: Filter, cursor: Option<Str>, id: Str)
    ensures id in After(Greater, cursor, Matching(store, f)) <==>
      id in store && Belongs(f, store[id]) && PastCursor(cursor, id)
  {
    if cursor.Some? { LessIsLexicographic(id, cursor.value); }
    if id in store { MatchesBelong(f, store[id]); }
  }

  ghost predicate LargestFirst(rows: seq<Post>) {
    forall i, j :: 0 <= i < j < |rows| ==> Precedes(rows[j].id, rows[i].id)
  }

  lemma PageDescends(store: Store, f: Filter, cursor: Option<Str>, limit: nat)
    requires Keyed(store) && 1 <= limit
    ensures LargestFirst(List(store, f, cursor, limit).0)
  {
    var rows := List(store, f, cursor, limit).0;
    LessIsStrictTotal();
    PageIds(store, f, cursor, limit);
    PageFacts(Greater, Matching(store, f), cursor, limit);
    forall i, j | 0 <= i < j < |rows| ensures Precedes(rows[j].id, rows[i].id) {
      assert Ids(rows)[i] == rows[i].id && Ids(rows)[j] == rows[j].id;
      LessIsLexicographic(rows[j].id, rows[i].id);
    }
  }

  lemma RowSeen(store: Store, f: Filter, cursor: Option<Str>, limit: nat, i: nat)
    requires Keyed(store) && 1 <= limit && i < |List(store, f, cursor, limit).0|
    ensures
      var row := List(store, f, cursor, limit).0[i];
      row.id in store && row == store[row.id] && Belongs(f, row) && PastCursor(cursor, row.id)
  {
    var rows := List(store, f, cursor, limit).0;
    LessIsStrictTotal();
    PageRows(store, f, cursor, limit);
    PageIds(store, f, cursor, limit);
    PageFacts(Greater, Matching(store, f), cursor, limit);
    assert Ids(rows)[i] == rows[i].id;
    assert rows[i].id in IdPage(store, f, cursor, limit).items;
    AfterIsPast(store, f, cursor, rows[i].id);
  }

  /** A page: at most `limit` posts of the listing past the cursor, as stored, greatest ids first. */
  lemma PageSeen(store: Store, f: Filter, cursor: Option<Str>, limit: nat)
    requires Keyed(store) && 1 <= limit
    ensures
      var rows := List(store, f, cursor, limit).0;
      && |rows| <= limit && LargestFirst(rows)
      && forall i :: 0 <= i < |rows| ==>
        && rows[i].id in store && rows[i] == store[rows[i].id]
        && Belongs(f, rows[i]) && PastCursor(cursor, rows[i].id)
  {
    var rows := List(store, f, cursor, limit).0;
    PageDescends(store, f, cursor, limit);
    forall i | 0 <= i < |rows|
      ensures rows[i].id in store && rows[i] == store[rows[i].id] && Belongs(f, rows[i]) && PastCursor(cursor, rows[i].id)
    {
      RowSeen(store, f, cursor, limit, i);
    }
  }

  /** A post of the listing past the cursor is on the page, or the page is full and the next cursor comes before it. */
  lemma PostIsShownOrWaits(store: Store, f: Filter, cursor: Option<Str>, limit: nat, id: Str)
    requires Keyed(store) && 1 <= limit
    requires id in store && Belongs(f, store[id]) && PastCursor(cursor, id)
    ensures
      var (rows, next) := List(store, f, cursor, limit);
      || store[id] in rows
      || (|rows| == limit && next == rows[limit - 1].id && next != "" && Precedes(id, next))
  {
    var (rows, next) := List(store, f, cursor, limit);
    var page := IdPage(store, f, cursor, limit);
    LessIsStrictTotal();
    PageIds(store, f, cursor, limit);
    PageNext(store, f, cursor, limit);
    PageRows(store, f, cursor, limit);
    PageFacts(Greater, Matching(store, f), cursor, limit);
    AfterIsPast(store, f, cursor, id);
    assert forall i :: 0 <= i < |rows| ==> Ids(rows)[i] == rows[i].id;
    if id in page.items {
      var i :| 0 <= i < |page.items| && page.items[i] == id;
      assert rows[i] == store[id];
    } else {
      LessIsLexicographic(id, page.next.value);
      assert page.items[limit - 1] == rows[limit - 1].id;
    }
  }

  /** Nothing is asked for, nothing is listed. */
  lemma NoLimitNoRows(store: Store, f: Filter, cursor: Option<Str>, limit: int)
    requires limit <= 0
    ensures List(store, f, cursor, limit) == ([], "")
  {}
}
