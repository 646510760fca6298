/** What a reader of a follow listing sees: newest first, by instants and bytes. */
module FollowOrder {
  import opened Text
  import opened Order
  import opened Paging
  import opened Follows
  import opened FollowPaging
  import opened Wrappers
  import opened Rfc3339
  import opened Calendar
  import FollowCursor
  import Base64

  /** Created later, or at the same instant with the greater peer. */
  ghost predicate Newer(a: Position, b: Position)
    requires Valid(a.at) && Valid(b.at)
  {
    || Instant(a.at) > Instant(b.at)
    || (Instant(a.at) == Instant(b.at) && Precedes(b.peer, a.peer))
  }

  lemma EarlierIsNewer(a: Position, b: Position)
    requires Valid(a.at) && Valid(b.at)
    ensures Earlier(a, b) <==> Newer(a, b)
  {
    BeforeIsEarlierInstant(b.at, a.at);
    if Instant(a.at) == Instant(b.at) { InstantInjective(a.at, b.at); }
    LessIsLexicographic(b.peer, a.peer);
  }

  ghost predicate NewestFirst(rows: seq<Follow>, side: bool) {
    && (forall i :: 0 <= i < |rows| ==> Valid(rows[i].createdAt))
    && (forall i, j :: 0 <= i < j < |rows| ==> Newer(PositionIn(rows[i], side), PositionIn(rows[j], side)))
  }

  lemma OrderedIsNewestFirst(rows: seq<Follow>, side: bool)
    requires InOrder(rows, side) && forall i :: 0 <= i < |rows| ==> Valid(rows[i].createdAt)
    ensures NewestFirst(rows, side)
  {
    forall i, j | 0 <= i < j < |rows| ensures Newer(PositionIn(rows[i], side), PositionIn(rows[j], side)) {
      EarlierIsNewer(PositionIn(rows[i], side), PositionIn(rows[j], side));
    }
  }

  /** Whatever is followed and unfollowed between calls, a walk goes from newer to older. */
  lemma WalkIsNewestFirst(snaps: seq<Edges>, sub: Str, limit: nat, side: bool)
    requires AllStorable(snaps) && 1 <= limit
    ensures NewestFirst(WalkFollows(snaps, sub, None, limit, side).items, side)
  {
    var w := WalkFollows(snaps, sub, None, limit, side);
    FollowWalkUnderMutation(snaps, sub, limit, side);
    forall i | 0 <= i < |w.items| ensures Valid(w.items[i].createdAt) {
      assert w.items[i] in w.items;
      assert ReadFrom(w.items[i], snaps, w.calls, sub, side);
      var s :| 0 <= s < w.calls <= |snaps| && IsEdge(w.items[i], snaps[s], sub, side);
      assert Storable(snaps[s]);
    }
    OrderedIsNewestFirst(w.items, side);
  }

  // ----- one page -----

  /** Older than the position a cursor holds; everything is when there is none. */
  ghost predicate PastCursor(at: Option<Position>, p: Position)
    requires Valid(p.at) && (at.Some? ==> Valid(at.value.at))
  {
    at.Some? ==> Newer(at.value, p)
  }

  lemma CursorHoldsValid(cursor: Option<Str>)
    ensures CursorPosition(cursor).Some? ==> Valid(CursorPosition(cursor).value.at)
  {}

  lemma PageRows(edges: Edges, sub: Str, at: Option<Position>, limit: nat, side: bool, p: Position)
    requires Storable(edges) && 1 <= limit && (at.Some? ==> Valid(at.value.at))
    requires p in PageAt(edges, sub, at, limit, side).items
    ensures p in Positions(edges, sub, side) && Valid(p.at) && PastCursor(at, p)
  {
    EarlierIsStrictTotal();
    PageAtIsPageOf(edges, sub, at, limit, side);
    PageFacts(Earlier, Positions(edges, sub, side), at, limit);
    assert p in After(Earlier, at, Positions(edges, sub, side));
    EdgeOfPosition(edges, p, sub, side);
    if at.Some? { EarlierIsNewer(at.value, p); }
  }

  lemma PageIsSorted(edges: Edges, sub: Str, at: Option<Position>, limit: nat, side: bool)
    requires Storable(edges) && 1 <= limit && (at.Some? ==> Valid(at.value.at))
    ensures NewestFirst(Rows(PageAt(edges, sub, at, limit, side).items, sub, side), side)
  {
    var items := PageAt(edges, sub, at, limit, side).items;
    EarlierIsStrictTotal();
    PageAtIsPageOf(edges, sub, at, limit, side);
    PageFacts(Earlier, Positions(edges, sub, side), at, limit);
    forall i | 0 <= i < |items| ensures Valid(items[i].at) { PageRows(edges, sub, at, limit, side, items[i]); }
    assert forall i :: 0 <= i < |items| ==> PositionIn(Rows(items, sub, side)[i], side) == items[i];
    OrderedIsNewestFirst(Rows(items, sub, side), side);
  }

  /** An edge past the cursor is on the page, or the page is full and ends with a newer row. */
  lemma EdgeIsShownOrWaits(edges: Edges, sub: Str, at: Option<Position>, limit: nat, side: bool, k: (Str, Str))
    requires Storable(edges) && 1 <= limit && (at.Some? ==> Valid(at.value.at))
    requires k in edges && OnSide(k, sub, side) && PastCursor(at, Position(edges[k], PeerOf(k, side)))
    ensures
      var page := PageAt(edges, sub, at, limit, side);
      var p := Position(edges[k], PeerOf(k, side));
      || p in page.items
      || (&& |page.items| == limit && page.next.Some? && page.next.value == page.items[limit - 1]
          && Valid(page.next.value.at) && Newer(page.next.value, p))
  {
    var page := PageAt(edges, sub, at, limit, side);
    var p := Position(edges[k], PeerOf(k, side));
    EarlierIsStrictTotal();
    PageAtIsPageOf(edges, sub, at, limit, side);
    PageFacts(Earlier, Positions(edges, sub, side), at, limit);
    PositionOfEdge(edges, k, sub, side);
    if at.Some? { EarlierIsNewer(at.value, p); }
    assert p in After(Earlier, at, Positions(edges, sub, side));
    if p !in page.items {
      PageRows(edges, sub, at, limit, side, page.items[limit - 1]);
      EarlierIsNewer(page.next.value, p);
    }
  }

  /** A follow listing's rows: at most `limit` edges of that side, past the cursor, newest first. */
  lemma ListIsNewestFirst(edges: Edges, sub: Str, cursor: Option<Str>, limit: nat, side: bool)
    requires Storable(edges) && 1 <= limit
    ensures
      var at := CursorPosition(cursor);
      var rows := ListSide(edges, sub, cursor, limit, side).0;
      && |rows| <= limit && NewestFirst(rows, side)
      && (forall i :: 0 <= i < |rows| ==>
            IsEdge(rows[i], edges, sub, side) && PastCursor(at, PositionIn(rows[i], side)))
  {
    var at := CursorPosition(cursor);
    CursorHoldsValid(cursor);
    var items := PageAt(edges, sub, at, limit, side).items;
    PageIsSorted(edges, sub, at, limit, side);
    var rows := Rows(items, sub, side);
    forall i | 0 <= i < |rows| ensures IsEdge(rows[i], edges, sub, side) && PastCursor(at, PositionIn(rows[i], side)) {
      PageRows(edges, sub, at, limit, side, items[i]);
      EdgeOfPosition(edges, items[i], sub, side);
      assert PositionIn(rows[i], side) == items[i];
    }
  }

  /** Nothing is asked for, nothing is listed. */
  lemma NoLimitNoRows(edges: Edges, sub: Str, cursor: Option<Str>, limit: int, side: bool)
    requires limit <= 0
    ensures ListSide(edges, sub, cursor, limit, side) == ([], "")
  {}

  /** No cursor, an empty one and one that is not base64url all list from the top. */
  lemma UnreadableCursorIsTheTop(edges: Edges, sub: Str, cursor: Option<Str>, limit: int, side: bool)
    requires cursor.Some? ==> cursor.value == "" || Base64.Decode(cursor.value).None?
    ensures ListSide(edges, sub, cursor, limit, side) == ListSide(edges, sub, None, limit, side)
  {}
}
