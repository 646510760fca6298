/** Walking a follow listing by encoded cursors. */
module FollowPaging {
  import opened Text
  import opened Order
  import opened Paging
  import opened Follows
  import opened Wrappers
  import opened Rfc3339
  import FollowCursor

  ghost function WalkFollows(snaps: seq<Edges>, sub: Str, cursor: Option<Str>, limit: int, side: bool): Walk<Follow>
    decreases |snaps|
  {
    if snaps == [] then Walk([], 0, false)
    else
      var page := ListSide(snaps[0], sub, cursor, limit, side).0;
      var next := ListSide(snaps[0], sub, cursor, limit, side).1;
      if next == [] then Walk(page, 1, true)
      else
        var rest := WalkFollows(snaps[1..], sub, Some(next), limit, side);
        Walk(page + rest.items, rest.calls + 1, rest.complete)
  }

  ghost function PositionWalk(snaps: seq<Edges>, sub: Str, at: Option<Position>, limit: int, side: bool): Walk<Position> {
    EarlierIsStrictTotal();
    WalkOf(Earlier, PositionSnaps(snaps, sub, side), at, limit)
  }

  ghost function PositionSnaps(snaps: seq<Edges>, sub: Str, side: bool): seq<set<Position>> {
    seq(|snaps|, i requires 0 <= i < |snaps| => Positions(snaps[i], sub, side))
  }

  /** Every stored edge was validated: both ends non-empty, a four-digit year. */
  predicate Storable(edges: Edges) {
    forall k :: k in edges ==> k.0 != [] && k.1 != [] && Valid(edges[k])
  }

  predicate AllStorable(snaps: seq<Edges>) {
    forall i :: 0 <= i < |snaps| ==> Storable(snaps[i])
  }

  lemma PageAtIsPageOf(edges: Edges, sub: Str, at: Option<Position>, limit: int, side: bool)
    requires StrictTotal(Earlier)
    ensures PageAt(edges, sub, at, limit, side) == PageOf(Earlier, Positions(edges, sub, side), at, limit)
  {
    assert Past(at, Positions(edges, sub, side)) == After(Earlier, at, Positions(edges, sub, side));
  }

  /** The cursor handed to the client decodes to the last row it was shown. */
  lemma NextDecodes(edges: Edges, sub: Str, at: Option<Position>, limit: int, side: bool)
    requires Storable(edges)
    ensures
      var page := PageAt(edges, sub, at, limit, side);
      && (NextCursor(page) == [] <==> page.next.None?)
      && (page.next.Some? ==> CursorPosition(Some(NextCursor(page))) == page.next)
  {
    var page := PageAt(edges, sub, at, limit, side);
    if page.next.Some? {
      var all := SortPositions(Past(at, Positions(edges, sub, side)));
      ElemsMembership(all, all[limit - 1]);
      assert page.next.value in Positions(edges, sub, side);
      FollowCursor.CursorRoundTrip(page.next.value.at, page.next.value.peer);
    }
  }

  lemma PositionWalkUnfolds(snaps: seq<Edges>, sub: Str, at: Option<Position>, limit: int, side: bool)
    requires snaps != []
    ensures
      var page := PageAt(snaps[0], sub, at, limit, side);
      PositionWalk(snaps, sub, at, limit, side) ==
        if page.next.None? then Walk(page.items, 1, true)
        else
          var rest := PositionWalk(snaps[1..], sub, page.next, limit, side);
          Walk(page.items + rest.items, rest.calls + 1, rest.complete)
  {
    EarlierIsStrictTotal();
    PageAtIsPageOf(snaps[0], sub, at, limit, side);
    assert PositionSnaps(snaps, sub, side)[0] == Positions(snaps[0], sub, side);
    assert PositionSnaps(snaps, sub, side)[1..] == PositionSnaps(snaps[1..], sub, side);
  }

  lemma RowsConcat(a: seq<Position>, b: seq<Position>, sub: Str, side: bool)
    ensures Rows(a + b, sub, side) == Rows(a, sub, side) + Rows(b, sub, side)
  {}

  lemma WalkFollowsUnfolds(snaps: seq<Edges>, sub: Str, cursor: Option<Str>, limit: int, side: bool)
    requires snaps != []
    ensures
      var page := PageAt(snaps[0], sub, CursorPosition(cursor), limit, side);
      WalkFollows(snaps, sub, cursor, limit, side) ==
        if NextCursor(page) == [] then Walk(Rows(page.items, sub, side), 1, true)
        else
          var rest := WalkFollows(snaps[1..], sub, Some(NextCursor(page)), limit, side);
          Walk(Rows(page.items, sub, side) + rest.items, rest.calls + 1, rest.complete)
  {}

  /** A walk over rows shows what a walk over positions shows. */
  ghost predicate Shows(w: Walk<Follow>, g: Walk<Position>, sub: Str, side: bool) {
    w.items == Rows(g.items, sub, side) && w.calls == g.calls && w.complete == g.complete
  }

  /** Walking with encoded string cursors is walking with the positions themselves. */
  lemma {:induction false} EncodedWalk(snaps: seq<Edges>, sub: Str, cursor: Option<Str>, limit: int, side: bool)
    requires AllStorable(snaps)
    ensures
      Shows(WalkFollows(snaps, sub, cursor, limit, side),
            PositionWalk(snaps, sub, CursorPosition(cursor), limit, side), sub, side)
    decreases |snaps|
  {
    if snaps == [] {
      EarlierIsStrictTotal();
    } else {
      var page := PageAt(snaps[0], sub, CursorPosition(cursor), limit, side);
      NextDecodes(snaps[0], sub, CursorPosition(cursor), limit, side);
      if page.next.Some? {
        EncodedWalk(snaps[1..], sub, Some(NextCursor(page)), limit, side);
      }
      EncodedStep(snaps, sub, cursor, limit, side);
    }
  }

  lemma EncodedStep(snaps: seq<Edges>, sub: Str, cursor: Option<Str>, limit: int, side: bool)
    requires snaps != []
    requires
      var page := PageAt(snaps[0], sub, CursorPosition(cursor), limit, side);
      if NextCursor(page) == [] then page.next.None?
      else page.next.Some? && Shows(WalkFollows(snaps[1..], sub, Some(NextCursor(page)), limit, side),
                                    PositionWalk(snaps[1..], sub, page.next, limit, side), sub, side)
    ensures
      Shows(WalkFollows(snaps, sub, cursor, limit, side),
            PositionWalk(snaps, sub, CursorPosition(cursor), limit, side), sub, side)
  {
    var page := PageAt(snaps[0], sub, CursorPosition(cursor), limit, side);
    PositionWalkUnfolds(snaps, sub, CursorPosition(cursor), limit, side);
    WalkFollowsUnfolds(snaps, sub, cursor, limit, side);
    RowsConcat(page.items, PositionWalk(snaps[1..], sub, page.next, limit, side).items, sub, side);
  }

  function PositionIn(row: Follow, side: bool): Position {
    Position(row.createdAt, if side then row.follower else row.followee)
  }

  ghost predicate InOrder(rows: seq<Follow>, side: bool) {
    forall i, j :: 0 <= i < j < |rows| ==> Earlier(PositionIn(rows[i], side), PositionIn(rows[j], side))
  }

  predicate PresentThroughout(snaps: seq<Edges>, calls: nat, k: (Str, Str), t: Time) {
    forall i :: 0 <= i < calls && i < |snaps| ==> k in snaps[i] && snaps[i][k] == t
  }

  /** The row an edge of `sub`'s listing shows. */
  function EdgeRow(edges: Edges, k: (Str, Str)): Follow
    requires k in edges
  {
    Follow(k.0, k.1, edges[k])
  }

  lemma PositionOfEdge(edges: Edges, k: (Str, Str), sub: Str, side: bool)
    requires k in edges && OnSide(k, sub, side)
    ensures Position(edges[k], PeerOf(k, side)) in Positions(edges, sub, side)
    ensures RowOf(Position(edges[k], PeerOf(k, side)), sub, side) == EdgeRow(edges, k)
  {}

  /** One edge per position: peers of one side are distinct. */
  lemma EdgeOfPosition(edges: Edges, p: Position, sub: Str, side: bool)
    requires p in Positions(edges, sub, side)
    ensures
      var k := if side then (p.peer, sub) else (sub, p.peer);
      k in edges && OnSide(k, sub, side) && EdgeRow(edges, k) == RowOf(p, sub, side)
  {}

  /**
   Follows and unfollows may happen between calls: rows strictly follow the listing
   order (so no edge twice) and a complete walk shows every edge present throughout.
   */
  lemma FollowWalkUnderMutation(snaps: seq<Edges>, sub: Str, limit: nat, side: bool)
    requires AllStorable(snaps) && 1 <= limit
    ensures
      var w := WalkFollows(snaps, sub, None, limit, side);
      && InOrder(w.items, side)
      && w.calls <= |snaps|
      && (forall row :: row in w.items ==> ReadFrom(row, snaps, w.calls, sub, side))
      && (w.complete ==>
          (forall k, t | OnSide(k, sub, side) && PresentThroughout(snaps, w.calls, k, t) ::
            Follow(k.0, k.1, t) in w.items))
  {
    var w, g := WalkFollows(snaps, sub, None, limit, side), PositionWalk(snaps, sub, None, limit, side);
    EncodedWalk(snaps, sub, None, limit, side);
    EarlierIsStrictTotal();
    WalkIsSound(Earlier, PositionSnaps(snaps, sub, side), None, limit);
    assert InOrder(w.items, side) by {
      forall i, j | 0 <= i < j < |w.items|
        ensures Earlier(PositionIn(w.items[i], side), PositionIn(w.items[j], side))
      {
        assert PositionIn(w.items[i], side) == g.items[i] && PositionIn(w.items[j], side) == g.items[j];
      }
    }
    forall row | row in w.items ensures ReadFrom(row, snaps, w.calls, sub, side) {
      RowIsRead(snaps, sub, limit, side, row);
    }
    if w.complete {
      forall k, t | OnSide(k, sub, side) && PresentThroughout(snaps, w.calls, k, t)
        ensures Follow(k.0, k.1, t) in w.items
      {
        StableEdgeIsShown(snaps, sub, limit, side, k, t);
      }
    }
  }

  /** `row` is an edge of the listing in a snapshot the walk read. */
  ghost predicate ReadFrom(row: Follow, snaps: seq<Edges>, calls: nat, sub: Str, side: bool) {
    exists i :: 0 <= i < calls <= |snaps| && IsEdge(row, snaps[i], sub, side)
  }

  predicate IsEdge(row: Follow, edges: Edges, sub: Str, side: bool) {
    var k := (row.follower, row.followee);
    k in edges && edges[k] == row.createdAt && OnSide(k, sub, side)
  }

  lemma RowIsRead(snaps: seq<Edges>, sub: Str, limit: nat, side: bool, row: Follow)
    requires AllStorable(snaps) && 1 <= limit
    requires row in WalkFollows(snaps, sub, None, limit, side).items
    ensures ReadFrom(row, snaps, WalkFollows(snaps, sub, None, limit, side).calls, sub, side)
  {
    var w, g := WalkFollows(snaps, sub, None, limit, side), PositionWalk(snaps, sub, None, limit, side);
    EncodedWalk(snaps, sub, None, limit, side);
    EarlierIsStrictTotal();
    WalkIsSound(Earlier, PositionSnaps(snaps, sub, side), None, limit);
    var j :| 0 <= j < |w.items| && w.items[j] == row;
    assert g.items[j] in g.items;
    var i :| 0 <= i < g.calls && g.items[j] in PositionSnaps(snaps, sub, side)[i];
    EdgeOfPosition(snaps[i], g.items[j], sub, side);
    assert IsEdge(row, snaps[i], sub, side);
  }

  lemma StableEdgeIsShown(snaps: seq<Edges>, sub: Str, limit: nat, side: bool, k: (Str, Str), t: Time)
    requires AllStorable(snaps) && 1 <= limit && OnSide(k, sub, side)
    requires WalkFollows(snaps, sub, None, limit, side).complete
    requires PresentThroughout(snaps, WalkFollows(snaps, sub, None, limit, side).calls, k, t)
    ensures Follow(k.0, k.1, t) in WalkFollows(snaps, sub, None, limit, side).items
  {
    var g := PositionWalk(snaps, sub, None, limit, side);
    EncodedWalk(snaps, sub, None, limit, side);
    EarlierIsStrictTotal();
    WalkIsSound(Earlier, PositionSnaps(snaps, sub, side), None, limit);
    var p := Position(t, PeerOf(k, side));
    forall i | 0 <= i < g.calls ensures p in PositionSnaps(snaps, sub, side)[i] {
      PositionOfEdge(snaps[i], k, sub, side);
    }
    assert p in g.items;
    var j :| 0 <= j < |g.items| && g.items[j] == p;
    assert Rows(g.items, sub, side)[j] == RowOf(p, sub, side);
  }

  /** With no mutation: every edge of the listing, in order, once, page count exact. */
  lemma FollowWalkQuiet(edges: Edges, sub: Str, n: nat, limit: nat, side: bool)
    requires Storable(edges) && 1 <= limit
    requires CallsFor(|Positions(edges, sub, side)|, limit) <= n
    ensures
      var w := WalkFollows(seq(n, _ => edges), sub, None, limit, side);
      && w.complete && w.calls == CallsFor(|Positions(edges, sub, side)|, limit)
      && |w.items| == |Positions(edges, sub, side)|
      && InOrder(w.items, side)
      && (forall row :: row in w.items ==> IsEdge(row, edges, sub, side))
      && (forall k :: k in edges && OnSide(k, sub, side) ==> EdgeRow(edges, k) in w.items)
  {
    var snaps := seq(n, _ => edges);
    var w := WalkFollows(snaps, sub, None, limit, side);
    assert AllStorable(snaps);
    QuietSize(edges, sub, n, limit, side);
    assert InOrder(w.items, side) by { FollowWalkUnderMutation(snaps, sub, limit, side); }
    forall row | row in w.items ensures IsEdge(row, edges, sub, side) {
      RowIsRead(snaps, sub, limit, side, row);
    }
    forall k | k in edges && OnSide(k, sub, side) ensures EdgeRow(edges, k) in w.items {
      StableEdgeIsShown(snaps, sub, limit, side, k, edges[k]);
    }
  }

  lemma QuietSize(edges: Edges, sub: Str, n: nat, limit: nat, side: bool)
    requires Storable(edges) && 1 <= limit
    requires CallsFor(|Positions(edges, sub, side)|, limit) <= n
    ensures
      var w := WalkFollows(seq(n, _ => edges), sub, None, limit, side);
      && w.complete && w.calls == CallsFor(|Positions(edges, sub, side)|, limit)
      && |w.items| == |Positions(edges, sub, side)|
  {
    assert AllStorable(seq(n, _ => edges));
    EncodedWalk(seq(n, _ => edges), sub, None, limit, side);
    QuietPositionWalk(edges, sub, n, limit, side);
  }

  lemma QuietPositionWalk(edges: Edges, sub: Str, n: nat, limit: nat, side: bool)
    requires 1 <= limit && CallsFor(|Positions(edges, sub, side)|, limit) <= n
    ensures
      var ps := Positions(edges, sub, side);
      PositionWalk(seq(n, _ => edges), sub, None, limit, side) == Walk(SortPositions(ps), CallsFor(|ps|, limit), true)
  {
    EarlierIsStrictTotal();
    assert PositionSnaps(seq(n, _ => edges), sub, side) == seq(n, _ => Positions(edges, sub, side));
    QuietWalk(Earlier, Positions(edges, sub, side), n, limit);
  }
}
