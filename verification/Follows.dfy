/** The in-memory follow repository and its cursor-paginated listings. */
module Follows {
  import opened Text
  import opened Order
  import opened Paging
  import opened Wrappers
  import opened Rfc3339
  import FollowCursor

  /** Created-at by (follower, followee). */
  type Edges = map<(Str, Str), Time>

  datatype Follow = Follow(follower: Str, followee: Str, createdAt: Time)

  /** Where an edge sorts in its owner's listing. */
  datatype Position = Position(at: Time, peer: Str)

  /** Row (t, p) sorts strictly after cursor (ct, cp) under (created_at DESC, peer DESC). */
  predicate IsBefore(t: Time, p: Str, ct: Time, cp: Str) {
    if t != ct then Before(t, ct) else Less(p, cp)
  }

  /** `a` is listed before `b`. */
  predicate Earlier(a: Position, b: Position) {
    IsBefore(b.at, b.peer, a.at, a.peer)
  }

  /** Newer first, then greater peer first: no two distinct positions tie. */
  lemma EarlierIsStrictTotal()
    ensures StrictTotal(Earlier)
  {
    LessIsStrictTotal();
    BeforeIsStrictTotal();
    forall a ensures !Earlier(a, a) { assert !Less(a.peer, a.peer); }
    forall a, b, c | Earlier(a, b) && Earlier(b, c) ensures Earlier(a, c) {
      assert Less(c.peer, b.peer) && Less(b.peer, a.peer) ==> Less(c.peer, a.peer);
      assert Before(c.at, b.at) && Before(b.at, a.at) ==> Before(c.at, a.at);
    }
    forall a, b ensures a == b || Earlier(a, b) || Earlier(b, a) {
      assert a.at == b.at || Before(a.at, b.at) || Before(b.at, a.at);
      assert a.peer == b.peer || Less(a.peer, b.peer) || Less(b.peer, a.peer);
    }
  }

  /** The edges of one side of `sub`: who follows it, or whom it follows. */
  predicate OnSide(k: (Str, Str), sub: Str, followersSide: bool) {
    if followersSide then k.1 == sub else k.0 == sub
  }

  function PeerOf(k: (Str, Str), followersSide: bool): Str {
    if followersSide then k.0 else k.1
  }

  function Positions(edges: Edges, sub: Str, followersSide: bool): set<Position> {
    set k | k in edges && OnSide(k, sub, followersSide) :: Position(edges[k], PeerOf(k, followersSide))
  }

  function RowOf(p: Position, sub: Str, followersSide: bool): Follow {
    if followersSide then Follow(p.peer, sub, p.at) else Follow(sub, p.peer, p.at)
  }

  function Rows(ps: seq<Position>, sub: Str, followersSide: bool): (r: seq<Follow>)
    ensures |r| == |ps| && forall i :: 0 <= i < |ps| ==> r[i] == RowOf(ps[i], sub, followersSide)
  {
    if ps == [] then [] else [RowOf(ps[0], sub, followersSide)] + Rows(ps[1..], sub, followersSide)
  }

  /** A missing or malformed cursor means "from the top". */
  function CursorPosition(cursor: Option<Str>): Option<Position> {
    var d := FollowCursor.DecodeFollow(cursor);
    if d.None? then None else Some(Position(d.value.0, d.value.1))
  }

  function Past(cursor: Option<Position>, ps: set<Position>): set<Position> {
    set p | p in ps && (cursor.Some? ==> IsBefore(p.at, p.peer, cursor.value.at, cursor.value.peer))
  }

  ghost function SortPositions(ps: set<Position>): (r: seq<Position>)
    ensures Elems(r) == ps && |r| == |ps|
  {
    EarlierIsStrictTotal();
    Sort(Earlier, ps)
  }

  function NextCursor(page: Page<Position>): Str {
    if page.next.None? then [] else FollowCursor.EncodeFollow(page.next.value.at, page.next.value.peer)
  }

  ghost function PageAt(edges: Edges, sub: Str, cursor: Option<Position>, limit: int, followersSide: bool): Page<Position> {
    Paginate(SortPositions(Past(cursor, Positions(edges, sub, followersSide))), limit)
  }

  /** One page of rows and the encoded cursor of the next, "" when there is none. */
  ghost function ListSide(edges: Edges, sub: Str, cursor: Option<Str>, limit: int, followersSide: bool): (seq<Follow>, Str) {
    var page := PageAt(edges, sub, CursorPosition(cursor), limit, followersSide);
    (Rows(page.items, sub, followersSide), NextCursor(page))
  }

  class FollowRepository {
    var follows: Edges

    constructor ()
      ensures follows == map[]
    {
      follows := map[];
    }

    method Create(follower: Str, followee: Str, now: Time) returns (inserted: bool)
      modifies this
      ensures inserted == ((follower, followee) !in old(follows))
      ensures follows == if inserted then old(follows)[(follower, followee) := now] else old(follows)
    {
      if (follower, followee) in follows {
        return false;
      }
      follows := follows[(follower, followee) := now];
      inserted := true;
    }

    method Delete(follower: Str, followee: Str) returns (removed: bool)
      modifies this
      ensures removed == ((follower, followee) in old(follows))
      ensures follows == old(follows) - {(follower, followee)}
    {
      removed := (follower, followee) in follows;
      follows := follows - {(follower, followee)};
    }

    /** Walk the map in whatever order, keep the edges past the cursor, sort, cut. */
    method List(sub: Str, cursor: Option<Str>, limit: int, followersSide: bool) returns (page: seq<Follow>, next: Str)
      ensures (page, next) == ListSide(follows, sub, cursor, limit, followersSide)
    {
      if limit <= 0 {
        return [], [];
      }
      var at := CursorPosition(cursor);
      var todo := follows.Keys;
      var found: seq<Position> := [];
      while todo != {}
        invariant todo <= follows.Keys
        invariant Distinct(found)
        invariant Elems(found) == Past(at, Positions(Restrict(follows, todo), sub, followersSide))
        decreases |todo|
      {
        var k :| k in todo;
        var p := Position(follows[k], PeerOf(k, followersSide));
        ScanOne(follows, todo, k, sub, followersSide, at);
        if OnSide(k, sub, followersSide)
           && (at.None? || IsBefore(p.at, p.peer, at.value.at, at.value.peer))
        {
          AppendFresh(found, p);
          found := found + [p];
        }
        todo := todo - {k};
      }
      assert Restrict(follows, todo) == follows;
      assert InsertAll(Earlier, found) == SortPositions(Elems(found)) by {
        EarlierIsStrictTotal();
        InsertAllIsSort(Earlier, found);
      }
      var sorted := InsertAll(Earlier, found);
      var cut := Paginate(sorted, limit);
      page := Rows(cut.items, sub, followersSide);
      next := NextCursor(cut);
    }
  }

  /** The edges already visited by a scan that still has `todo` to visit. */
  ghost function Restrict(edges: Edges, todo: set<(Str, Str)>): Edges {
    edges - todo
  }

  lemma ScanOne(edges: Edges, todo: set<(Str, Str)>, k: (Str, Str), sub: Str, side: bool, at: Option<Position>)
    requires k in todo && todo <= edges.Keys
    ensures
      var p := Position(edges[k], PeerOf(k, side));
      var before := Past(at, Positions(Restrict(edges, todo), sub, side));
      var after := Past(at, Positions(Restrict(edges, todo - {k}), sub, side));
      if OnSide(k, sub, side) && (at.None? || IsBefore(p.at, p.peer, at.value.at, at.value.peer))
      then after == before + {p} && p !in before
      else after == before
  {
    var a, b := Restrict(edges, todo), Restrict(edges, todo - {k});
    var p := Position(edges[k], PeerOf(k, side));
    assert b == a[k := edges[k]];
    assert k !in a;
    if OnSide(k, sub, side) {
      forall q ensures q in Positions(b, sub, side) <==> q in Positions(a, sub, side) || q == p {
        if q == p { assert k in b; }
        if q in Positions(a, sub, side) {
          var j :| j in a && OnSide(j, sub, side) && q == Position(a[j], PeerOf(j, side));
          assert j in b && b[j] == a[j];
        }
      }
      assert p !in Positions(a, sub, side) by {
        assert forall j :: j in a && OnSide(j, sub, side) ==> PeerOf(j, side) != p.peer;
      }
    } else {
      forall q ensures q in Positions(b, sub, side) <==> q in Positions(a, sub, side) {
        if q in Positions(a, sub, side) {
          var j :| j in a && OnSide(j, sub, side) && q == Position(a[j], PeerOf(j, side));
          assert j in b && b[j] == a[j];
        }
      }
    }
  }
}
