/**
 What callers of follow, unfollow and hydration see in every run of whole calls, and
 the repository steps those calls are made of.
 */
module FollowCalls {
  import opened Text
  import opened Wrappers
  import opened Users
  import opened FollowCounters
  import L = FollowLedger

  // ----- what a caller sees -----

  /**
   In every run: a follow succeeds exactly for two different users of whom the target is
   live. It then holds, and the count shown is the target's number of followers.
   */
  lemma FollowSeen(steps: seq<Step>, follower: Str, followee: Str)
    requires Run(Init(), steps).Some?
    ensures
      var s := Run(Init(), steps).value;
      var (users, edges, r) := FollowCall(s.users, s.edges, follower, followee);
      && (r.Ok? <==>
            && follower != "" && followee != "" && follower != followee
            && followee in s.users && s.users[followee].deletedAt.None?)
      && (r.Err? ==> users == s.users && edges == s.edges)
      && (r.Ok? ==>
            && edges == s.edges + {(follower, followee)}
            && (r.value.0 <==> (follower, followee) !in s.edges)
            && r.value.1 == |FollowersOf(edges, followee)|)
  {
    RunKeeps(Init(), steps);
    var s := Run(Init(), steps).value;
    var e := (follower, followee);
    if followee in s.users {
      assert Counted(s.users, s.edges, followee);
      if e in s.edges { assert s.edges + {e} == s.edges; } else { AddEdge(s.edges, e, followee); }
    }
  }

  /**
   In every run: an unfollow succeeds exactly for two different names. Afterwards that
   edge is gone and no other, and the count shown is the target's number of followers.
   */
  lemma UnfollowSeen(steps: seq<Step>, follower: Str, followee: Str)
    requires Run(Init(), steps).Some?
    ensures
      var s := Run(Init(), steps).value;
      var (users, edges, r) := UnfollowCall(s.users, s.edges, follower, followee);
      && (r.Ok? <==> follower != "" && followee != "" && follower != followee)
      && (r.Err? ==> users == s.users && edges == s.edges)
      && (r.Ok? ==> edges == s.edges - {(follower, followee)} && r.value == |FollowersOf(edges, followee)|)
  {
    RunKeeps(Init(), steps);
    var s := Run(Init(), steps).value;
    var e := (follower, followee);
    if e in s.edges {
      assert Counted(s.users, s.edges, followee);
      RemoveEdge(s.edges, e, followee);
      assert e in FollowersOf(s.edges, followee);
    } else {
      assert s.edges - {e} == s.edges;
      if followee in s.users {
        assert Counted(s.users, s.edges, followee);
      } else {
        assert FollowersOf(s.edges, followee) == {};
      }
    }
  }

  /** An unfollow undoes a new follow: the edges are what they were, and so are both counters. */
  lemma UnfollowUndoesFollow(users: Table, edges: EdgeSet, follower: Str, followee: Str)
    requires (follower, followee) !in edges
    requires FollowCall(users, edges, follower, followee).2.Ok?
    ensures
      var (users1, edges1, _) := FollowCall(users, edges, follower, followee);
      var (users2, edges2, r) := UnfollowCall(users1, edges1, follower, followee);
      r == Ok(users[followee].followers) && edges2 == edges && users2 == users
  {
    var e := (follower, followee);
    assert edges + {e} - {e} == edges;
  }

  // ----- the steps of a call -----

  /** Follow: load the target, insert the edge, raise both counters when it was new. */
  function FollowMoves(edges: EdgeSet, p: nat, follower: Str, followee: Str): seq<L.Move> {
    if (follower, followee) in edges
    then [L.FollowCheck(p, follower, followee), L.FollowInsert(p)]
    else [L.FollowCheck(p, follower, followee), L.FollowInsert(p), L.Bump(p), L.Bump(p)]
  }

  /** Unfollow: delete the edge, lower both counters when there was one. */
  function UnfollowMoves(edges: EdgeSet, p: nat, follower: Str, followee: Str): seq<L.Move> {
    if (follower, followee) in edges
    then [L.UnfollowDelete(p, follower, followee), L.Drop(p), L.Drop(p)]
    else [L.UnfollowDelete(p, follower, followee)]
  }

  lemma Reach1(m: L.Machine, a: L.Move)
    requires L.Possible(m, a)
    ensures L.Reach(m, [a]) == Some(L.Result(m, a))
  {
    L.ReachSnoc(m, [], a);
    assert [] + [a] == [a];
  }

  lemma Reach2(m: L.Machine, a: L.Move, b: L.Move)
    requires L.Possible(m, a) && L.Possible(L.Result(m, a), b)
    ensures L.Reach(m, [a, b]) == Some(L.Result(L.Result(m, a), b))
  {
    Reach1(m, a);
    L.ReachSnoc(m, [a], b);
    assert [a] + [b] == [a, b];
  }

  lemma Reach3(m: L.Machine, a: L.Move, b: L.Move, c: L.Move)
    requires L.Reach(m, [a, b]).Some? && L.Possible(L.Reach(m, [a, b]).value, c)
    ensures L.Reach(m, [a, b, c]) == Some(L.Result(L.Reach(m, [a, b]).value, c))
  {
    L.ReachSnoc(m, [a, b], c);
    assert [a, b] + [c] == [a, b, c];
  }

  lemma Reach4(m: L.Machine, a: L.Move, b: L.Move, c: L.Move, d: L.Move)
    requires L.Reach(m, [a, b, c]).Some? && L.Possible(L.Reach(m, [a, b, c]).value, d)
    ensures L.Reach(m, [a, b, c, d]) == Some(L.Result(L.Reach(m, [a, b, c]).value, d))
  {
    L.ReachSnoc(m, [a, b, c], d);
    assert [a, b, c] + [d] == [a, b, c, d];
  }

  /** What a finished call leaves: its table and edges, and no pending request of its own. */
  ghost predicate Leaves(m: L.Machine, m': L.Machine, users: Table, edges: EdgeSet) {
    m'.users == users && m'.edges == edges && m'.requests == m.requests && m'.copies == m.copies
  }

  /** `FollowCall` is the ledger's run of an undisturbed follow, and refuses when that cannot start. */
  lemma FollowIsItsSteps(m: L.Machine, p: nat, follower: Str, followee: Str)
    requires p !in m.requests
    ensures
      var (users, edges, r) := FollowCall(m.users, m.edges, follower, followee);
      && (r.Ok? <==> L.Possible(m, L.FollowCheck(p, follower, followee)))
      && (r.Ok? ==>
            && L.Reach(m, FollowMoves(m.edges, p, follower, followee)).Some?
            && Leaves(m, L.Reach(m, FollowMoves(m.edges, p, follower, followee)).value, users, edges))
  {
    var check, insert := L.FollowCheck(p, follower, followee), L.FollowInsert(p);
    if L.Possible(m, check) {
      Reach2(m, check, insert);
      if (follower, followee) in m.edges {
        assert m.requests[p := L.Checked(follower, followee)] - {p} == m.requests;
      } else {
        FollowBumps(m, p, follower, followee);
      }
    }
  }

  lemma FollowBumps(m: L.Machine, p: nat, follower: Str, followee: Str)
    requires p !in m.requests && L.Possible(m, L.FollowCheck(p, follower, followee))
    requires (follower, followee) !in m.edges
    ensures
      var (users, edges, _) := FollowCall(m.users, m.edges, follower, followee);
      && L.Reach(m, FollowMoves(m.edges, p, follower, followee)).Some?
      && Leaves(m, L.Reach(m, FollowMoves(m.edges, p, follower, followee)).value, users, edges)
  {
    var check, insert := L.FollowCheck(p, follower, followee), L.FollowInsert(p);
    Reach2(m, check, insert);
    Reach3(m, check, insert, L.Bump(p));
    Reach4(m, check, insert, L.Bump(p), L.Bump(p));
    assert m.requests[p := L.HalfUp(follower, followee)] - {p} == m.requests;
  }

  /** `UnfollowCall` is the ledger's run of an undisturbed unfollow, and refuses when that cannot start. */
  lemma UnfollowIsItsSteps(m: L.Machine, p: nat, follower: Str, followee: Str)
    requires p !in m.requests
    ensures
      var (users, edges, r) := UnfollowCall(m.users, m.edges, follower, followee);
      && (r.Ok? <==> L.Possible(m, L.UnfollowDelete(p, follower, followee)))
      && (r.Ok? ==>
            && L.Reach(m, UnfollowMoves(m.edges, p, follower, followee)).Some?
            && Leaves(m, L.Reach(m, UnfollowMoves(m.edges, p, follower, followee)).value, users, edges))
  {
    var delete := L.UnfollowDelete(p, follower, followee);
    if L.Possible(m, delete) {
      Reach1(m, delete);
      if (follower, followee) in m.edges {
        UnfollowDrops(m, p, follower, followee);
      } else {
        assert m.edges - {(follower, followee)} == m.edges;
      }
    }
  }

  lemma UnfollowDrops(m: L.Machine, p: nat, follower: Str, followee: Str)
    requires p !in m.requests && L.Possible(m, L.UnfollowDelete(p, follower, followee))
    requires (follower, followee) in m.edges
    ensures
      var (users, edges, _) := UnfollowCall(m.users, m.edges, follower, followee);
      && L.Reach(m, UnfollowMoves(m.edges, p, follower, followee)).Some?
      && Leaves(m, L.Reach(m, UnfollowMoves(m.edges, p, follower, followee)).value, users, edges)
  {
    var delete := L.UnfollowDelete(p, follower, followee);
    Reach2(m, delete, L.Drop(p));
    Reach3(m, delete, L.Drop(p), L.Drop(p));
    assert m.requests[p := L.HalfDown(follower, followee)] - {p} == m.requests;
  }

  /** The ledger reads rows as `FollowCounters` does. */
  lemma ReadsAgree(m: L.Machine, p: nat, sub: Str, now: int)
    requires p !in m.copies && sub != ""
    ensures L.Result(m, L.Fetch(p, sub, now)).copies == Apply(State(m.users, m.edges, m.copies), Read(p, sub, now)).copies
  {}

  /** The ledger writes copies back as `FollowCounters` does. */
  lemma WritesAgree(m: L.Machine, p: nat, answer: Answer, now: int)
    requires p in m.copies
    ensures L.Result(m, L.Refresh(p, answer, now)).users
      == Apply(State(m.users, m.edges, m.copies), WriteBack(p, answer, now)).users
  {}

  /** The ledger edits profiles as `FollowCounters` does. */
  lemma EditsAgree(m: L.Machine, sub: Str, bio: Option<Str>, bannerURL: Option<Str>, now: int)
    ensures L.Result(m, L.Edit(sub, bio, bannerURL, now)).users
      == Apply(State(m.users, m.edges, m.copies), EditProfile(sub, bio, bannerURL, now)).users
  {}
}
