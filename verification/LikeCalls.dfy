/** What callers of like and unlike see, and the repository steps those calls are made of. */
module LikeCalls {
  import opened Text
  import opened Wrappers
  import opened Posts
  import opened Likes
  import opened LikeLedger

  /** No other post is touched, and this one only in its like count. */
  predicate OnlyLikes(store: Store, after: Store, post: Str) {
    && after.Keys == store.Keys
    && (forall x :: x in store && x != post ==> after[x] == store[x])
    && (post in store ==> after[post] == store[post].(likes := after[post].likes))
  }

  /**
   A like succeeds exactly for a user and a live post. The user then likes the post, no
   other like changed, and the post shows as many likes as it has.
   */
  lemma LikeSeen(store: Store, rows: set<(Str, Str)>, user: Str, post: Str)
    requires Exact(store, rows)
    ensures
      var (after, rows', err) := LikeCall(store, rows, user, post);
      && (err.None? <==> user != "" && post != "" && post in store && !store[post].deleted)
      && (err == Some(Unauthorized) <==> user == "")
      && (err == Some(InvalidRequest) <==> user != "" && post == "")
      && (err == Some(NotFound) <==> user != "" && post != "" && !(post in store && !store[post].deleted))
      && (err.Some? ==> after == store && rows' == rows)
      && (err.None? ==>
            && rows' == rows + {(user, post)} && OnlyLikes(store, after, post)
            && after[post].likes == |RowsFor(rows', post)|)
  {
    WholeCallsStayExact(store, rows, user, post);
    if (user, post) in rows { assert rows + {(user, post)} == rows; }
  }

  /** An unlike succeeds for any user and post: the user no longer likes it, and no other like changed. */
  lemma UnlikeSeen(store: Store, rows: set<(Str, Str)>, user: Str, post: Str)
    requires Exact(store, rows)
    ensures
      var (after, rows', err) := UnlikeCall(store, rows, user, post);
      && (err.None? <==> user != "" && post != "")
      && (err == Some(Unauthorized) <==> user == "")
      && (err == Some(InvalidRequest) <==> user != "" && post == "")
      && (err.Some? ==> after == store && rows' == rows)
      && (err.None? ==>
            && rows' == rows - {(user, post)} && OnlyLikes(store, after, post)
            && (!Live(store, post) ==> after == store)
            && (Live(after, post) ==> after[post].likes == |RowsFor(rows', post)|))
  {
    WholeCallsStayExact(store, rows, user, post);
    if (user, post) !in rows { assert rows - {(user, post)} == rows; }
  }

  /** Unliking what was just liked leaves posts and rows as they were. */
  lemma UnlikeUndoesLike(store: Store, rows: set<(Str, Str)>, user: Str, post: Str)
    requires (user, post) !in rows && LikeCall(store, rows, user, post).2.None?
    ensures
      var (store1, rows1, _) := LikeCall(store, rows, user, post);
      UnlikeCall(store1, rows1, user, post) == (store, rows, None)
  {
    assert rows + {(user, post)} - {(user, post)} == rows;
    assert LikesDown(LikesUp(store, post), post) == store;
  }

  /** The user's likes after a run of whole calls are those of the last call for each post. */
  lemma {:induction false} LastCallDecides(store: Store, rows: set<(Str, Str)>, calls: seq<Call>, user: Str, post: Str)
    requires user != "" && post != "" && Live(store, post)
    ensures
      var rows' := RunCalls(store, rows, calls).1;
      (user, post) in rows' <==> Wanted(calls, user, post, (user, post) in rows)
    decreases |calls|
  {
    if calls != [] {
      var r := match calls[0]
               case Like(u, x) => LikeCall(store, rows, u, x)
               case Unlike(u, x) => UnlikeCall(store, rows, u, x);
      LastCallDecides(r.0, r.1, calls[1..], user, post);
    }
  }

  /** What the last call about `post` by `user` asked for, or `before` when there is none. */
  predicate Wanted(calls: seq<Call>, user: Str, post: Str, before: bool) {
    if calls == [] then before
    else
      Wanted(calls[1..], user, post,
        if calls[0] == Call.Like(user, post) then true
        else if calls[0] == Call.Unlike(user, post) then false
        else before)
  }

  /** A deleted post is seen by nobody; its like rows stay. */
  lemma DeletedIsHidden(s: State, id: Str)
    ensures
      var s' := Apply(s, DeletePost(id));
      Get(s'.store, id) == None && s'.rows == s.rows && forall x :: x != id ==> Get(s'.store, x) == Get(s.store, x)
  {}

  /** In every interleaving: a deleted post is never changed again. */
  lemma {:induction false} DeletedIsFrozen(s: State, steps: seq<Step>, id: Str)
    requires Run(s, steps).Some? && id in s.store && s.store[id].deleted
    ensures id in Run(s, steps).value.store && Run(s, steps).value.store[id] == s.store[id]
    decreases |steps|
  {
    if steps != [] { DeletedIsFrozen(Apply(s, steps[0]), steps[1..], id); }
  }

  // ----- the steps of a call -----

  lemma OneStep(s: State, a: Step)
    requires Enabled(s, a)
    ensures Run(s, [a]) == Some(Apply(s, a))
  {
    RunCons(s, a, []);
    assert [a] + [] == [a];
  }

  lemma TwoSteps(s: State, a: Step, b: Step)
    requires Enabled(s, a) && Enabled(Apply(s, a), b)
    ensures Run(s, [a, b]) == Some(Apply(Apply(s, a), b))
  {
    RunCons(s, a, [b]);
    OneStep(Apply(s, a), b);
    assert [a] + [b] == [a, b];
  }

  lemma ThreeSteps(s: State, a: Step, b: Step, c: Step)
    requires Enabled(s, a) && Enabled(Apply(s, a), b) && Enabled(Apply(Apply(s, a), b), c)
    ensures Run(s, [a, b, c]) == Some(Apply(Apply(Apply(s, a), b), c))
  {
    RunCons(s, a, [b, c]);
    TwoSteps(Apply(s, a), b, c);
    assert [a] + [b, c] == [a, b, c];
  }

  function LikeSteps(rows: set<(Str, Str)>, p: nat, user: Str, post: Str): seq<Step> {
    if (user, post) in rows then [LikeCheck(p, user, post), LikeInsert(p)]
    else [LikeCheck(p, user, post), LikeInsert(p), LikeCount(p)]
  }

  /** `LikeCall`, when it succeeds, is the ledger's run of an undisturbed like. */
  lemma LikeIsItsSteps(s: State, p: nat, user: Str, post: Str)
    requires p !in s.requests && LikeCall(s.store, s.rows, user, post).2.None?
    ensures
      var (store, rows, _) := LikeCall(s.store, s.rows, user, post);
      Run(s, LikeSteps(s.rows, p, user, post)) == Some(s.(store := store, rows := rows))
  {
    var check := LikeCheck(p, user, post);
    if (user, post) in s.rows {
      TwoSteps(s, check, LikeInsert(p));
      assert Apply(s, check).requests - {p} == s.requests;
    } else {
      ThreeSteps(s, check, LikeInsert(p), LikeCount(p));
      assert s.requests[p := Checked(user, post)][p := Inserted(post)] - {p} == s.requests;
    }
  }

  function UnlikeSteps(rows: set<(Str, Str)>, p: nat, user: Str, post: Str): seq<Step> {
    if (user, post) in rows then [UnlikeDelete(p, user, post), UnlikeCount(p)]
    else [UnlikeDelete(p, user, post)]
  }

  /** `UnlikeCall`, when it succeeds, is the ledger's run of an undisturbed unlike. */
  lemma UnlikeIsItsSteps(s: State, p: nat, user: Str, post: Str)
    requires p !in s.requests && UnlikeCall(s.store, s.rows, user, post).2.None?
    ensures Run(s, UnlikeSteps(s.rows, p, user, post)).Some?
    ensures
      var (store, rows, _) := UnlikeCall(s.store, s.rows, user, post);
      var s' := Run(s, UnlikeSteps(s.rows, p, user, post)).value;
      s'.store == store && s'.rows == rows && s'.requests == s.requests
  {
    var delete := UnlikeDelete(p, user, post);
    if (user, post) in s.rows {
      TwoSteps(s, delete, UnlikeCount(p));
      assert Apply(s, delete).requests - {p} == s.requests;
    } else {
      OneStep(s, delete);
    }
  }
}
