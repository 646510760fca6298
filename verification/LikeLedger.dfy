/**
 Likes and unlikes as separate repository steps of concurrent requests. `floors`
 is history: how many decrements of a post found its counter already at zero.
 */
module LikeLedger {
  import opened Text
  import opened Posts
  import opened Wrappers
  import Likes

  datatype Request =
    | Checked(user: Str, post: Str)   // like: the post was seen live
    | Inserted(post: Str)             // like: row written, increment pending
    | Removed(post: Str)              // unlike: row deleted, decrement pending

  datatype State = State(
    store: Store, rows: set<(Str, Str)>, requests: map<nat, Request>, floors: map<Str, nat>)

  datatype Step =
    | CreatePost(row: Post)
    | DeletePost(id: Str)
    | LikeCheck(p: nat, user: Str, post: Str)
    | LikeInsert(p: nat)
    | LikeCount(p: nat)
    | UnlikeDelete(p: nat, user: Str, post: Str)
    | UnlikeCount(p: nat)

  predicate Enabled(s: State, step: Step) {
    match step
    case CreatePost(post) => post.id !in s.store && post.likes == 0 && !post.deleted
    case DeletePost(_) => true
    case LikeCheck(p, user, post) => p !in s.requests && user != [] && post != []
    case LikeInsert(p) => p in s.requests && s.requests[p].Checked?
    case LikeCount(p) => p in s.requests && s.requests[p].Inserted?
    case UnlikeDelete(p, user, post) => p !in s.requests && user != [] && post != []
    case UnlikeCount(p) => p in s.requests && s.requests[p].Removed?
  }

  function Floors(s: State, x: Str): nat {
    if x in s.floors then s.floors[x] else 0
  }

  function Apply(s: State, step: Step): State
    requires Enabled(s, step)
  {
    match step
    case CreatePost(post) => s.(store := s.store[post.id := post])
    case DeletePost(id) => s.(store := Deleted(s.store, id))
    case LikeCheck(p, user, post) =>
      if Live(s.store, post) then s.(requests := s.requests[p := Checked(user, post)]) else s
    case LikeInsert(p) =>
      var (user, post) := (s.requests[p].user, s.requests[p].post);
      if (user, post) in s.rows then s.(requests := s.requests - {p})
      else s.(rows := s.rows + {(user, post)}, requests := s.requests[p := Inserted(post)])
    case LikeCount(p) =>
      s.(store := LikesUp(s.store, s.requests[p].post), requests := s.requests - {p})
    case UnlikeDelete(p, user, post) =>
      if (user, post) in s.rows
      then s.(rows := s.rows - {(user, post)}, requests := s.requests[p := Removed(post)])
      else s
    case UnlikeCount(p) =>
      var post := s.requests[p].post;
      var s' := s.(store := LikesDown(s.store, post), requests := s.requests - {p});
      if Live(s.store, post) && s.store[post].likes == 0
      then s'.(floors := s.floors[post := Floors(s, post) + 1])
      else s'
  }

  function Init(): State {
    State(map[], {}, map[], map[])
  }

  function Run(s: State, steps: seq<Step>): Option<State>
    decreases |steps|
  {
    if steps == [] then Some(s)
    else if Enabled(s, steps[0]) then Run(Apply(s, steps[0]), steps[1..])
    else None
  }

  function RowsFor(rows: set<(Str, Str)>, x: Str): set<(Str, Str)> {
    set r | r in rows && r.1 == x
  }

  function Pending(requests: map<nat, Request>, request: Request): set<nat> {
    set p | p in requests && requests[p] == request
  }

  /** likes_count + pending increments = rows + pending decrements + floored decrements. */
  predicate Balanced(s: State, x: Str)
    requires x in s.store
  {
    s.store[x].likes + |Pending(s.requests, Inserted(x))|
    == |RowsFor(s.rows, x)| + |Pending(s.requests, Removed(x))| + Floors(s, x)
  }

  predicate LiveBalanced(s: State, x: Str) {
    Live(s.store, x) && Balanced(s, x)
  }

  ghost predicate Inv(s: State) {
    && (forall r :: r in s.rows ==> r.1 in s.store)
    && (forall p :: p in s.requests ==> s.requests[p].post in s.store)
    && (forall x :: x in s.floors ==> x in s.store)
    && (forall x :: Live(s.store, x) ==> Balanced(s, x))
  }

  lemma AddPending(requests: map<nat, Request>, p: nat, now: Request, x: Request)
    ensures
      var after := requests[p := now];
      Pending(after, x) == if x == now then Pending(requests, x) + {p} else Pending(requests, x) - {p}
  {}

  lemma RemovePending(requests: map<nat, Request>, p: nat, x: Request)
    ensures Pending(requests - {p}, x) == Pending(requests, x) - {p}
  {}

  lemma AddRow(rows: set<(Str, Str)>, r: (Str, Str), x: Str)
    requires r !in rows
    ensures |RowsFor(rows + {r}, x)| == |RowsFor(rows, x)| + (if r.1 == x then 1 else 0)
  {
    if r.1 == x {
      assert RowsFor(rows + {r}, x) == RowsFor(rows, x) + {r};
    } else {
      assert RowsFor(rows + {r}, x) == RowsFor(rows, x);
    }
  }

  lemma RemoveRow(rows: set<(Str, Str)>, r: (Str, Str), x: Str)
    requires r in rows
    ensures |RowsFor(rows - {r}, x)| == |RowsFor(rows, x)| - (if r.1 == x then 1 else 0)
  {
    AddRow(rows - {r}, r, x);
    assert rows - {r} + {r} == rows;
  }

  lemma CreateBalances(s: State, post: Post, x: Str)
    requires Inv(s) && Enabled(s, CreatePost(post)) && Live(Apply(s, CreatePost(post)).store, x)
    ensures Balanced(Apply(s, CreatePost(post)), x)
  {
    if x == post.id {
      assert RowsFor(s.rows, x) == {};
      assert Pending(s.requests, Inserted(x)) == {} && Pending(s.requests, Removed(x)) == {};
      assert Floors(s, x) == 0;
    } else {
      assert Live(s.store, x);
    }
  }

  lemma InsertBalances(s: State, p: nat, x: Str)
    requires Inv(s) && Enabled(s, LikeInsert(p)) && Live(s.store, x)
    ensures Balanced(Apply(s, LikeInsert(p)), x)
  {
    var r := (s.requests[p].user, s.requests[p].post);
    if r in s.rows {
      RemovePending(s.requests, p, Inserted(x));
      RemovePending(s.requests, p, Removed(x));
    } else {
      AddPending(s.requests, p, Inserted(r.1), Inserted(x));
      AddPending(s.requests, p, Inserted(r.1), Removed(x));
      AddRow(s.rows, r, x);
    }
  }

  lemma DeleteBalances(s: State, p: nat, user: Str, post: Str, x: Str)
    requires Inv(s) && Enabled(s, UnlikeDelete(p, user, post)) && Live(s.store, x)
    ensures Balanced(Apply(s, UnlikeDelete(p, user, post)), x)
  {
    if (user, post) in s.rows {
      AddPending(s.requests, p, Removed(post), Inserted(x));
      AddPending(s.requests, p, Removed(post), Removed(x));
      RemoveRow(s.rows, (user, post), x);
    }
  }

  /** A request that ends frees exactly its own pending entry. */
  lemma EndPending(requests: map<nat, Request>, p: nat, x: Request)
    requires p in requests
    ensures |Pending(requests - {p}, x)| == |Pending(requests, x)| - (if requests[p] == x then 1 else 0)
  {
    RemovePending(requests, p, x);
    assert p in Pending(requests, x) <==> requests[p] == x;
  }

  lemma LikeCountBalances(s: State, p: nat, x: Str)
    requires LiveBalanced(s, x) && Enabled(s, LikeCount(p))
    ensures Balanced(Apply(s, LikeCount(p)), x)
  {
    EndPending(s.requests, p, Inserted(x));
    EndPending(s.requests, p, Removed(x));
  }

  lemma UnlikeCountBalances(s: State, p: nat, x: Str)
    requires LiveBalanced(s, x) && Enabled(s, UnlikeCount(p))
    ensures Balanced(Apply(s, UnlikeCount(p)), x)
  {
    EndPending(s.requests, p, Inserted(x));
    EndPending(s.requests, p, Removed(x));
  }

  lemma StepBalances(s: State, step: Step, x: Str)
    requires Inv(s) && Enabled(s, step) && Live(Apply(s, step).store, x)
    ensures Balanced(Apply(s, step), x)
  {
    if step.CreatePost? {
      CreateBalances(s, step.row, x);
    } else {
      assert Live(s.store, x);
      match step
      case DeletePost(_) =>
      case LikeCheck(p, user, post) =>
        AddPending(s.requests, p, Checked(user, post), Inserted(x));
        AddPending(s.requests, p, Checked(user, post), Removed(x));
      case LikeInsert(p) => InsertBalances(s, p, x);
      case UnlikeDelete(p, user, post) => DeleteBalances(s, p, user, post, x);
      case LikeCount(p) => LikeCountBalances(s, p, x);
      case UnlikeCount(p) => UnlikeCountBalances(s, p, x);
    }
  }

  lemma StepKeeps(s: State, step: Step)
    requires Inv(s) && Enabled(s, step)
    ensures Inv(Apply(s, step))
  {
    var s' := Apply(s, step);
    forall x | Live(s'.store, x) ensures Balanced(s', x) { StepBalances(s, step, x); }
  }

  lemma {:induction false} RunKeeps(s: State, steps: seq<Step>)
    requires Inv(s) && Run(s, steps).Some?
    ensures Inv(Run(s, steps).value)
    decreases |steps|
  {
    if steps != [] {
      StepKeeps(s, steps[0]);
      RunKeeps(Apply(s, steps[0]), steps[1..]);
    }
  }

  // ----- main results -----

  /** The ledger of every live post, in every interleaving. */
  lemma LedgerBalances(steps: seq<Step>, x: Str)
    requires Run(Init(), steps).Some?
    ensures
      var s := Run(Init(), steps).value;
      Live(s.store, x) ==>
        s.store[x].likes + |Pending(s.requests, Inserted(x))|
        == |RowsFor(s.rows, x)| + |Pending(s.requests, Removed(x))| + Floors(s, x)
  {
    RunKeeps(Init(), steps);
  }

  /** At rest the count is never below the rows, and exceeds them by the floored decrements. */
  lemma AtRestNeverBelow(steps: seq<Step>, x: Str)
    requires Run(Init(), steps).Some? && Run(Init(), steps).value.requests == map[]
    ensures
      var s := Run(Init(), steps).value;
      Live(s.store, x) ==>
        && s.store[x].likes >= |RowsFor(s.rows, x)|
        && (s.store[x].likes == |RowsFor(s.rows, x)| <==> Floors(s, x) == 0)
  {
    RunKeeps(Init(), steps);
    var s := Run(Init(), steps).value;
    assert Pending(s.requests, Inserted(x)) == {} && Pending(s.requests, Removed(x)) == {};
  }

  /** An unlike that overtakes its like's increment hits the floor: count 1, rows 0. */
  lemma FloorCausesDrift(post: Post, user: Str)
    requires post.id != [] && user != [] && post.likes == 0 && !post.deleted
    ensures
      var s := Run(Init(), DriftSchedule(post, user));
      && s.Some? && s.value.requests == map[]
      && Live(s.value.store, post.id)
      && s.value.store[post.id].likes == 1
      && RowsFor(s.value.rows, post.id) == {}
  {
    var x, steps := post.id, DriftSchedule(post, user);
    var s3 := AfterInsert(post, user);
    var s4 := Apply(s3, steps[3]);
    assert s4.rows == {};
    var s5 := Apply(s4, steps[4]);
    assert s5.requests == map[0 := Inserted(x)];
    var s6 := Apply(s5, steps[5]);
    assert s6.requests == map[];
    RunCons(s5, steps[5], []);
    RunCons(s4, steps[4], [steps[5]]);
    RunCons(s3, steps[3], [steps[4], steps[5]]);
    FirstThree(post, user, [steps[3], steps[4], steps[5]]);
    assert steps == [steps[0], steps[1], steps[2]] + [steps[3], steps[4], steps[5]];
  }

  /** The post exists, the like row is in, its increment is still pending. */
  function AfterInsert(post: Post, user: Str): State {
    Init().(store := map[post.id := post], rows := {(user, post.id)}, requests := map[0 := Inserted(post.id)])
  }

  lemma FirstThree(post: Post, user: Str, rest: seq<Step>)
    requires post.id != [] && user != [] && post.likes == 0 && !post.deleted
    ensures Run(Init(), [CreatePost(post), LikeCheck(0, user, post.id), LikeInsert(0)] + rest)
         == Run(AfterInsert(post, user), rest)
  {
    var s1 := Apply(Init(), CreatePost(post));
    var s2 := Apply(s1, LikeCheck(0, user, post.id));
    assert Apply(s2, LikeInsert(0)) == AfterInsert(post, user);
    RunCons(s2, LikeInsert(0), rest);
    RunCons(s1, LikeCheck(0, user, post.id), [LikeInsert(0)] + rest);
    RunCons(Init(), CreatePost(post), [LikeCheck(0, user, post.id)] + ([LikeInsert(0)] + rest));
    assert [CreatePost(post), LikeCheck(0, user, post.id), LikeInsert(0)] + rest
        == [CreatePost(post)] + ([LikeCheck(0, user, post.id)] + ([LikeInsert(0)] + rest));
  }

  function DriftSchedule(post: Post, user: Str): seq<Step> {
    [CreatePost(post), LikeCheck(0, user, post.id), LikeInsert(0),
     UnlikeDelete(1, user, post.id), UnlikeCount(1), LikeCount(0)]
  }

  lemma RunCons(s: State, step: Step, rest: seq<Step>)
    requires Enabled(s, step)
    ensures Run(s, [step] + rest) == Run(Apply(s, step), rest)
  {
    assert ([step] + rest)[1..] == rest;
  }

  // ----- whole calls -----

  /** Every live post's counter equals its rows, and rows belong to stored posts. */
  ghost predicate Exact(store: Store, rows: set<(Str, Str)>) {
    && (forall r :: r in rows ==> r.1 in store)
    && (forall x :: Live(store, x) ==> store[x].likes == |RowsFor(rows, x)|)
  }

  /** Run one at a time, the use cases keep the counter exact and never floor it. */
  lemma WholeCallsStayExact(store: Store, rows: set<(Str, Str)>, user: Str, post: Str)
    requires Exact(store, rows)
    ensures
      var like, unlike := Likes.LikeCall(store, rows, user, post), Likes.UnlikeCall(store, rows, user, post);
      Exact(like.0, like.1) && Exact(unlike.0, unlike.1)
  {
    var r := (user, post);
    forall x | Live(store, x)
      ensures
        var like, unlike := Likes.LikeCall(store, rows, user, post), Likes.UnlikeCall(store, rows, user, post);
        && like.0[x].likes == |RowsFor(like.1, x)|
        && unlike.0[x].likes == |RowsFor(unlike.1, x)|
    {
      if r in rows { RemoveRow(rows, r, x); } else { AddRow(rows, r, x); }
      if x == post && r in rows { assert r in RowsFor(rows, x); }
    }
  }

  datatype Call = Like(user: Str, post: Str) | Unlike(user: Str, post: Str)

  function RunCalls(store: Store, rows: set<(Str, Str)>, calls: seq<Call>): (Store, set<(Str, Str)>)
    decreases |calls|
  {
    if calls == [] then (store, rows)
    else
      var r := match calls[0]
               case Like(user, post) => Likes.LikeCall(store, rows, user, post)
               case Unlike(user, post) => Likes.UnlikeCall(store, rows, user, post);
      RunCalls(r.0, r.1, calls[1..])
  }

  lemma {:induction false} CallSequenceStaysExact(store: Store, rows: set<(Str, Str)>, calls: seq<Call>)
    requires Exact(store, rows)
    ensures Exact(RunCalls(store, rows, calls).0, RunCalls(store, rows, calls).1)
    decreases |calls|
  {
    if calls != [] {
      WholeCallsStayExact(store, rows, calls[0].user, calls[0].post);
      match calls[0]
      case Like(user, post) =>
        var r := Likes.LikeCall(store, rows, user, post);
        CallSequenceStaysExact(r.0, r.1, calls[1..]);
      case Unlike(user, post) =>
        var r := Likes.UnlikeCall(store, rows, user, post);
        CallSequenceStaysExact(r.0, r.1, calls[1..]);
    }
  }
}
