/**
 What callers of create and delete see, who can delete what in every run of whole calls
 and in every interleaving, and the repository steps those calls are made of.
 */
module PostCalls {
  import opened Text
  import opened Wrappers
  import opened Posts
  import opened Threads
  import R = ReplyLedger

  // ----- delete -----

  /** `after` differs from `store` in the rows `id` and, if it lost or won a reply, `parent`. */
  ghost predicate OtherRowsKept(store: Store, after: Store, id: Str, parent: Option<Str>) {
    forall y :: y in store && y != id && parent != Some(y) ==> y in after && after[y] == store[y]
  }

  /**
   A delete succeeds exactly when the post is live and the user is its non-empty author.
   Afterwards nobody sees the post, its parent counts one reply less unless it counted none,
   and nothing else changed; a refused delete changes nothing.
   */
  lemma DeleteSeen(store: Store, id: Str, user: Str)
    ensures
      var (after, err) := DeleteCall(store, id, user);
      && (err.None? <==> user != "" && id in store && !store[id].deleted && store[id].userID == user)
      && (err.Some? ==> after == store)
      && (err == Some(Unauthorized) <==> user == "")
      && (err == Some(Missing) <==> user != "" && !(id in store && !store[id].deleted))
      && (err == Some(Forbidden) <==> user != "" && id in store && !store[id].deleted && store[id].userID != user)
      && (err.None? ==>
            && after.Keys == store.Keys && Get(after, id) == None
            && after[id] == store[id].(deleted := true)
            && OtherRowsKept(store, after, id, store[id].parent)
            && (forall y :: y in store && y != id ==> Get(after, y).Some? == Get(store, y).Some?))
  {}

  /** The parent of a deleted reply. */
  lemma DeleteCountsDown(store: Store, id: Str, user: Str)
    requires DeleteCall(store, id, user).1.None?
    requires store[id].parent.Some? && Live(store, store[id].parent.value) && store[id].parent.value != id
    ensures
      var parent := store[id].parent.value;
      var was := store[parent].replies;
      DeleteCall(store, id, user).0[parent] == store[parent].(replies := if was == 0 then 0 else was - 1)
  {}

  // ----- create -----

  predicate OwnsAll(owners: map<Str, Str>, images: seq<Str>, user: Str) {
    forall i :: 0 <= i < |images| ==> images[i] in owners && owners[images[i]] == user
  }

  /** The first image that is not the user's decides: missing, or someone else's. */
  lemma {:induction false} FirstBadImage(owners: map<Str, Str>, images: seq<Str>, user: Str)
    ensures ImageError(owners, images, user).None? <==> OwnsAll(owners, images, user)
    ensures ImageError(owners, images, user).Some? ==> ImageError(owners, images, user).value in {Missing, Forbidden}
    ensures forall i :: 0 <= i < |images| && OwnsAll(owners, images[..i], user) ==>
      && (images[i] !in owners ==> ImageError(owners, images, user) == Some(Missing))
      && (images[i] in owners && owners[images[i]] != user ==> ImageError(owners, images, user) == Some(Forbidden))
  {
    if images != [] {
      FirstBadImage(owners, images[1..], user);
      forall i | 0 <= i < |images| && OwnsAll(owners, images[..i], user)
        ensures images[i] !in owners ==> ImageError(owners, images, user) == Some(Missing)
        ensures images[i] in owners && owners[images[i]] != user ==> ImageError(owners, images, user) == Some(Forbidden)
      {
        if i > 0 {
          assert images[..i][0] == images[0];
          assert images[1..][..i - 1] == images[..i][1..];
        }
      }
      if ImageError(owners, images, user).None? {
        forall i | 0 <= i < |images| ensures images[i] in owners && owners[images[i]] == user {
          if i > 0 { assert images[1..][i - 1] == images[i]; }
        }
      }
    }
  }

  /** The row a create stores: counters at zero, and the root of the thread it joins. */
  function Created(store: Store, id: Str, user: Str, parent: Option<Str>): Post
    requires parent.Some? ==> parent.value in store
  {
    Post(id, user, parent,
      if parent.None? then None
      else if store[parent.value].root.Some? then store[parent.value].root
      else Some(store[parent.value].id),
      0, 0, false)
  }

  /**
   A create succeeds exactly when the user is known, the request and the post are valid, the
   parent is live, every image is the user's own and the tags could be extracted. The post is then seen by all,
   its parent counts one reply more and nothing else changed; a refused create changes nothing.
   */
  lemma CreateSeen(store: Store, owners: map<Str, Str>, id: Str, user: Str, r: Request)
    requires id !in store
    ensures
      var (after, err) := CreateCall(store, owners, id, user, r);
      && (err.None? <==>
            && user != "" && r.valid && (r.parent.Some? ==> r.parent.value in store && !store[r.parent.value].deleted)
            && OwnsAll(owners, r.images, user) && r.tagged && r.wellFormed)
      && (err.Some? ==> after == store)
      && (err == Some(Unauthorized) <==> user == "")
      && (err.None? ==>
            && after.Keys == store.Keys + {id} && Get(after, id) == Some(Created(store, id, user, r.parent))
            && OtherRowsKept(store, after, id, r.parent)
            && (r.parent.Some? ==>
                  after[r.parent.value] == store[r.parent.value].(replies := store[r.parent.value].replies + 1)))
  {
    FirstBadImage(owners, r.images, user);
  }

  /** Which error a refused create gets: the first check that fails decides. */
  lemma CreateErrors(store: Store, owners: map<Str, Str>, id: Str, user: Str, r: Request)
    ensures
      var err := CreateCall(store, owners, id, user, r).1;
      var ready := user != "" && r.valid && (r.parent.Some? ==> Live(store, r.parent.value));
      && (user == "" ==> err == Some(Unauthorized))
      && (user != "" && !r.valid ==> err == Some(Invalid))
      && (user != "" && r.valid && !ready ==> err == Some(Missing))
      && (ready && !OwnsAll(owners, r.images, user) ==> err == ImageError(owners, r.images, user))
      && (ready && OwnsAll(owners, r.images, user) && !r.tagged ==> err == Some(Internal))
      && (ready && OwnsAll(owners, r.images, user) && r.tagged && !r.wellFormed ==> err == Some(Invalid))
  {
    FirstBadImage(owners, r.images, user);
  }

  // ----- who deletes, whole calls -----

  lemma CallKeepsAuthor(store: Store, call: Call, id: Str)
    requires id in store && (call.Create? ==> call.id !in store)
    ensures
      var after := match call
        case Create(owners, x, user, r) => CreateCall(store, owners, x, user, r).0
        case Delete(x, user) => DeleteCall(store, x, user).0;
      && id in after && after[id].userID == store[id].userID
      && (Live(store, id) ==>
            (!Live(after, id) <==> store[id].userID != "" && call == Delete(id, store[id].userID)))
      && (!Live(store, id) ==> !Live(after, id))
  {}

  /** In every run of whole calls: a deleted post stays deleted. */
  lemma {:induction false} DeletedForGood(store: Store, calls: seq<Call>, id: Str)
    requires RunCalls(store, calls).Some? && id in store && !Live(store, id)
    ensures !Live(RunCalls(store, calls).value, id)
    decreases |calls|
  {
    if calls != [] {
      CallKeepsAuthor(store, calls[0], id);
      match calls[0]
      case Create(owners, x, user, r) => DeletedForGood(CreateCall(store, owners, x, user, r).0, calls[1..], id);
      case Delete(x, user) => DeletedForGood(DeleteCall(store, x, user).0, calls[1..], id);
    }
  }

  /** In every run of whole calls: a live post is deleted exactly when its author, not the empty user, deletes it. */
  lemma {:induction false} OnlyItsAuthorDeletes(store: Store, calls: seq<Call>, id: Str)
    requires RunCalls(store, calls).Some? && Live(store, id)
    ensures !Live(RunCalls(store, calls).value, id) <==>
      store[id].userID != "" && Delete(id, store[id].userID) in calls
    decreases |calls|
  {
    if calls != [] {
      CallKeepsAuthor(store, calls[0], id);
      var after := match calls[0]
        case Create(owners, x, user, r) => CreateCall(store, owners, x, user, r).0
        case Delete(x, user) => DeleteCall(store, x, user).0;
      if Live(after, id) {
        OnlyItsAuthorDeletes(after, calls[1..], id);
        assert calls == [calls[0]] + calls[1..];
      } else {
        DeletedForGood(after, calls[1..], id);
        assert calls[0] in calls;
      }
    }
  }

  // ----- who deletes, every interleaving -----

  /** Nobody has been let through to delete `id`. */
  predicate Unchecked(s: R.State, id: Str) {
    forall p :: p in s.requests ==> !(s.requests[p].Checked? && s.requests[p].id == id)
  }

  ghost predicate CheckedBy(steps: seq<R.Step>, id: Str, user: Str) {
    exists p: nat :: R.Check(p, id, user) in steps
  }

  lemma CheckedLater(steps: seq<R.Step>, id: Str, user: Str)
    requires steps != [] && CheckedBy(steps[1..], id, user)
    ensures CheckedBy(steps, id, user)
  {
    var p: nat :| R.Check(p, id, user) in steps[1..];
    assert R.Check(p, id, user) in steps;
  }

  /** Unless it is the author's check, a step lets nobody through and deletes nothing. */
  lemma StepLeavesUnchecked(s: R.State, step: R.Step, id: Str)
    requires R.Enabled(s, step) && id in s.store && !s.store[id].deleted && Unchecked(s, id)
    ensures
      var s' := R.Apply(s, step);
      && id in s'.store && s'.store[id].userID == s.store[id].userID && !s'.store[id].deleted
      && (Unchecked(s', id) || (step.Check? && step.id == id && step.user == s.store[id].userID))
  {}

  lemma {:induction false} AuthorWasChecked(s: R.State, steps: seq<R.Step>, id: Str)
    requires R.Run(s, steps).Some? && id in s.store && !s.store[id].deleted && Unchecked(s, id)
    ensures
      var s' := R.Run(s, steps).value;
      && id in s'.store && s'.store[id].userID == s.store[id].userID
      && (s'.store[id].deleted ==> CheckedBy(steps, id, s.store[id].userID))
    decreases |steps|
  {
    if steps != [] {
      StepLeavesUnchecked(s, steps[0], id);
      var s1 := R.Apply(s, steps[0]);
      if Unchecked(s1, id) {
        AuthorWasChecked(s1, steps[1..], id);
        if R.Run(s, steps).value.store[id].deleted { CheckedLater(steps, id, s.store[id].userID); }
      } else {
        assert steps[0] in steps;
        assert R.Check(steps[0].p, id, s.store[id].userID) in steps;
        RowsKeepAuthors(s1, steps[1..], id);
      }
    }
  }

  lemma {:induction false} RowsKeepAuthors(s: R.State, steps: seq<R.Step>, id: Str)
    requires R.Run(s, steps).Some? && id in s.store
    ensures
      var s' := R.Run(s, steps).value;
      id in s'.store && s'.store[id].userID == s.store[id].userID
    decreases |steps|
  {
    if steps != [] { RowsKeepAuthors(R.Apply(s, steps[0]), steps[1..], id); }
  }

  /** A step that does not store `id` leaves it unstored and lets nobody through to delete it. */
  lemma StepBeforeInsert(s: R.State, step: R.Step, id: Str)
    requires R.Enabled(s, step) && id !in s.store && Unchecked(s, id)
    ensures
      var s' := R.Apply(s, step);
      Unchecked(s', id) && (id in s'.store ==> !s'.store[id].deleted)
  {}

  lemma {:induction false} AuthorCheckedSince(s: R.State, steps: seq<R.Step>, id: Str)
    requires R.Run(s, steps).Some? && id !in s.store && Unchecked(s, id)
    ensures
      var s' := R.Run(s, steps).value;
      id in s'.store && s'.store[id].deleted ==> CheckedBy(steps, id, s'.store[id].userID)
    decreases |steps|
  {
    if steps != [] {
      StepBeforeInsert(s, steps[0], id);
      var s1, s' := R.Apply(s, steps[0]), R.Run(s, steps).value;
      if id in s1.store { AuthorWasChecked(s1, steps[1..], id); } else { AuthorCheckedSince(s1, steps[1..], id); }
      if id in s'.store && s'.store[id].deleted { CheckedLater(steps, id, s'.store[id].userID); }
    }
  }

  /** In every interleaving of creates and deletes: a deleted post was deleted by a request of its author. */
  lemma DeletedByItsAuthor(steps: seq<R.Step>, id: Str)
    requires R.Run(R.Init(), steps).Some?
    ensures
      var store := R.Run(R.Init(), steps).value.store;
      id in store && store[id].deleted ==> exists p: nat :: R.Check(p, id, store[id].userID) in steps
  {
    AuthorCheckedSince(R.Init(), steps, id);
  }

  /** In every interleaving: a deleted post is never changed again. */
  lemma {:induction false} DeletedIsFrozen(s: R.State, steps: seq<R.Step>, id: Str)
    requires R.Run(s, steps).Some? && id in s.store && s.store[id].deleted
    ensures id in R.Run(s, steps).value.store && R.Run(s, steps).value.store[id] == s.store[id]
    decreases |steps|
  {
    if steps != [] { DeletedIsFrozen(R.Apply(s, steps[0]), steps[1..], id); }
  }

  // ----- the steps of a call -----

  lemma Run2(s: R.State, a: R.Step, b: R.Step)
    requires R.Enabled(s, a) && R.Enabled(R.Apply(s, a), b)
    ensures R.Run(s, [a, b]) == Some(R.Apply(R.Apply(s, a), b))
  {
    R.RunSnoc(s, [], a);
    assert [] + [a] == [a];
    R.RunSnoc(s, [a], b);
    assert [a] + [b] == [a, b];
  }

  lemma Run3(s: R.State, a: R.Step, b: R.Step, c: R.Step)
    requires R.Enabled(s, a) && R.Enabled(R.Apply(s, a), b) && R.Enabled(R.Apply(R.Apply(s, a), b), c)
    ensures R.Run(s, [a, b, c]) == Some(R.Apply(R.Apply(R.Apply(s, a), b), c))
  {
    Run2(s, a, b);
    R.RunSnoc(s, [a, b], c);
    assert [a, b] + [c] == [a, b, c];
  }

  function DeleteSteps(store: Store, p: nat, id: Str, user: Str): seq<R.Step>
    requires id in store
  {
    if store[id].parent.None? then [R.Check(p, id, user), R.Remove(p)]
    else [R.Check(p, id, user), R.Remove(p), R.CountDown(p)]
  }

  /** `DeleteCall` is the ledger's run of an undisturbed delete, and refuses when that cannot start. */
  lemma DeleteIsItsSteps(s: R.State, p: nat, id: Str, user: Str)
    requires p !in s.requests
    ensures
      var (after, err) := DeleteCall(s.store, id, user);
      && (err.None? <==> user != "" && R.Enabled(s, R.Check(p, id, user)))
      && (err.None? ==>
            && R.Run(s, DeleteSteps(s.store, p, id, user)).Some?
            && var s' := R.Run(s, DeleteSteps(s.store, p, id, user)).value;
            s'.store == after && s'.requests == s.requests && s'.repeats == s.repeats)
  {
    if DeleteCall(s.store, id, user).1.None? {
      var r := R.Checked(id, s.store[id].parent);
      if s.store[id].parent.None? {
        Run2(s, R.Check(p, id, user), R.Remove(p));
        assert s.requests[p := r] - {p} == s.requests;
      } else {
        Run3(s, R.Check(p, id, user), R.Remove(p), R.CountDown(p));
        assert s.requests[p := r][p := R.Removed(r.parent.value)] - {p} == s.requests;
      }
    }
  }

  function CreateSteps(p: nat, id: Str, user: Str, parent: Option<Str>): seq<R.Step> {
    if parent.None? then [R.Load(p, parent), R.Insert(p, id, user)]
    else [R.Load(p, parent), R.Insert(p, id, user), R.CountUp(p)]
  }

  /** `CreateCall`, when it succeeds, is the ledger's run of an undisturbed create. */
  lemma CreateIsItsSteps(s: R.State, p: nat, owners: map<Str, Str>, id: Str, user: Str, r: Request)
    requires p !in s.requests && id !in s.store && CreateCall(s.store, owners, id, user, r).1.None?
    ensures R.Run(s, CreateSteps(p, id, user, r.parent)) ==
      Some(s.(store := CreateCall(s.store, owners, id, user, r).0))
  {
    var s1 := R.Apply(s, R.Load(p, r.parent));
    if r.parent.None? {
      Run2(s, R.Load(p, r.parent), R.Insert(p, id, user));
      assert s1.requests - {p} == s.requests;
    } else {
      Run3(s, R.Load(p, r.parent), R.Insert(p, id, user), R.CountUp(p));
      assert s1.requests[p := R.Stored(r.parent.value)] - {p} == s.requests;
    }
  }

  /** In the thread machine, likes and deletes by other calls change what they say and no link. */
  lemma OtherStepsSeen(s: State, id: Str)
    requires Live(s.store, id)
    ensures Apply(s, LikeUp(id)).store[id].likes == s.store[id].likes + 1
    ensures s.store[id].likes > 0 ==> Apply(s, LikeDown(id)).store[id].likes == s.store[id].likes - 1
    ensures Get(Apply(s, SoftDelete(id)).store, id) == None
  {}

  // ----- roots after whole calls -----

  /** The steps of `Threads` a call takes. */
  function ThreadSteps(store: Store, call: Call): seq<Step> {
    match call
    case Create(owners, id, user, r) =>
      if CreateCall(store, owners, id, user, r).1.Some? then []
      else if r.parent.None? then [Load(0, r.parent), Insert(0, id, user)]
      else [Load(0, r.parent), Insert(0, id, user), CountUp(r.parent.value)]
    case Delete(id, user) =>
      if DeleteCall(store, id, user).1.Some? then []
      else if store[id].parent.None? then [SoftDelete(id)]
      else [SoftDelete(id), CountDown(store[id].parent.value)]
  }

  function AfterCall(store: Store, call: Call): Store {
    match call
    case Create(owners, id, user, r) => CreateCall(store, owners, id, user, r).0
    case Delete(id, user) => DeleteCall(store, id, user).0
  }

  lemma {:induction false} RunsConcat(s: State, a: seq<Step>, b: seq<Step>)
    requires Run(s, a).Some?
    ensures Run(s, a + b) == Run(Run(s, a).value, b)
    decreases |a|
  {
    if a == [] {
      assert a + b == b;
    } else {
      assert (a + b)[0] == a[0] && (a + b)[1..] == a[1..] + b;
      RunsConcat(Apply(s, a[0]), a[1..], b);
    }
  }

  lemma OneStep(s: State, a: Step)
    requires Enabled(s, a)
    ensures Run(s, [a]) == Some(Apply(s, a))
  {
    assert [a][1..] == [];
  }

  lemma DeleteIsThreadSteps(store: Store, id: Str, user: Str)
    ensures
      var s := State(store, map[]);
      Run(s, ThreadSteps(store, Delete(id, user))) == Some(s.(store := DeleteCall(store, id, user).0))
  {
    var s := State(store, map[]);
    if DeleteCall(store, id, user).1.None? {
      OneStep(s, SoftDelete(id));
      if store[id].parent.Some? {
        OneStep(Apply(s, SoftDelete(id)), CountDown(store[id].parent.value));
        RunsConcat(s, [SoftDelete(id)], [CountDown(store[id].parent.value)]);
        assert [SoftDelete(id)] + [CountDown(store[id].parent.value)] == ThreadSteps(store, Delete(id, user));
      }
    }
  }

  lemma InsertIsThreadSteps(store: Store, parent: Option<Str>, id: Str, user: Str)
    requires id !in store && (parent.Some? ==> Live(store, parent.value))
    ensures
      var s := State(store, map[]);
      Run(s, [Load(0, parent), Insert(0, id, user)]) == Some(s.(store := store[id := Created(store, id, user, parent)]))
  {
    var s := State(store, map[]);
    var s1 := Apply(s, Load(0, parent));
    OneStep(s, Load(0, parent));
    OneStep(s1, Insert(0, id, user));
    RunsConcat(s, [Load(0, parent)], [Insert(0, id, user)]);
    assert [Load(0, parent)] + [Insert(0, id, user)] == [Load(0, parent), Insert(0, id, user)];
    assert s1.drafts - {0} == s.drafts;
  }

  lemma CreateIsThreadSteps(store: Store, owners: map<Str, Str>, id: Str, user: Str, r: Request)
    requires id !in store
    ensures
      var s := State(store, map[]);
      Run(s, ThreadSteps(store, Create(owners, id, user, r))) == Some(s.(store := CreateCall(store, owners, id, user, r).0))
  {
    var s := State(store, map[]);
    if CreateCall(store, owners, id, user, r).1.None? {
      InsertIsThreadSteps(store, r.parent, id, user);
      if r.parent.Some? {
        var up := CountUp(r.parent.value);
        OneStep(s.(store := store[id := Created(store, id, user, r.parent)]), up);
        RunsConcat(s, [Load(0, r.parent), Insert(0, id, user)], [up]);
        assert [Load(0, r.parent), Insert(0, id, user)] + [up] == ThreadSteps(store, Create(owners, id, user, r));
      }
    }
  }

  function CallSteps(store: Store, calls: seq<Call>): seq<Step>
    decreases |calls|
  {
    if calls == [] then []
    else ThreadSteps(store, calls[0]) + CallSteps(AfterCall(store, calls[0]), calls[1..])
  }

  /** A run of whole calls is a run of their steps. */
  lemma {:induction false} CallsAreTheirSteps(store: Store, calls: seq<Call>)
    requires RunCalls(store, calls).Some?
    ensures Run(State(store, map[]), CallSteps(store, calls)) == Some(State(RunCalls(store, calls).value, map[]))
    decreases |calls|
  {
    if calls != [] {
      match calls[0] {
        case Create(owners, id, user, r) => CreateIsThreadSteps(store, owners, id, user, r);
        case Delete(id, user) => DeleteIsThreadSteps(store, id, user);
      }
      var after := AfterCall(store, calls[0]);
      RunsConcat(State(store, map[]), ThreadSteps(store, calls[0]), CallSteps(after, calls[1..]));
      CallsAreTheirSteps(after, calls[1..]);
    }
  }

  /** After any whole calls, every reply's parent chain ends at its root, a top-level post. */
  lemma RootsAfterCalls(calls: seq<Call>, id: Str)
    requires RunCalls(map[], calls).Some?
    requires id in RunCalls(map[], calls).value && RunCalls(map[], calls).value[id].parent.Some?
    ensures
      var store := RunCalls(map[], calls).value;
      && store[id].root.Some? && store[id].root.value in store
      && store[store[id].root.value].parent.None?
      && exists n: nat :: n >= 1 && ChainTo(store, id, store[id].root.value, n)
  {
    CallsAreTheirSteps(map[], calls);
    ThreadRoots(CallSteps(map[], calls), id);
  }
}
