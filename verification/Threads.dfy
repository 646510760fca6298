/**
 Reply threads: creating and deleting posts. Roots are proved for every
 interleaving of the separate steps of a create; reply counts for whole calls.
 */
module Threads {
  import opened Text
  import opened Posts
  import opened Wrappers

  datatype Error = Unauthorized | Invalid | Missing | Forbidden | Internal

  /** The thread root a reply inherits from its parent. */
  function RootFrom(parent: Post): Str {
    if parent.root.Some? then parent.root.value else parent.id
  }

  function NewPost(id: Str, user: Str, parent: Option<Str>, root: Option<Str>): Post {
    Post(id, user, parent, root, 0, 0, false)
  }

  /** A create request, and what its own validation, the tag extraction and the built post's validation say. */
  datatype Request = Request(
    parent: Option<Str>, images: seq<Str>, valid: bool, tagged: bool, wellFormed: bool)

  /** The first image that is missing or someone else's decides; `owners` maps images to users. */
  function ImageError(owners: map<Str, Str>, images: seq<Str>, user: Str): Option<Error> {
    if images == [] then None
    else if images[0] !in owners then Some(Missing)
    else if owners[images[0]] != user then Some(Forbidden)
    else ImageError(owners, images[1..], user)
  }

  /** A whole create call. */
  function CreateCall(store: Store, owners: map<Str, Str>, id: Str, user: Str, r: Request): (Store, Option<Error>) {
    if user == [] then (store, Some(Unauthorized))
    else if !r.valid then (store, Some(Invalid))
    else if r.parent.Some? && !Live(store, r.parent.value) then (store, Some(Missing))
    else if ImageError(owners, r.images, user).Some? then (store, ImageError(owners, r.images, user))
    else if !r.tagged then (store, Some(Internal))
    else if !r.wellFormed then (store, Some(Invalid))
    else if r.parent.None? then (store[id := NewPost(id, user, None, None)], None)
    else
      var post := NewPost(id, user, r.parent, Some(RootFrom(store[r.parent.value])));
      (RepliesUp(store[id := post], r.parent.value), None)
  }

  /** A whole delete call: only the author, then the parent's counter. */
  function DeleteCall(store: Store, id: Str, user: Str): (Store, Option<Error>) {
    if user == [] then (store, Some(Unauthorized))
    else if !Live(store, id) then (store, Some(Missing))
    else if store[id].userID != user then (store, Some(Forbidden))
    else if store[id].parent.None? then (Deleted(store, id), None)
    else (RepliesDown(Deleted(store, id), store[id].parent.value), None)
  }

  method CreatePost(repo: PostRepository, owners: map<Str, Str>, id: Str, user: Str, r: Request)
    returns (err: Option<Error>)
    modifies repo
    ensures (repo.posts, err) == CreateCall(old(repo.posts), owners, id, user, r)
  {
    if user == [] {
      return Some(Unauthorized);
    }
    if !r.valid {
      return Some(Invalid);
    }
    var root: Option<Str> := None;
    if r.parent.Some? {
      var p := repo.GetByID(r.parent.value);
      if p.None? {
        return Some(Missing);
      }
      if p.value.root.Some? {
        root := p.value.root;
      } else {
        root := Some(p.value.id);
      }
    }
    var i := 0;
    while i < |r.images|
      invariant 0 <= i <= |r.images|
      invariant ImageError(owners, r.images[i..], user) == ImageError(owners, r.images, user)
    {
      assert r.images[i..][1..] == r.images[i + 1..];
      if r.images[i] !in owners {
        return Some(Missing);
      }
      if owners[r.images[i]] != user {
        return Some(Forbidden);
      }
      i := i + 1;
    }
    if !r.tagged {
      return Some(Internal);
    }
    if !r.wellFormed {
      return Some(Invalid);
    }
    repo.Create(NewPost(id, user, r.parent, root));
    if r.parent.Some? {
      repo.IncrementRepliesCount(r.parent.value);
    }
    err := None;
  }

  method DeletePost(repo: PostRepository, id: Str, user: Str) returns (err: Option<Error>)
    modifies repo
    ensures (repo.posts, err) == DeleteCall(old(repo.posts), id, user)
  {
    if user == [] {
      return Some(Unauthorized);
    }
    var post := repo.GetByID(id);
    if post.None? {
      return Some(Missing);
    }
    if post.value.userID != user {
      return Some(Forbidden);
    }
    repo.Delete(id);
    if post.value.parent.Some? {
      repo.DecrementRepliesCount(post.value.parent.value);
    }
    err := None;
  }

  // ----- thread roots, every interleaving -----

  /** A create between loading its parent and storing its row. */
  datatype Draft = Draft(parent: Option<Str>, root: Option<Str>)

  datatype State = State(store: Store, drafts: map<nat, Draft>)

  datatype Step =
    | Load(p: nat, parent: Option<Str>)
    | Insert(p: nat, id: Str, user: Str)
    | CountUp(id: Str)
    | CountDown(id: Str)
    | LikeUp(id: Str)
    | LikeDown(id: Str)
    | SoftDelete(id: Str)

  predicate Enabled(s: State, step: Step) {
    match step
    case Load(p, parent) => p !in s.drafts && (parent.Some? ==> Live(s.store, parent.value))
    case Insert(p, id, _) => p in s.drafts && id !in s.store
    case _ => true
  }

  function Apply(s: State, step: Step): State
    requires Enabled(s, step)
  {
    match step
    case Load(p, parent) =>
      var root := if parent.Some? then Some(RootFrom(s.store[parent.value])) else None;
      s.(drafts := s.drafts[p := Draft(parent, root)])
    case Insert(p, id, user) =>
      var d := s.drafts[p];
      State(s.store[id := NewPost(id, user, d.parent, d.root)], s.drafts - {p})
    case CountUp(id) => s.(store := RepliesUp(s.store, id))
    case CountDown(id) => s.(store := RepliesDown(s.store, id))
    case LikeUp(id) => s.(store := LikesUp(s.store, id))
    case LikeDown(id) => s.(store := LikesDown(s.store, id))
    case SoftDelete(id) => s.(store := Deleted(s.store, id))
  }

  function Run(s: State, steps: seq<Step>): Option<State>
    decreases |steps|
  {
    if steps == [] then Some(s)
    else if Enabled(s, steps[0]) then Run(Apply(s, steps[0]), steps[1..])
    else None
  }

  /** Following parents from `id`, `n` steps lead to `root`, which has neither. */
  predicate ChainTo(store: Store, id: Str, root: Str, n: nat)
    decreases n
  {
    && id in store
    && if n == 0 then id == root && store[id].parent.None? && store[id].root.None?
       else store[id].parent.Some? && ChainTo(store, store[id].parent.value, root, n - 1)
  }

  /** A reply's chain ends at its RootPostID; a top-level post has no root. */
  ghost predicate Rooted(store: Store, id: Str)
    requires id in store
  {
    var p := store[id];
    && p.id == id
    && (p.parent.None? <==> p.root.None?)
    && (p.root.Some? ==> exists n: nat :: ChainTo(store, id, p.root.value, n))
  }

  ghost predicate DraftOk(store: Store, d: Draft) {
    && (d.parent.None? <==> d.root.None?)
    && (d.parent.Some? ==> exists n: nat :: ChainTo(store, d.parent.value, d.root.value, n))
  }

  ghost predicate AllRooted(s: State) {
    && (forall id :: id in s.store ==> Rooted(s.store, id))
    && (forall p :: p in s.drafts ==> DraftOk(s.store, s.drafts[p]))
  }

  /** `b` has every row of `a` with the same id, parent and root. */
  predicate SameLinks(a: Store, b: Store) {
    forall id :: id in a ==> id in b && b[id].id == a[id].id && b[id].parent == a[id].parent && b[id].root == a[id].root
  }

  lemma {:induction false} ChainSurvives(a: Store, b: Store, id: Str, root: Str, n: nat)
    requires SameLinks(a, b) && ChainTo(a, id, root, n)
    ensures ChainTo(b, id, root, n)
    decreases n
  {
    if n > 0 { ChainSurvives(a, b, a[id].parent.value, root, n - 1); }
  }

  lemma RootedSurvives(a: Store, b: Store, id: Str)
    requires SameLinks(a, b) && id in a && Rooted(a, id)
    ensures Rooted(b, id)
  {
    if a[id].root.Some? {
      var n: nat :| ChainTo(a, id, a[id].root.value, n);
      ChainSurvives(a, b, id, a[id].root.value, n);
    }
  }

  lemma DraftSurvives(a: Store, b: Store, d: Draft)
    requires SameLinks(a, b) && DraftOk(a, d)
    ensures DraftOk(b, d)
  {
    if d.parent.Some? {
      var n: nat :| ChainTo(a, d.parent.value, d.root.value, n);
      ChainSurvives(a, b, d.parent.value, d.root.value, n);
    }
  }

  lemma LoadIsOk(store: Store, parent: Str)
    requires parent in store && Rooted(store, parent)
    ensures DraftOk(store, Draft(Some(parent), Some(RootFrom(store[parent]))))
  {
    if store[parent].root.None? { assert ChainTo(store, parent, parent, 0); }
  }

  lemma InsertIsRooted(store: Store, d: Draft, id: Str, user: Str)
    requires DraftOk(store, d) && id !in store
    ensures Rooted(store[id := NewPost(id, user, d.parent, d.root)], id)
  {
    var after := store[id := NewPost(id, user, d.parent, d.root)];
    if d.parent.Some? {
      var n: nat :| ChainTo(store, d.parent.value, d.root.value, n);
      ChainSurvives(store, after, d.parent.value, d.root.value, n);
      assert ChainTo(after, id, d.root.value, n + 1);
    }
  }

  lemma StepKeepsRoots(s: State, step: Step)
    requires AllRooted(s) && Enabled(s, step)
    ensures AllRooted(Apply(s, step))
  {
    var s' := Apply(s, step);
    assert SameLinks(s.store, s'.store);
    if step.Load? && step.parent.Some? { LoadIsOk(s.store, step.parent.value); }
    if step.Insert? { InsertIsRooted(s.store, s.drafts[step.p], step.id, step.user); }
    forall id | id in s'.store ensures Rooted(s'.store, id) {
      if id in s.store { RootedSurvives(s.store, s'.store, id); }
    }
    forall p | p in s'.drafts ensures DraftOk(s'.store, s'.drafts[p]) {
      if p in s.drafts { DraftSurvives(s.store, s'.store, s.drafts[p]); }
    }
  }

  lemma {:induction false} RunKeepsRoots(s: State, steps: seq<Step>)
    requires AllRooted(s) && Run(s, steps).Some?
    ensures AllRooted(Run(s, steps).value)
    decreases |steps|
  {
    if steps != [] {
      StepKeepsRoots(s, steps[0]);
      RunKeepsRoots(Apply(s, steps[0]), steps[1..]);
    }
  }

  /**
   In every interleaving, every reply's parent chain is finite and ends at its
   RootPostID, whose own parent and root are nil.
   */
  lemma ThreadRoots(steps: seq<Step>, id: Str)
    requires Run(State(map[], map[]), steps).Some?
    requires id in Run(State(map[], map[]), steps).value.store
    requires Run(State(map[], map[]), steps).value.store[id].parent.Some?
    ensures
      var store := Run(State(map[], map[]), steps).value.store;
      && store[id].root.Some?
      && (exists n: nat :: n >= 1 && ChainTo(store, id, store[id].root.value, n))
      && store[id].root.value in store
      && store[store[id].root.value].parent.None? && store[store[id].root.value].root.None?
  {
    RunKeepsRoots(State(map[], map[]), steps);
    var store := Run(State(map[], map[]), steps).value.store;
    assert Rooted(store, id);
    var n: nat :| ChainTo(store, id, store[id].root.value, n);
    ChainEnd(store, id, store[id].root.value, n);
  }

  lemma {:induction false} ChainEnd(store: Store, id: Str, root: Str, n: nat)
    requires ChainTo(store, id, root, n)
    ensures root in store && store[root].parent.None? && store[root].root.None?
    decreases n
  {
    if n > 0 { ChainEnd(store, store[id].parent.value, root, n - 1); }
  }

  // ----- reply counts, whole calls -----

  function LiveReplies(store: Store, x: Str): set<Str> {
    set id | id in store && !store[id].deleted && store[id].parent == Some(x)
  }

  predicate ParentStored(store: Store, id: Str)
    requires id in store
  {
    store[id].parent.Some? ==> store[id].parent.value in store && store[id].parent.value != id
  }

  predicate RepliesCounted(store: Store, x: Str)
    requires x in store
  {
    store[x].replies == |LiveReplies(store, x)|
  }

  ghost predicate RepliesExact(store: Store) {
    && (forall id :: id in store ==> ParentStored(store, id))
    && (forall x :: Live(store, x) ==> RepliesCounted(store, x))
  }

  /** Counter updates move no reply. */
  lemma CounterKeepsReplies(store: Store, y: Str, x: Str)
    ensures LiveReplies(RepliesUp(store, y), x) == LiveReplies(store, x)
    ensures LiveReplies(RepliesDown(store, y), x) == LiveReplies(store, x)
  {}

  lemma InsertReplies(store: Store, post: Post, x: Str)
    requires post.id !in store && !post.deleted
    ensures LiveReplies(store[post.id := post], x)
         == if post.parent == Some(x) then LiveReplies(store, x) + {post.id} else LiveReplies(store, x)
  {}

  lemma DeleteReplies(store: Store, id: Str, x: Str)
    requires Live(store, id)
    ensures LiveReplies(Deleted(store, id), x) == LiveReplies(store, x) - {id}
    ensures id in LiveReplies(store, x) <==> store[id].parent == Some(x)
  {}

  /** The rows a whole call may rewrite keep their links. */
  lemma CallsKeepParents(store: Store, after: Store, id: Str)
    requires forall y :: y in store ==> ParentStored(store, y)
    requires SameLinks(store, after) && after.Keys == store.Keys + {id}
    requires id in store || ParentStored(after, id)
    ensures forall y :: y in after ==> ParentStored(after, y)
  {
    forall y | y in after ensures ParentStored(after, y) {
      if y in store { assert ParentStored(store, y); }
    }
  }

  lemma NoRepliesYet(store: Store, id: Str)
    requires RepliesExact(store) && id !in store
    ensures LiveReplies(store, id) == {}
  {
    forall y | y in store ensures store[y].parent != Some(id) { assert ParentStored(store, y); }
  }

  /** Storing a reply and bumping its parent keeps the count of every live post. */
  lemma ReplyCounted(store: Store, post: Post, x: Str)
    requires RepliesExact(store) && post.id !in store && !post.deleted && post.replies == 0
    requires post.parent.Some? && Live(store, post.parent.value)
    requires Live(store, x) || x == post.id
    ensures RepliesCounted(RepliesUp(store[post.id := post], post.parent.value), x)
  {
    var mid := store[post.id := post];
    InsertReplies(store, post, x);
    CounterKeepsReplies(mid, post.parent.value, x);
    if x == post.id { NoRepliesYet(store, x); } else { assert RepliesCounted(store, x); }
  }

  lemma TopLevelCounted(store: Store, post: Post, x: Str)
    requires RepliesExact(store) && post.id !in store && !post.deleted && post.replies == 0
    requires post.parent.None?
    requires Live(store, x) || x == post.id
    ensures RepliesCounted(store[post.id := post], x)
  {
    InsertReplies(store, post, x);
    if x == post.id { NoRepliesYet(store, x); } else { assert RepliesCounted(store, x); }
  }

  lemma CreateKeepsCounts(store: Store, owners: map<Str, Str>, id: Str, user: Str, r: Request)
    requires RepliesExact(store) && id !in store
    ensures RepliesExact(CreateCall(store, owners, id, user, r).0)
  {
    var after := CreateCall(store, owners, id, user, r).0;
    if CreateCall(store, owners, id, user, r).1.None? {
      var root := if r.parent.Some? then Some(RootFrom(store[r.parent.value])) else None;
      var post := NewPost(id, user, r.parent, root);
      CallsKeepParents(store, after, id);
      forall x | Live(after, x) ensures RepliesCounted(after, x) {
        assert Live(store, x) || x == id;
        if r.parent.Some? { ReplyCounted(store, post, x); } else { TopLevelCounted(store, post, x); }
      }
    }
  }

  lemma DeletionCounted(store: Store, id: Str, x: Str)
    requires RepliesExact(store) && Live(store, id) && Live(store, x) && x != id
    ensures
      var parent := store[id].parent;
      RepliesCounted(if parent.Some? then RepliesDown(Deleted(store, id), parent.value) else Deleted(store, id), x)
  {
    assert RepliesCounted(store, x);
    DeleteReplies(store, id, x);
    if store[id].parent.Some? { CounterKeepsReplies(Deleted(store, id), store[id].parent.value, x); }
  }

  lemma DeleteKeepsCounts(store: Store, id: Str, user: Str)
    requires RepliesExact(store)
    ensures RepliesExact(DeleteCall(store, id, user).0)
  {
    var after := DeleteCall(store, id, user).0;
    if DeleteCall(store, id, user).1.None? {
      CallsKeepParents(store, after, id);
      forall x | Live(after, x) ensures RepliesCounted(after, x) {
        DeletionCounted(store, id, x);
      }
    }
  }

  datatype Call = Create(owners: map<Str, Str>, id: Str, user: Str, request: Request) | Delete(id: Str, user: Str)

  /** Whole calls one after another; created ids are fresh. */
  function RunCalls(store: Store, calls: seq<Call>): Option<Store>
    decreases |calls|
  {
    if calls == [] then Some(store)
    else
      match calls[0]
      case Create(owners, id, user, r) =>
        if id in store then None else RunCalls(CreateCall(store, owners, id, user, r).0, calls[1..])
      case Delete(id, user) => RunCalls(DeleteCall(store, id, user).0, calls[1..])
  }

  lemma {:induction false} RunKeepsCounts(store: Store, calls: seq<Call>)
    requires RepliesExact(store) && RunCalls(store, calls).Some?
    ensures RepliesExact(RunCalls(store, calls).value)
    decreases |calls|
  {
    if calls != [] {
      match calls[0]
      case Create(owners, id, user, r) =>
        CreateKeepsCounts(store, owners, id, user, r);
        RunKeepsCounts(CreateCall(store, owners, id, user, r).0, calls[1..]);
      case Delete(id, user) =>
        DeleteKeepsCounts(store, id, user);
        RunKeepsCounts(DeleteCall(store, id, user).0, calls[1..]);
    }
  }

  /** After any whole calls, a live post's replies_count is its number of live direct replies. */
  lemma ReplyCounts(calls: seq<Call>, x: Str)
    requires RunCalls(map[], calls).Some? && Live(RunCalls(map[], calls).value, x)
    ensures
      var store := RunCalls(map[], calls).value;
      store[x].replies == |LiveReplies(store, x)|
  {
    RunKeepsCounts(map[], calls);
    assert RepliesCounted(RunCalls(map[], calls).value, x);
  }
}
