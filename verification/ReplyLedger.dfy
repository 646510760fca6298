/**
 Creates and deletes as separate repository steps of concurrent requests. History:
 decrements of a parent that found its counter at zero (`floors`), and deletes of a
 reply that another request had deleted already (`repeats`).
 */
module ReplyLedger {
  import opened Text
  import opened Posts
  import opened Wrappers
  import Threads
  import Sums

  datatype Request =
    | Loaded(parent: Option<Str>, root: Option<Str>)  // create: the parent was seen live
    | Stored(to: Str)                                 // reply stored, increment pending
    | Checked(id: Str, parent: Option<Str>)           // delete: the post was seen live
    | Removed(to: Str)                                // reply soft-deleted, decrement pending

  datatype State = State(
    store: Store, requests: map<nat, Request>, floors: map<Str, nat>, repeats: map<Str, nat>)

  datatype Step =
    | Load(p: nat, parent: Option<Str>)
    | Abandon(p: nat)
    | Insert(p: nat, id: Str, user: Str)
    | CountUp(p: nat)
    | Check(p: nat, id: Str, user: Str)
    | Remove(p: nat)
    | CountDown(p: nat)

  predicate Enabled(s: State, step: Step) {
    match step
    case Load(p, parent) => p !in s.requests && (parent.Some? ==> Live(s.store, parent.value))
    case Abandon(p) => p in s.requests && s.requests[p].Loaded?
    case Insert(p, id, _) => p in s.requests && s.requests[p].Loaded? && id !in s.store
    case CountUp(p) => p in s.requests && s.requests[p].Stored?
    case Check(p, id, user) => p !in s.requests && Live(s.store, id) && s.store[id].userID == user
    case Remove(p) => p in s.requests && s.requests[p].Checked?
    case CountDown(p) => p in s.requests && s.requests[p].Removed?
  }

  function CountOf(m: map<Str, nat>, x: Str): nat {
    if x in m then m[x] else 0
  }

  function Bumped(m: map<Str, nat>, x: Str): map<Str, nat> {
    m[x := CountOf(m, x) + 1]
  }

  function Apply(s: State, step: Step): State
    requires Enabled(s, step)
  {
    match step
    case Load(p, parent) =>
      var root := if parent.Some? then Some(Threads.RootFrom(s.store[parent.value])) else None;
      s.(requests := s.requests[p := Loaded(parent, root)])
    case Abandon(p) => s.(requests := s.requests - {p})
    case Insert(p, id, user) =>
      var r := s.requests[p];
      s.(store := s.store[id := Threads.NewPost(id, user, r.parent, r.root)],
         requests := if r.parent.Some? then s.requests[p := Stored(r.parent.value)] else s.requests - {p})
    case CountUp(p) =>
      s.(store := RepliesUp(s.store, s.requests[p].to), requests := s.requests - {p})
    case Check(p, id, _) => s.(requests := s.requests[p := Checked(id, s.store[id].parent)])
    case Remove(p) =>
      var r := s.requests[p];
      s.(store := Deleted(s.store, r.id),
         requests := if r.parent.Some? then s.requests[p := Removed(r.parent.value)] else s.requests - {p},
         repeats := if r.parent.Some? && !Live(s.store, r.id) then Bumped(s.repeats, r.parent.value) else s.repeats)
    case CountDown(p) =>
      var x := s.requests[p].to;
      s.(store := RepliesDown(s.store, x),
         requests := s.requests - {p},
         floors := if Live(s.store, x) && s.store[x].replies == 0 then Bumped(s.floors, x) else s.floors)
  }

  function Init(): State {
    State(map[], map[], map[], map[])
  }

  function Run(s: State, steps: seq<Step>): Option<State>
    decreases |steps|
  {
    if steps == [] then Some(s)
    else if Enabled(s, steps[0]) then Run(Apply(s, steps[0]), steps[1..])
    else None
  }

  // ----- the ledger -----

  /** A pending increment of `x`. */
  function Ups(x: Str): Request -> nat {
    (r: Request) => if r == Stored(x) then 1 else 0
  }

  /** A pending decrement of `x`. */
  function Downs(x: Str): Request -> nat {
    (r: Request) => if r == Removed(x) then 1 else 0
  }

  ghost function PendingUps(s: State, x: Str): nat {
    Sums.Total(s.requests, Ups(x))
  }

  ghost function PendingDowns(s: State, x: Str): nat {
    Sums.Total(s.requests, Downs(x))
  }

  ghost predicate Balanced(s: State, x: Str)
    requires x in s.store
  {
    s.store[x].replies + PendingUps(s, x) + CountOf(s.repeats, x)
    == |Threads.LiveReplies(s.store, x)| + PendingDowns(s, x) + CountOf(s.floors, x)
  }

  predicate ParentIn(store: Store, parent: Option<Str>) {
    parent.Some? ==> parent.value in store
  }

  predicate RequestOk(store: Store, r: Request) {
    match r
    case Loaded(parent, _) => ParentIn(store, parent)
    case Stored(to) => to in store
    case Checked(id, parent) => id in store && store[id].parent == parent && ParentIn(store, parent)
    case Removed(to) => to in store
  }

  /** Everything mentioned is stored. */
  ghost predicate Closed(s: State) {
    && (forall id :: id in s.store ==> ParentIn(s.store, s.store[id].parent))
    && (forall p :: p in s.requests ==> RequestOk(s.store, s.requests[p]))
    && s.floors.Keys <= s.store.Keys && s.repeats.Keys <= s.store.Keys
  }

  ghost predicate Inv(s: State) {
    Closed(s) && forall x :: Live(s.store, x) ==> Balanced(s, x)
  }

  lemma StepKeepsClosed(s: State, step: Step)
    requires Closed(s) && Enabled(s, step)
    ensures Closed(Apply(s, step))
  {
    var s' := Apply(s, step);
    forall p | p in s'.requests ensures RequestOk(s'.store, s'.requests[p]) {
      if p in s.requests { assert RequestOk(s.store, s.requests[p]); }
    }
    forall id | id in s'.store ensures ParentIn(s'.store, s'.store[id].parent) {
      if step.Insert? && id == step.id { assert RequestOk(s.store, s.requests[step.p]); }
    }
  }

  /** A request appears, changes or goes; only its own weight moves. */
  lemma RequestMoves(requests: map<nat, Request>, p: nat, r: Request, x: Str)
    requires p in requests
    ensures Sums.Total(requests[p := r], Ups(x)) + Ups(x)(requests[p]) == Sums.Total(requests, Ups(x)) + Ups(x)(r)
    ensures Sums.Total(requests[p := r], Downs(x)) + Downs(x)(requests[p]) == Sums.Total(requests, Downs(x)) + Downs(x)(r)
  {
    Sums.TotalUpdate(requests, Ups(x), p, r);
    Sums.TotalUpdate(requests, Downs(x), p, r);
  }

  lemma RequestComes(requests: map<nat, Request>, p: nat, r: Request, x: Str)
    requires p !in requests
    ensures Sums.Total(requests[p := r], Ups(x)) == Sums.Total(requests, Ups(x)) + Ups(x)(r)
    ensures Sums.Total(requests[p := r], Downs(x)) == Sums.Total(requests, Downs(x)) + Downs(x)(r)
  {
    Sums.TotalInsert(requests, Ups(x), p, r);
    Sums.TotalInsert(requests, Downs(x), p, r);
  }

  lemma RequestGoes(requests: map<nat, Request>, p: nat, x: Str)
    requires p in requests
    ensures Sums.Total(requests - {p}, Ups(x)) + Ups(x)(requests[p]) == Sums.Total(requests, Ups(x))
    ensures Sums.Total(requests - {p}, Downs(x)) + Downs(x)(requests[p]) == Sums.Total(requests, Downs(x))
  {
    Sums.TotalWithout(requests, Ups(x), p);
    Sums.TotalWithout(requests, Downs(x), p);
  }

  /** A new post has no replies and nothing pending. */
  lemma NewPostBalances(s: State, step: Step)
    requires Inv(s) && Enabled(s, step) && step.Insert?
    ensures Balanced(Apply(s, step), step.id)
  {
    var s', x := Apply(s, step), step.id;
    StepKeepsClosed(s, step);
    assert RequestOk(s.store, s.requests[step.p]);
    forall p | p in s'.requests ensures Ups(x)(s'.requests[p]) == 0 && Downs(x)(s'.requests[p]) == 0 {
      if p in s.requests { assert RequestOk(s.store, s.requests[p]); }
    }
    Sums.TotalZero(s'.requests, Ups(x));
    Sums.TotalZero(s'.requests, Downs(x));
    forall y | y in s'.store ensures s'.store[y].parent != Some(x) {
      if y in s.store { assert ParentIn(s.store, s.store[y].parent); }
    }
    assert Threads.LiveReplies(s'.store, x) == {};
  }

  lemma InsertBalances(s: State, step: Step, x: Str)
    requires Inv(s) && Enabled(s, step) && step.Insert? && Live(s.store, x)
    ensures Balanced(Apply(s, step), x)
  {
    var r := s.requests[step.p];
    Threads.InsertReplies(s.store, Threads.NewPost(step.id, step.user, r.parent, r.root), x);
    assert Balanced(s, x);
    if r.parent.Some? {
      RequestMoves(s.requests, step.p, Stored(r.parent.value), x);
    } else {
      RequestGoes(s.requests, step.p, x);
    }
  }

  lemma CountUpBalances(s: State, p: nat, x: Str)
    requires Inv(s) && Enabled(s, CountUp(p)) && Live(s.store, x)
    ensures Balanced(Apply(s, CountUp(p)), x)
  {
    assert Balanced(s, x);
    Threads.CounterKeepsReplies(s.store, s.requests[p].to, x);
    RequestGoes(s.requests, p, x);
  }

  lemma CountDownBalances(s: State, p: nat, x: Str)
    requires Inv(s) && Enabled(s, CountDown(p)) && Live(s.store, x)
    ensures Balanced(Apply(s, CountDown(p)), x)
  {
    assert Balanced(s, x);
    Threads.CounterKeepsReplies(s.store, s.requests[p].to, x);
    RequestGoes(s.requests, p, x);
  }

  /** The first delete of a reply takes it from the live ones; a repeat takes nothing. */
  lemma RemovedReplies(store: Store, id: Str, x: Str)
    requires id in store
    ensures |Threads.LiveReplies(Deleted(store, id), x)| ==
      |Threads.LiveReplies(store, x)| - (if Live(store, id) && store[id].parent == Some(x) then 1 else 0)
  {
    if Live(store, id) {
      Threads.DeleteReplies(store, id, x);
    } else {
      assert Threads.LiveReplies(Deleted(store, id), x) == Threads.LiveReplies(store, x);
    }
  }

  lemma RemoveBalances(s: State, p: nat, x: Str)
    requires Inv(s) && Enabled(s, Remove(p)) && Live(s.store, x) && x != s.requests[p].id
    ensures Balanced(Apply(s, Remove(p)), x)
  {
    var r := s.requests[p];
    assert RequestOk(s.store, r) && Balanced(s, x);
    RemovedReplies(s.store, r.id, x);
    if r.parent.Some? {
      RequestMoves(s.requests, p, Removed(r.parent.value), x);
    } else {
      RequestGoes(s.requests, p, x);
    }
  }

  lemma QuietBalances(s: State, step: Step, x: Str)
    requires Inv(s) && Enabled(s, step) && (step.Load? || step.Abandon? || step.Check?) && Live(s.store, x)
    ensures Balanced(Apply(s, step), x)
  {
    assert Balanced(s, x);
    match step
    case Load(p, _) => RequestComes(s.requests, p, Apply(s, step).requests[p], x);
    case Check(p, _, _) => RequestComes(s.requests, p, Apply(s, step).requests[p], x);
    case Abandon(p) => RequestGoes(s.requests, p, x);
  }

  lemma StepBalances(s: State, step: Step, x: Str)
    requires Inv(s) && Enabled(s, step) && Live(Apply(s, step).store, x)
    ensures Balanced(Apply(s, step), x)
  {
    match step
    case Insert(_, id, _) => if x == id { NewPostBalances(s, step); } else { InsertBalances(s, step, x); }
    case CountUp(p) => CountUpBalances(s, p, x);
    case CountDown(p) => CountDownBalances(s, p, x);
    case Remove(p) => RemoveBalances(s, p, x);
    case _ => QuietBalances(s, step, x);
  }

  lemma StepKeeps(s: State, step: Step)
    requires Inv(s) && Enabled(s, step)
    ensures Inv(Apply(s, step))
  {
    StepKeepsClosed(s, step);
    forall x | Live(Apply(s, step).store, x) ensures Balanced(Apply(s, step), x) { StepBalances(s, step, x); }
  }

  lemma {:induction false} RunKeeps(s: State, steps: seq<Step>)
    requires Inv(s) && Run(s, steps).Some?
    ensures Inv(Run(s, steps).value)
    decreases |steps|
  {
    if steps != [] {
      StepKeeps(s, steps[0]);
      RunKeeps(Apply(s, steps[0]), steps[1..]);
    }
  }

  // ----- main results -----

  /** The ledger of every live post, in every interleaving of creates and deletes. */
  lemma LedgerBalances(steps: seq<Step>, x: Str)
    requires Run(Init(), steps).Some? && Live(Run(Init(), steps).value.store, x)
    ensures
      var s := Run(Init(), steps).value;
      s.store[x].replies + PendingUps(s, x) + CountOf(s.repeats, x)
      == |Threads.LiveReplies(s.store, x)| + PendingDowns(s, x) + CountOf(s.floors, x)
  {
    RunKeeps(Init(), steps);
    assert Balanced(Run(Init(), steps).value, x);
  }

  /** At rest the counter is right exactly when as many decrements were floored as deletes repeated. */
  lemma AtRestExact(steps: seq<Step>, x: Str)
    requires Run(Init(), steps).Some? && Live(Run(Init(), steps).value.store, x)
    requires Run(Init(), steps).value.requests == map[]
    ensures
      var s := Run(Init(), steps).value;
      s.store[x].replies == |Threads.LiveReplies(s.store, x)| <==> CountOf(s.floors, x) == CountOf(s.repeats, x)
  {
    LedgerBalances(steps, x);
  }

  lemma {:induction false} RunSnoc(s: State, steps: seq<Step>, last: Step)
    requires Run(s, steps).Some? && Enabled(Run(s, steps).value, last)
    ensures Run(s, steps + [last]) == Some(Apply(Run(s, steps).value, last))
    decreases |steps|
  {
    if steps == [] {
      assert [] + [last] == [last] && [last][1..] == [];
    } else {
      assert (steps + [last])[0] == steps[0] && (steps + [last])[1..] == steps[1..] + [last];
      RunSnoc(Apply(s, steps[0]), steps[1..], last);
    }
  }

  /** One undisturbed create of a reply to `x`. */
  lemma ReplyTo(before: seq<Step>, x: Str, id: Str, user: Str) returns (steps: seq<Step>)
    requires Run(Init(), before).Some? && Run(Init(), before).value.requests == map[]
    requires Live(Run(Init(), before).value.store, x) && id !in Run(Init(), before).value.store
    ensures Run(Init(), steps).Some?
    ensures
      var s, s' := Run(Init(), before).value, Run(Init(), steps).value;
      && s' == s.(store := s'.store) && s'.store.Keys == s.store.Keys + {id}
      && s'.store[x] == s.store[x].(replies := s.store[x].replies + 1)
      && Live(s'.store, id) && s'.store[id].parent == Some(x) && s'.store[id].userID == user
      && (forall y :: y in s.store && y != x ==> s'.store[y] == s.store[y])
  {
    RunSnoc(Init(), before, Load(0, Some(x)));
    steps := before + [Load(0, Some(x))];
    RunSnoc(Init(), steps, Insert(0, id, user));
    steps := steps + [Insert(0, id, user)];
    RunSnoc(Init(), steps, CountUp(0));
    steps := steps + [CountUp(0)];
    assert Run(Init(), steps).value.requests == map[];
  }

  /** A post `x` with two live replies counted. */
  lemma TwoReplies(x: Str, a: Str, b: Str, user: Str) returns (steps: seq<Step>)
    requires x != a && x != b && a != b
    ensures Run(Init(), steps).Some?
    ensures
      var s := Run(Init(), steps).value;
      && s.requests == map[] && s.floors == map[] && s.repeats == map[] && s.store.Keys == {x, a, b}
      && Live(s.store, x) && s.store[x].replies == 2 && s.store[x].parent.None?
      && Live(s.store, a) && s.store[a].parent == Some(x) && s.store[a].userID == user
      && Live(s.store, b) && s.store[b].parent == Some(x)
  {
    RunSnoc(Init(), [], Load(0, None));
    steps := [] + [Load(0, None)];
    RunSnoc(Init(), steps, Insert(0, x, user));
    steps := steps + [Insert(0, x, user)];
    assert Run(Init(), steps).value.requests == map[];
    steps := ReplyTo(steps, x, a, user);
    steps := ReplyTo(steps, x, b, user);
  }

  /** Two overlapping deletes of one reply: both decrement, and the counter falls below the live replies. */
  lemma RepeatedDeleteDrifts(x: Str, a: Str, b: Str, user: Str) returns (steps: seq<Step>)
    requires x != a && x != b && a != b
    ensures Run(Init(), steps).Some?
    ensures
      var s := Run(Init(), steps).value;
      && s.requests == map[] && Live(s.store, x)
      && s.store[x].replies == 0 && Threads.LiveReplies(s.store, x) == {b}
      && CountOf(s.floors, x) == 0 && CountOf(s.repeats, x) == 1
  {
    steps := TwoReplies(x, a, b, user);
    RunSnoc(Init(), steps, Check(1, a, user));
    steps := steps + [Check(1, a, user)];
    RunSnoc(Init(), steps, Check(2, a, user));
    steps := steps + [Check(2, a, user)];
    RunSnoc(Init(), steps, Remove(1));
    steps := steps + [Remove(1)];
    RunSnoc(Init(), steps, Remove(2));
    steps := steps + [Remove(2)];
    RunSnoc(Init(), steps, CountDown(1));
    steps := steps + [CountDown(1)];
    RunSnoc(Init(), steps, CountDown(2));
    steps := steps + [CountDown(2)];
    assert Run(Init(), steps).value.requests == map[];
  }
}
