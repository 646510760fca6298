/**
 Follows and unfollows as separate repository steps of concurrent requests, with
 refreshes that write stale copies back. History per counter: decrements that found
 it at zero or its row missing (`floors`), and increments of a missing row (`missed`).
 */
module FollowLedger {
  import opened Text
  import opened Users
  import opened FollowCounters
  import opened Wrappers
  import Sums

  datatype Side = Followers | Following

  /** One of the two counters of a user. */
  datatype Counter = Counter(side: Side, sub: Str)

  datatype Request =
    | Checked(follower: Str, followee: Str)    // follow: the target was seen live
    | Inserted(follower: Str, followee: Str)   // edge stored, both increments pending
    | HalfUp(follower: Str, followee: Str)     // following bumped, followers pending
    | Removed(follower: Str, followee: Str)    // edge deleted, both decrements pending
    | HalfDown(follower: Str, followee: Str)

  datatype Machine = Machine(
    users: Table, edges: EdgeSet, copies: map<nat, Copy>, requests: map<nat, Request>,
    floors: map<Counter, nat>, missed: map<Counter, nat>)

  datatype Move =
    | FollowCheck(p: nat, follower: Str, followee: Str)
    | FollowInsert(p: nat)
    | Bump(p: nat)
    | UnfollowDelete(p: nat, follower: Str, followee: Str)
    | Drop(p: nat)
    | Fetch(p: nat, sub: Str, now: int)
    | Refresh(p: nat, answer: Answer, now: int)
    | Edit(sub: Str, bio: Option<Str>, bannerURL: Option<Str>, now: int)

  predicate Possible(m: Machine, step: Move) {
    match step
    case FollowCheck(p, follower, followee) =>
      && p !in m.requests && follower != [] && followee != [] && follower != followee
      && followee in m.users && m.users[followee].deletedAt.None?
    case FollowInsert(p) => p in m.requests && m.requests[p].Checked?
    case Bump(p) => p in m.requests && (m.requests[p].Inserted? || m.requests[p].HalfUp?)
    case UnfollowDelete(p, follower, followee) =>
      p !in m.requests && follower != [] && followee != [] && follower != followee
    case Drop(p) => p in m.requests && (m.requests[p].Removed? || m.requests[p].HalfDown?)
    case Fetch(p, sub, _) => p !in m.copies && sub != []
    case Refresh(p, _, _) => p in m.copies
    case Edit(_, _, _, _) => true
  }

  // ----- counters -----

  function CountOf(users: Table, k: Counter): nat {
    if k.sub !in users then 0
    else
      match k.side
      case Followers => users[k.sub].followers
      case Following => users[k.sub].following
  }

  function Raised(users: Table, k: Counter): Table {
    match k.side
    case Followers => FollowersUp(users, k.sub)
    case Following => FollowingUp(users, k.sub)
  }

  function Lowered(users: Table, k: Counter): Table {
    match k.side
    case Followers => FollowersDown(users, k.sub)
    case Following => FollowingDown(users, k.sub)
  }

  function EdgesOf(edges: EdgeSet, k: Counter): EdgeSet {
    match k.side
    case Followers => FollowersOf(edges, k.sub)
    case Following => FollowingOf(edges, k.sub)
  }

  function Tally(m: map<Counter, nat>, k: Counter): nat {
    if k in m then m[k] else 0
  }

  function Tallied(m: map<Counter, nat>, k: Counter): map<Counter, nat> {
    m[k := Tally(m, k) + 1]
  }

  /** The counter a request changes next: the follower's first, then the followee's. */
  function Next(r: Request): Counter {
    if r.Inserted? || r.Removed? then Counter(Following, r.follower) else Counter(Followers, r.followee)
  }

  function Advanced(requests: map<nat, Request>, p: nat): map<nat, Request>
    requires p in requests
  {
    match requests[p]
    case Inserted(follower, followee) => requests[p := HalfUp(follower, followee)]
    case Removed(follower, followee) => requests[p := HalfDown(follower, followee)]
    case _ => requests - {p}
  }

  function Result(m: Machine, step: Move): Machine
    requires Possible(m, step)
  {
    match step
    case FollowCheck(p, follower, followee) => m.(requests := m.requests[p := Checked(follower, followee)])
    case FollowInsert(p) =>
      var r := m.requests[p];
      if (r.follower, r.followee) in m.edges then m.(requests := m.requests - {p})
      else
        m.(edges := m.edges + {(r.follower, r.followee)},
           requests := m.requests[p := Inserted(r.follower, r.followee)])
    case Bump(p) =>
      var k := Next(m.requests[p]);
      m.(users := Raised(m.users, k),
         requests := Advanced(m.requests, p),
         missed := if k.sub in m.users then m.missed else Tallied(m.missed, k))
    case UnfollowDelete(p, follower, followee) =>
      if (follower, followee) in m.edges
      then m.(edges := m.edges - {(follower, followee)}, requests := m.requests[p := Removed(follower, followee)])
      else m
    case Drop(p) =>
      var k := Next(m.requests[p]);
      m.(users := Lowered(m.users, k),
         requests := Advanced(m.requests, p),
         floors := if CountOf(m.users, k) == 0 then Tallied(m.floors, k) else m.floors)
    case Fetch(p, sub, now) =>
      m.(copies := m.copies[p := if sub in m.users then Copy(m.users[sub], false) else Copy(Blank(sub, now), true)])
    case Refresh(p, answer, now) =>
      var m' := m.(copies := m.copies - {p});
      if Writes(m.copies[p], answer)
      then m'.(users := Upserted(m.users, Refreshed(m.copies[p].user, answer, now), now))
      else m'
    case Edit(sub, bio, bannerURL, now) =>
      if sub in m.users then m.(users := m.users[sub := Edited(m.users[sub], bio, bannerURL, now)]) else m
  }

  function Start(): Machine {
    Machine(map[], {}, map[], map[], map[], map[])
  }

  function Reach(m: Machine, steps: seq<Move>): Option<Machine>
    decreases |steps|
  {
    if steps == [] then Some(m)
    else if Possible(m, steps[0]) then Reach(Result(m, steps[0]), steps[1..])
    else None
  }

  // ----- the ledger -----

  /** A pending increment of the counter. */
  function Ups(k: Counter): Request -> nat {
    (r: Request) =>
      match k.side
      case Following => if r.Inserted? && r.follower == k.sub then 1 else 0
      case Followers => if (r.Inserted? || r.HalfUp?) && r.followee == k.sub then 1 else 0
  }

  /** A pending decrement of the counter. */
  function Downs(k: Counter): Request -> nat {
    (r: Request) =>
      match k.side
      case Following => if r.Removed? && r.follower == k.sub then 1 else 0
      case Followers => if (r.Removed? || r.HalfDown?) && r.followee == k.sub then 1 else 0
  }

  ghost function PendingUps(m: Machine, k: Counter): nat {
    Sums.Total(m.requests, Ups(k))
  }

  ghost function PendingDowns(m: Machine, k: Counter): nat {
    Sums.Total(m.requests, Downs(k))
  }

  ghost predicate InBalance(m: Machine, k: Counter) {
    CountOf(m.users, k) + PendingUps(m, k) + Tally(m.missed, k)
    == |EdgesOf(m.edges, k)| + PendingDowns(m, k) + Tally(m.floors, k)
  }

  /** A follow's target has a row, and keeps it. */
  predicate TargetOk(users: Table, r: Request) {
    r.Checked? || r.Inserted? || r.HalfUp? ==> r.followee in users
  }

  ghost predicate Sound(m: Machine) {
    && Keyed(m.users)
    && (forall k :: InBalance(m, k))
    && (forall p :: p in m.copies ==> CopyOk(m.users, m.copies[p].user))
    && (forall p :: p in m.requests ==> TargetOk(m.users, m.requests[p]))
    && (forall k :: k in m.missed ==> k.side == Following)
  }

  lemma RaisedCount(users: Table, k: Counter, x: Counter)
    ensures CountOf(Raised(users, k), x) == CountOf(users, x) + (if x == k && k.sub in users then 1 else 0)
    ensures Raised(users, k).Keys == users.Keys
  {}

  lemma LoweredCount(users: Table, k: Counter, x: Counter)
    ensures CountOf(Lowered(users, k), x) == CountOf(users, x) - (if x == k && CountOf(users, k) > 0 then 1 else 0)
    ensures Lowered(users, k).Keys == users.Keys
  {}

  lemma RequestMoves(requests: map<nat, Request>, p: nat, r: Request, k: Counter)
    requires p in requests
    ensures Sums.Total(requests[p := r], Ups(k)) + Ups(k)(requests[p]) == Sums.Total(requests, Ups(k)) + Ups(k)(r)
    ensures Sums.Total(requests[p := r], Downs(k)) + Downs(k)(requests[p]) == Sums.Total(requests, Downs(k)) + Downs(k)(r)
  {
    Sums.TotalUpdate(requests, Ups(k), p, r);
    Sums.TotalUpdate(requests, Downs(k), p, r);
  }

  lemma RequestComes(requests: map<nat, Request>, p: nat, r: Request, k: Counter)
    requires p !in requests
    ensures Sums.Total(requests[p := r], Ups(k)) == Sums.Total(requests, Ups(k)) + Ups(k)(r)
    ensures Sums.Total(requests[p := r], Downs(k)) == Sums.Total(requests, Downs(k)) + Downs(k)(r)
  {
    Sums.TotalInsert(requests, Ups(k), p, r);
    Sums.TotalInsert(requests, Downs(k), p, r);
  }

  lemma RequestGoes(requests: map<nat, Request>, p: nat, k: Counter)
    requires p in requests
    ensures Sums.Total(requests - {p}, Ups(k)) + Ups(k)(requests[p]) == Sums.Total(requests, Ups(k))
    ensures Sums.Total(requests - {p}, Downs(k)) + Downs(k)(requests[p]) == Sums.Total(requests, Downs(k))
  {
    Sums.TotalWithout(requests, Ups(k), p);
    Sums.TotalWithout(requests, Downs(k), p);
  }

  /** Advancing a request takes one pending change of its next counter away, and no other. */
  lemma AdvancedPending(requests: map<nat, Request>, p: nat, k: Counter)
    requires p in requests && !requests[p].Checked?
    ensures
      var r := requests[p];
      var up := r.Inserted? || r.HalfUp?;
      && Sums.Total(Advanced(requests, p), Ups(k)) + (if up && k == Next(r) then 1 else 0) == Sums.Total(requests, Ups(k))
      && Sums.Total(Advanced(requests, p), Downs(k)) + (if !up && k == Next(r) then 1 else 0)
         == Sums.Total(requests, Downs(k))
  {
    match requests[p]
    case Inserted(follower, followee) => RequestMoves(requests, p, HalfUp(follower, followee), k);
    case Removed(follower, followee) => RequestMoves(requests, p, HalfDown(follower, followee), k);
    case _ => RequestGoes(requests, p, k);
  }

  lemma BumpBalances(m: Machine, p: nat, k: Counter)
    requires InBalance(m, k) && Possible(m, Bump(p))
    ensures InBalance(Result(m, Bump(p)), k)
  {
    AdvancedPending(m.requests, p, k);
    RaisedCount(m.users, Next(m.requests[p]), k);
  }

  lemma DropBalances(m: Machine, p: nat, k: Counter)
    requires InBalance(m, k) && Possible(m, Drop(p))
    ensures InBalance(Result(m, Drop(p)), k)
  {
    AdvancedPending(m.requests, p, k);
    LoweredCount(m.users, Next(m.requests[p]), k);
  }

  lemma EdgeComes(edges: EdgeSet, e: (Str, Str), k: Counter)
    requires e !in edges
    ensures |EdgesOf(edges + {e}, k)| == |EdgesOf(edges, k)| + Ups(k)(Inserted(e.0, e.1))
  {
    AddEdge(edges, e, k.sub);
  }

  lemma EdgeGoes(edges: EdgeSet, e: (Str, Str), k: Counter)
    requires e in edges
    ensures |EdgesOf(edges - {e}, k)| + Downs(k)(Removed(e.0, e.1)) == |EdgesOf(edges, k)|
  {
    RemoveEdge(edges, e, k.sub);
  }

  lemma InsertBalances(m: Machine, p: nat, k: Counter)
    requires InBalance(m, k) && Possible(m, FollowInsert(p))
    ensures InBalance(Result(m, FollowInsert(p)), k)
  {
    var r := m.requests[p];
    if (r.follower, r.followee) in m.edges {
      RequestGoes(m.requests, p, k);
    } else {
      RequestMoves(m.requests, p, Inserted(r.follower, r.followee), k);
      EdgeComes(m.edges, (r.follower, r.followee), k);
    }
  }

  lemma DeleteBalances(m: Machine, p: nat, follower: Str, followee: Str, k: Counter)
    requires InBalance(m, k) && Possible(m, UnfollowDelete(p, follower, followee))
    ensures InBalance(Result(m, UnfollowDelete(p, follower, followee)), k)
  {
    if (follower, followee) in m.edges {
      RequestComes(m.requests, p, Removed(follower, followee), k);
      EdgeGoes(m.edges, (follower, followee), k);
    }
  }

  /** A write-back keeps every counter, and a new row starts with none. */
  lemma UpsertCount(users: Table, user: User, now: int, k: Counter)
    requires CopyOk(users, user)
    ensures CountOf(Upserted(users, user, now), k) == CountOf(users, k)
  {}

  lemma RefreshBalances(m: Machine, p: nat, answer: Answer, now: int, k: Counter)
    requires InBalance(m, k) && Possible(m, Refresh(p, answer, now)) && CopyOk(m.users, m.copies[p].user)
    ensures InBalance(Result(m, Refresh(p, answer, now)), k)
  {
    UpsertCount(m.users, Refreshed(m.copies[p].user, answer, now), now, k);
  }

  lemma StepBalances(m: Machine, step: Move, k: Counter)
    requires Sound(m) && Possible(m, step)
    ensures InBalance(Result(m, step), k)
  {
    assert InBalance(m, k);
    match step
    case FollowCheck(p, follower, followee) => RequestComes(m.requests, p, Checked(follower, followee), k);
    case FollowInsert(p) => InsertBalances(m, p, k);
    case Bump(p) => BumpBalances(m, p, k);
    case UnfollowDelete(p, follower, followee) => DeleteBalances(m, p, follower, followee, k);
    case Drop(p) => DropBalances(m, p, k);
    case Fetch(_, _, _) =>
    case Refresh(p, answer, now) => RefreshBalances(m, p, answer, now, k);
    case Edit(_, _, _, _) =>
  }

  lemma StepKeepsRows(m: Machine, step: Move)
    requires Possible(m, step)
    ensures m.users.Keys <= Result(m, step).users.Keys
  {}

  lemma StepKeepsKeyed(m: Machine, step: Move)
    requires Keyed(m.users) && Possible(m, step)
    ensures Keyed(Result(m, step).users)
  {}

  lemma TargetOkGrows(users: Table, more: Table, r: Request)
    requires TargetOk(users, r) && users.Keys <= more.Keys
    ensures TargetOk(more, r)
  {}

  lemma CopyOkGrows(users: Table, more: Table, copy: User)
    requires CopyOk(users, copy) && users.Keys <= more.Keys
    ensures CopyOk(more, copy)
  {}

  lemma RequestsFollow(m: Machine, step: Move, p: nat)
    requires Sound(m) && Possible(m, step) && p in Result(m, step).requests
    ensures TargetOk(m.users, Result(m, step).requests[p])
  {
    if p in m.requests { assert TargetOk(m.users, m.requests[p]); }
  }

  lemma CopiesFollow(m: Machine, step: Move, p: nat)
    requires Sound(m) && Possible(m, step) && p in Result(m, step).copies
    ensures CopyOk(m.users, Result(m, step).copies[p].user)
  {
    if p in m.copies { assert CopyOk(m.users, m.copies[p].user); }
  }

  lemma StepMisses(m: Machine, step: Move, k: Counter)
    requires Sound(m) && Possible(m, step) && k in Result(m, step).missed
    ensures k.side == Following
  {
    if step.Bump? { assert TargetOk(m.users, m.requests[step.p]); }
  }

  lemma StepKeepsSound(m: Machine, step: Move)
    requires Sound(m) && Possible(m, step)
    ensures Sound(Result(m, step))
  {
    var m' := Result(m, step);
    StepKeepsKeyed(m, step);
    forall k ensures InBalance(m', k) { StepBalances(m, step, k); }
    StepKeepsRows(m, step);
    forall p | p in m'.copies ensures CopyOk(m'.users, m'.copies[p].user) {
      CopiesFollow(m, step, p);
      CopyOkGrows(m.users, m'.users, m'.copies[p].user);
    }
    forall p | p in m'.requests ensures TargetOk(m'.users, m'.requests[p]) {
      RequestsFollow(m, step, p);
      TargetOkGrows(m.users, m'.users, m'.requests[p]);
    }
    forall k | k in m'.missed ensures k.side == Following { StepMisses(m, step, k); }
  }

  lemma {:induction false} RunKeepsSound(m: Machine, steps: seq<Move>)
    requires Sound(m) && Reach(m, steps).Some?
    ensures Sound(Reach(m, steps).value)
    decreases |steps|
  {
    if steps != [] {
      StepKeepsSound(m, steps[0]);
      RunKeepsSound(Result(m, steps[0]), steps[1..]);
    }
  }

  lemma StartIsSound()
    ensures Sound(Start())
  {
    forall k ensures InBalance(Start(), k) { assert EdgesOf({}, k) == {}; }
  }

  // ----- main results -----

  /** The ledger of both counters of every user, in every interleaving. */
  lemma LedgerBalances(steps: seq<Move>, k: Counter)
    requires Reach(Start(), steps).Some?
    ensures
      var m := Reach(Start(), steps).value;
      && CountOf(m.users, k) + PendingUps(m, k) + Tally(m.missed, k)
         == |EdgesOf(m.edges, k)| + PendingDowns(m, k) + Tally(m.floors, k)
      && (k.side == Followers ==> Tally(m.missed, k) == 0)
  {
    StartIsSound();
    RunKeepsSound(Start(), steps);
    assert InBalance(Reach(Start(), steps).value, k);
  }

  /**
   At rest a counter equals its edges exactly when it missed as many increments as it
   floored decrements; one that missed none, as followers counts never do, is not below them.
   */
  lemma AtRestExact(steps: seq<Move>, k: Counter)
    requires Reach(Start(), steps).Some? && Reach(Start(), steps).value.requests == map[]
    ensures
      var m := Reach(Start(), steps).value;
      && (CountOf(m.users, k) == |EdgesOf(m.edges, k)| <==> Tally(m.missed, k) == Tally(m.floors, k))
      && (Tally(m.missed, k) == 0 || k.side == Followers ==> CountOf(m.users, k) >= |EdgesOf(m.edges, k)|)
  {
    LedgerBalances(steps, k);
  }

  lemma {:induction false} ReachSnoc(m: Machine, steps: seq<Move>, last: Move)
    requires Reach(m, steps).Some? && Possible(Reach(m, steps).value, last)
    ensures Reach(m, steps + [last]) == Some(Result(Reach(m, steps).value, last))
    decreases |steps|
  {
    if steps == [] {
      assert [] + [last] == [last] && [last][1..] == [];
    } else {
      assert (steps + [last])[0] == steps[0] && (steps + [last])[1..] == steps[1..] + [last];
      ReachSnoc(Result(m, steps[0]), steps[1..], last);
    }
  }

  /** A first visit creates a user's row with both counters at zero. */
  lemma Visit(before: seq<Move>, sub: Str) returns (steps: seq<Move>)
    requires Reach(Start(), before).Some? && sub != []
    requires Reach(Start(), before).value.copies == map[] && sub !in Reach(Start(), before).value.users
    ensures Reach(Start(), steps).Some?
    ensures
      var m, m' := Reach(Start(), before).value, Reach(Start(), steps).value;
      && m' == m.(users := m'.users) && m'.users.Keys == m.users.Keys + {sub}
      && m'.users[sub].followers == 0 && m'.users[sub].following == 0 && m'.users[sub].deletedAt.None?
      && (forall u :: u in m.users ==> m'.users[u] == m.users[u])
  {
    ReachSnoc(Start(), before, Fetch(0, sub, 0));
    steps := before + [Fetch(0, sub, 0)];
    ReachSnoc(Start(), steps, Refresh(0, NoToken, 0));
    steps := steps + [Refresh(0, NoToken, 0)];
    assert Reach(Start(), steps).value.copies == map[];
  }

  lemma TwoVisits(a: Str, b: Str) returns (steps: seq<Move>)
    requires a != [] && b != [] && a != b
    ensures Reach(Start(), steps).Some?
    ensures
      var m := Reach(Start(), steps).value;
      && m.requests == map[] && m.edges == {} && m.users.Keys == {a, b}
      && m.users[a].following == 0 && m.users[b].followers == 0 && m.users[b].deletedAt.None?
  {
    steps := Visit([], a);
    steps := Visit(steps, b);
  }

  /** An unfollow that overtakes its follow's increments leaves both counters at one with no edge. */
  lemma OvertakingUnfollowDrifts(a: Str, b: Str) returns (steps: seq<Move>)
    requires a != [] && b != [] && a != b
    ensures Reach(Start(), steps).Some?
    ensures
      var m := Reach(Start(), steps).value;
      && m.requests == map[] && m.edges == {}
      && CountOf(m.users, Counter(Following, a)) == 1 && CountOf(m.users, Counter(Followers, b)) == 1
  {
    steps := TwoVisits(a, b);
    ReachSnoc(Start(), steps, FollowCheck(0, a, b));
    steps := steps + [FollowCheck(0, a, b)];
    ReachSnoc(Start(), steps, FollowInsert(0));
    steps := steps + [FollowInsert(0)];
    ReachSnoc(Start(), steps, UnfollowDelete(1, a, b));
    steps := steps + [UnfollowDelete(1, a, b)];
    assert Reach(Start(), steps).value.edges == {};
    ReachSnoc(Start(), steps, Drop(1));
    steps := steps + [Drop(1)];
    ReachSnoc(Start(), steps, Drop(1));
    steps := steps + [Drop(1)];
    ReachSnoc(Start(), steps, Bump(0));
    steps := steps + [Bump(0)];
    ReachSnoc(Start(), steps, Bump(0));
    steps := steps + [Bump(0)];
    assert Reach(Start(), steps).value.requests == map[];
  }
}
