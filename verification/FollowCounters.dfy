/**
 Whole follow and unfollow calls interleaved with hydrations that read a row, ask
 the profile service, and write a possibly stale copy back.
 */
module FollowCounters {
  import opened Text
  import opened Users
  import opened Wrappers

  /** A hydration in flight: its copy of the row, and whether the row was missing. */
  datatype Copy = Copy(user: User, creating: bool)

  datatype State = State(users: Table, edges: EdgeSet, copies: map<nat, Copy>)

  datatype Step =
    | Follow(follower: Str, followee: Str)
    | Unfollow(follower: Str, followee: Str)
    | Read(p: nat, sub: Str, now: int)
    | WriteBack(p: nat, answer: Answer, now: int)
    | EditProfile(sub: Str, bio: Option<Str>, bannerURL: Option<Str>, now: int)

  /** `Read` takes a copy of the row, or starts a blank one for a new sub. */
  predicate Enabled(s: State, step: Step) {
    match step
    case Follow(follower, _) => follower in s.users
    case Unfollow(_, _) => true
    case Read(p, sub, _) => p !in s.copies && sub != []
    case WriteBack(p, _, _) => p in s.copies
    case EditProfile(_, _, _, _) => true
  }

  function Refreshed(copy: User, answer: Answer, now: int): User {
    if answer.Fetched? then WithProfile(copy, answer.profile).(refreshedAt := Some(now)) else copy
  }

  /** A refresh writes only a fetched profile; a creation writes unless the sub is unknown. */
  predicate Writes(copy: Copy, answer: Answer) {
    answer.Fetched? || (copy.creating && !answer.NotFound?)
  }

  /** An absent field of a profile update keeps the stored one. */
  function Edited(user: User, bio: Option<Str>, bannerURL: Option<Str>, now: int): User {
    user.(
      bio := if bio.Some? then bio.value else user.bio,
      bannerURL := if bannerURL.Some? then bannerURL.value else user.bannerURL,
      updatedAt := now)
  }

  function Apply(s: State, step: Step): State
    requires Enabled(s, step)
  {
    match step
    case Follow(follower, followee) =>
      var r := FollowCall(s.users, s.edges, follower, followee);
      s.(users := r.0, edges := r.1)
    case Unfollow(follower, followee) =>
      var r := UnfollowCall(s.users, s.edges, follower, followee);
      s.(users := r.0, edges := r.1)
    case Read(p, sub, now) =>
      s.(copies := s.copies[p := if sub in s.users then Copy(s.users[sub], false) else Copy(Blank(sub, now), true)])
    case WriteBack(p, answer, now) =>
      var s' := s.(copies := s.copies - {p});
      if Writes(s.copies[p], answer)
      then s'.(users := Upserted(s.users, Refreshed(s.copies[p].user, answer, now), now))
      else s'
    case EditProfile(sub, bio, bannerURL, now) =>
      if sub in s.users
      then s.(users := s.users[sub := Edited(s.users[sub], bio, bannerURL, now)]) else s
  }

  function Run(s: State, steps: seq<Step>): Option<State>
    decreases |steps|
  {
    if steps == [] then Some(s)
    else if Enabled(s, steps[0]) then Run(Apply(s, steps[0]), steps[1..])
    else None
  }

  function Init(): State {
    State(map[], {}, map[])
  }

  function FollowersOf(edges: EdgeSet, u: Str): EdgeSet {
    set e | e in edges && e.1 == u
  }

  function FollowingOf(edges: EdgeSet, u: Str): EdgeSet {
    set e | e in edges && e.0 == u
  }

  predicate Counted(users: Table, edges: EdgeSet, u: Str)
    requires u in users
  {
    users[u].followers == |FollowersOf(edges, u)| && users[u].following == |FollowingOf(edges, u)|
  }

  /** Both counters of every row equal its edge counts. */
  predicate AllCounted(users: Table, edges: EdgeSet) {
    forall u :: u in users ==> Counted(users, edges, u)
  }

  predicate Endpoints(users: Table, edges: EdgeSet) {
    forall e :: e in edges ==> e.0 in users && e.1 in users && e.0 != e.1
  }

  predicate Keyed(users: Table) {
    forall u :: u in users ==> users[u].sub == u
  }

  /** A copy for a missing row carries no counts. */
  predicate CopyOk(users: Table, copy: User) {
    copy.sub in users || (copy.followers == 0 && copy.following == 0)
  }

  ghost predicate Inv(s: State) {
    && AllCounted(s.users, s.edges)
    && Endpoints(s.users, s.edges)
    && Keyed(s.users)
    && (forall p :: p in s.copies ==> CopyOk(s.users, s.copies[p].user))
  }

  /** Server-owned fields of a row, which no step here may change. */
  predicate SameOwned(a: User, b: User) {
    a.isAdmin == b.isAdmin && a.createdAt == b.createdAt && a.deletedAt == b.deletedAt
  }

  predicate Kept(users: Table, users': Table) {
    forall u :: u in users ==> u in users' && SameOwned(users[u], users'[u])
  }

  lemma AddEdge(edges: EdgeSet, e: (Str, Str), u: Str)
    requires e !in edges
    ensures |FollowersOf(edges + {e}, u)| == |FollowersOf(edges, u)| + (if e.1 == u then 1 else 0)
    ensures |FollowingOf(edges + {e}, u)| == |FollowingOf(edges, u)| + (if e.0 == u then 1 else 0)
  {
    assert FollowersOf(edges + {e}, u) == if e.1 == u then FollowersOf(edges, u) + {e} else FollowersOf(edges, u);
    assert FollowingOf(edges + {e}, u) == if e.0 == u then FollowingOf(edges, u) + {e} else FollowingOf(edges, u);
  }

  lemma RemoveEdge(edges: EdgeSet, e: (Str, Str), u: Str)
    requires e in edges
    ensures |FollowersOf(edges - {e}, u)| == |FollowersOf(edges, u)| - (if e.1 == u then 1 else 0)
    ensures |FollowingOf(edges - {e}, u)| == |FollowingOf(edges, u)| - (if e.0 == u then 1 else 0)
  {
    AddEdge(edges - {e}, e, u);
    assert edges - {e} + {e} == edges;
  }

  predicate SameRow(a: User, b: User) {
    a.sub == b.sub && SameOwned(a, b)
  }

  /** `users'` differs from `users` in counters, bio and cached fields only. */
  predicate SameRows(users: Table, users': Table) {
    users'.Keys == users.Keys && forall u :: u in users ==> SameRow(users[u], users'[u])
  }

  lemma UpdateKeepsRows(users: Table, sub: Str, row: User)
    requires sub in users && SameRow(users[sub], row)
    ensures SameRows(users, users[sub := row])
  {}

  lemma FollowersKeepRows(users: Table, sub: Str)
    ensures SameRows(users, FollowersUp(users, sub)) && SameRows(users, FollowersDown(users, sub))
  {
    if sub in users {
      UpdateKeepsRows(users, sub, users[sub].(followers := users[sub].followers + 1));
      if users[sub].followers > 0 {
        UpdateKeepsRows(users, sub, users[sub].(followers := users[sub].followers - 1));
      }
    }
  }

  lemma FollowingKeepsRows(users: Table, sub: Str)
    ensures SameRows(users, FollowingUp(users, sub)) && SameRows(users, FollowingDown(users, sub))
  {
    if sub in users {
      UpdateKeepsRows(users, sub, users[sub].(following := users[sub].following + 1));
      if users[sub].following > 0 {
        UpdateKeepsRows(users, sub, users[sub].(following := users[sub].following - 1));
      }
    }
  }

  lemma SameRowsTwice(a: Table, b: Table, c: Table)
    requires SameRows(a, b) && SameRows(b, c)
    ensures SameRows(a, c)
  {
    forall u | u in a ensures SameRow(a[u], c[u]) { assert SameRow(a[u], b[u]) && SameRow(b[u], c[u]); }
  }

  lemma FollowKeepsRows(users: Table, edges: EdgeSet, follower: Str, followee: Str)
    ensures SameRows(users, FollowCall(users, edges, follower, followee).0)
  {
    var mid := FollowingUp(users, follower);
    FollowingKeepsRows(users, follower);
    FollowersKeepRows(mid, followee);
    SameRowsTwice(users, mid, FollowersUp(mid, followee));
  }

  lemma UnfollowKeepsRows(users: Table, edges: EdgeSet, follower: Str, followee: Str)
    ensures SameRows(users, UnfollowCall(users, edges, follower, followee).0)
  {
    var mid := FollowingDown(users, follower);
    FollowingKeepsRows(users, follower);
    FollowersKeepRows(mid, followee);
    SameRowsTwice(users, mid, FollowersDown(mid, followee));
  }

  lemma FollowKeeps(users: Table, edges: EdgeSet, follower: Str, followee: Str)
    requires AllCounted(users, edges) && follower in users
    ensures
      var r := FollowCall(users, edges, follower, followee);
      AllCounted(r.0, r.1)
  {
    var r := FollowCall(users, edges, follower, followee);
    if (follower, followee) !in edges {
      forall u | u in r.0 ensures Counted(r.0, r.1, u) {
        assert Counted(users, edges, u);
        AddEdge(edges, (follower, followee), u);
      }
    }
  }

  lemma UnfollowKeeps(users: Table, edges: EdgeSet, follower: Str, followee: Str)
    requires AllCounted(users, edges) && Endpoints(users, edges)
    ensures
      var r := UnfollowCall(users, edges, follower, followee);
      AllCounted(r.0, r.1)
  {
    var r := UnfollowCall(users, edges, follower, followee);
    var e := (follower, followee);
    if e in edges {
      assert Counted(users, edges, follower) && Counted(users, edges, followee);
      assert e in FollowingOf(edges, follower) && e in FollowersOf(edges, followee);
      forall u | u in r.0 ensures Counted(r.0, r.1, u) {
        assert Counted(users, edges, u);
        RemoveEdge(edges, e, u);
      }
    } else {
      assert edges - {e} == edges;
    }
  }

  /** A write-back keeps counters and server-owned fields of existing rows. */
  lemma UpsertKeeps(users: Table, edges: EdgeSet, user: User, now: int)
    requires AllCounted(users, edges) && Endpoints(users, edges)
    requires user.sub in users || (user.followers == 0 && user.following == 0)
    ensures AllCounted(Upserted(users, user, now), edges)
  {
    var users' := Upserted(users, user, now);
    forall u | u in users' ensures Counted(users', edges, u) {
      if u in users {
        assert Counted(users, edges, u);
      } else {
        assert FollowersOf(edges, u) == {} && FollowingOf(edges, u) == {};
      }
    }
  }

  lemma UpsertKeepsRows(users: Table, user: User, now: int)
    requires Keyed(users)
    ensures Keyed(Upserted(users, user, now)) && Kept(users, Upserted(users, user, now))
    ensures Upserted(users, user, now).Keys == users.Keys + {user.sub}
  {}

  lemma WriteBackKeeps(s: State, p: nat, answer: Answer, now: int)
    requires Inv(s) && Enabled(s, WriteBack(p, answer, now))
    ensures Inv(Apply(s, WriteBack(p, answer, now)))
    ensures Kept(s.users, Apply(s, WriteBack(p, answer, now)).users)
  {
    if Writes(s.copies[p], answer) {
      var user := Refreshed(s.copies[p].user, answer, now);
      assert CopyOk(s.users, user);
      UpsertKeeps(s.users, s.edges, user, now);
      UpsertKeepsRows(s.users, user, now);
    }
  }

  lemma EditCounted(users: Table, edges: EdgeSet, sub: Str, row: User)
    requires AllCounted(users, edges) && sub in users
    requires row.followers == users[sub].followers && row.following == users[sub].following
    ensures AllCounted(users[sub := row], edges)
  {
    var after := users[sub := row];
    forall u | u in after ensures Counted(after, edges, u) { assert Counted(users, edges, u); }
  }

  lemma EditKeeps(s: State, sub: Str, bio: Option<Str>, bannerURL: Option<Str>, now: int)
    requires Inv(s)
    ensures Inv(Apply(s, EditProfile(sub, bio, bannerURL, now)))
    ensures Kept(s.users, Apply(s, EditProfile(sub, bio, bannerURL, now)).users)
  {
    if sub in s.users {
      var row := Edited(s.users[sub], bio, bannerURL, now);
      EditCounted(s.users, s.edges, sub, row);
      UpdateKeepsRows(s.users, sub, row);
      SameRowsKeep(s, s.users[sub := row], s.edges);
    }
  }

  lemma SameRowsKeep(s: State, users: Table, edges: EdgeSet)
    requires Inv(s) && SameRows(s.users, users)
    requires AllCounted(users, edges) && Endpoints(users, edges)
    ensures Inv(s.(users := users, edges := edges)) && Kept(s.users, users)
  {
    forall u | u in users ensures SameRow(s.users[u], users[u]) {}
    forall p | p in s.copies ensures CopyOk(users, s.copies[p].user) { assert CopyOk(s.users, s.copies[p].user); }
  }

  lemma CallsKeepEndpoints(users: Table, edges: EdgeSet, follower: Str, followee: Str)
    requires Endpoints(users, edges) && follower in users
    ensures Endpoints(users, FollowCall(users, edges, follower, followee).1)
  {}

  lemma FollowStepKeeps(s: State, follower: Str, followee: Str)
    requires Inv(s) && Enabled(s, Step.Follow(follower, followee))
    ensures Inv(Apply(s, Step.Follow(follower, followee)))
    ensures Kept(s.users, Apply(s, Step.Follow(follower, followee)).users)
  {
    FollowKeepsRows(s.users, s.edges, follower, followee);
    FollowKeeps(s.users, s.edges, follower, followee);
    CallsKeepEndpoints(s.users, s.edges, follower, followee);
    var r := FollowCall(s.users, s.edges, follower, followee);
    SameRowsKeep(s, r.0, r.1);
  }

  lemma UnfollowStepKeeps(s: State, follower: Str, followee: Str)
    requires Inv(s)
    ensures Inv(Apply(s, Step.Unfollow(follower, followee)))
    ensures Kept(s.users, Apply(s, Step.Unfollow(follower, followee)).users)
  {
    UnfollowKeepsRows(s.users, s.edges, follower, followee);
    UnfollowKeeps(s.users, s.edges, follower, followee);
    var r := UnfollowCall(s.users, s.edges, follower, followee);
    SameRowsKeep(s, r.0, r.1);
  }

  lemma StepKeeps(s: State, step: Step)
    requires Inv(s) && Enabled(s, step)
    ensures Inv(Apply(s, step)) && Kept(s.users, Apply(s, step).users)
  {
    match step
    case Follow(follower, followee) => FollowStepKeeps(s, follower, followee);
    case Unfollow(follower, followee) => UnfollowStepKeeps(s, follower, followee);
    case Read(_, _, _) =>
    case WriteBack(p, answer, now) => WriteBackKeeps(s, p, answer, now);
    case EditProfile(sub, bio, bannerURL, now) => EditKeeps(s, sub, bio, bannerURL, now);
  }

  lemma {:induction false} RunKeeps(s: State, steps: seq<Step>)
    requires Inv(s) && Run(s, steps).Some?
    ensures Inv(Run(s, steps).value)
    ensures Kept(s.users, Run(s, steps).value.users)
    decreases |steps|
  {
    if steps != [] {
      StepKeeps(s, steps[0]);
      RunKeeps(Apply(s, steps[0]), steps[1..]);
    }
  }

  // ----- totals -----

  ghost function PickKey(keys: set<Str>): Str
    requires keys != {}
  {
    var k :| k in keys; k
  }

  ghost function TotalFollowers(users: Table, keys: set<Str>): nat
    requires keys <= users.Keys
  {
    if keys == {} then 0
    else users[PickKey(keys)].followers + TotalFollowers(users, keys - {PickKey(keys)})
  }

  ghost function TotalFollowing(users: Table, keys: set<Str>): nat
    requires keys <= users.Keys
  {
    if keys == {} then 0
    else users[PickKey(keys)].following + TotalFollowing(users, keys - {PickKey(keys)})
  }

  lemma {:induction false} TotalsCountEdges(users: Table, edges: EdgeSet, keys: set<Str>)
    requires AllCounted(users, edges) && keys <= users.Keys
    ensures TotalFollowers(users, keys) == |set e | e in edges && e.1 in keys|
    ensures TotalFollowing(users, keys) == |set e | e in edges && e.0 in keys|
    decreases |keys|
  {
    if keys == {} {
      assert (set e | e in edges && e.1 in keys) == {} && (set e | e in edges && e.0 in keys) == {};
    } else {
      var k := PickKey(keys);
      var rest := keys - {k};
      TotalsCountEdges(users, edges, rest);
      assert Counted(users, edges, k);
      assert (set e | e in edges && e.1 in keys) == (set e | e in edges && e.1 in rest) + FollowersOf(edges, k);
      assert (set e | e in edges && e.0 in keys) == (set e | e in edges && e.0 in rest) + FollowingOf(edges, k);
      assert (set e | e in edges && e.1 in rest) !! FollowersOf(edges, k);
      assert (set e | e in edges && e.0 in rest) !! FollowingOf(edges, k);
    }
  }

  // ----- main results -----

  /**
   In every such interleaving both counters of every user equal its edge counts and
   both totals equal the number of edges.
   */
  lemma CountersSurviveStaleRefreshes(steps: seq<Step>)
    requires Run(Init(), steps).Some?
    ensures
      var s := Run(Init(), steps).value;
      && (forall u :: u in s.users ==>
          s.users[u].followers == |FollowersOf(s.edges, u)| && s.users[u].following == |FollowingOf(s.edges, u)|)
      && TotalFollowers(s.users, s.users.Keys) == |s.edges|
      && TotalFollowing(s.users, s.users.Keys) == |s.edges|
  {
    RunKeeps(Init(), steps);
    var s := Run(Init(), steps).value;
    forall u | u in s.users
      ensures s.users[u].followers == |FollowersOf(s.edges, u)| && s.users[u].following == |FollowingOf(s.edges, u)|
    {
      assert Counted(s.users, s.edges, u);
    }
    AllTotals(s.users, s.edges);
  }

  lemma AllTotals(users: Table, edges: EdgeSet)
    requires AllCounted(users, edges) && Endpoints(users, edges)
    ensures TotalFollowers(users, users.Keys) == |edges| && TotalFollowing(users, users.Keys) == |edges|
  {
    TotalsCountEdges(users, edges, users.Keys);
    assert (set e | e in edges && e.1 in users.Keys) == edges;
    assert (set e | e in edges && e.0 in users.Keys) == edges;
  }

  /** No later step changes IsAdmin, CreatedAt or DeletedAt of a row that exists. */
  lemma ServerFieldsSurvive(before: seq<Step>, after: seq<Step>)
    requires Run(Init(), before).Some? && Run(Run(Init(), before).value, after).Some?
    ensures Kept(Run(Init(), before).value.users, Run(Run(Init(), before).value, after).value.users)
  {
    RunKeeps(Init(), before);
    RunKeeps(Run(Init(), before).value, after);
  }

  /** A follow by a sub with no mirror row keeps the counters exact only once it has one. */
  lemma FollowNeedsHydratedFollower(users: Table, edges: EdgeSet, follower: Str, followee: Str)
    requires AllCounted(users, edges) && Endpoints(users, edges)
    requires follower != [] && followee in users && users[followee].deletedAt.None? && follower != followee
    requires followee != [] && (follower, followee) !in edges
    ensures
      var r := FollowCall(users, edges, follower, followee);
      AllCounted(r.0, r.1)
    ensures
      var r := FollowCall(users, edges, follower, followee);
      (forall now: int :: AllCounted(Upserted(r.0, Blank(follower, now), now), r.1)) <==> follower in users
  {
    var r := FollowCall(users, edges, follower, followee);
    forall u | u in r.0 ensures Counted(r.0, r.1, u) {
      assert Counted(users, edges, u);
      AddEdge(edges, (follower, followee), u);
    }
    if follower in users {
      assert Endpoints(r.0, r.1);
      forall now: int ensures AllCounted(Upserted(r.0, Blank(follower, now), now), r.1) {
        UpsertKeeps(r.0, r.1, Blank(follower, now), now);
      }
    } else {
      var t := Upserted(r.0, Blank(follower, 0), 0);
      assert (follower, followee) in FollowingOf(r.1, follower);
      assert !Counted(t, r.1, follower);
    }
  }

  // ----- the bio -----

  predicate BioIs(s: State, sub: Str, bio: Str) {
    sub in s.users && s.users[sub].bio == bio
  }

  /** The step writes back a copy of the row whose bio is neither empty nor this one. */
  predicate Overwrites(s: State, step: Step, sub: Str, bio: Str) {
    && step.WriteBack? && step.p in s.copies && s.copies[step.p].user.sub == sub
    && Writes(s.copies[step.p], step.answer)
    && s.copies[step.p].user.bio != [] && s.copies[step.p].user.bio != bio
  }

  predicate EditsBio(step: Step, sub: Str) {
    step.EditProfile? && step.sub == sub && step.bio.Some?
  }

  /** The bio is this one before, during and after the steps. */
  predicate BioStays(s: State, steps: seq<Step>, sub: Str, bio: Str)
    decreases |steps|
  {
    BioIs(s, sub, bio) && (steps != [] && Enabled(s, steps[0]) ==> BioStays(Apply(s, steps[0]), steps[1..], sub, bio))
  }

  /** None of the steps writes back a copy with another bio. */
  predicate NoneOverwrites(s: State, steps: seq<Step>, sub: Str, bio: Str)
    decreases |steps|
  {
    steps != [] && Enabled(s, steps[0]) ==>
      !Overwrites(s, steps[0], sub, bio) && NoneOverwrites(Apply(s, steps[0]), steps[1..], sub, bio)
  }

  lemma StepKeepsBio(s: State, step: Step, sub: Str, bio: Str)
    requires BioIs(s, sub, bio) && Enabled(s, step) && !EditsBio(step, sub)
    ensures BioIs(Apply(s, step), sub, bio) <==> !Overwrites(s, step, sub, bio)
  {}

  lemma {:induction false} RunKeepsBio(s: State, steps: seq<Step>, sub: Str, bio: Str)
    requires BioIs(s, sub, bio) && Run(s, steps).Some?
    requires forall i :: 0 <= i < |steps| ==> !EditsBio(steps[i], sub)
    ensures BioStays(s, steps, sub, bio) <==> NoneOverwrites(s, steps, sub, bio)
    decreases |steps|
  {
    if steps != [] {
      StepKeepsBio(s, steps[0], sub, bio);
      if BioIs(Apply(s, steps[0]), sub, bio) { RunKeepsBio(Apply(s, steps[0]), steps[1..], sub, bio); }
    }
  }

  /**
   In every run: a bio set by a profile update stays, as long as nobody updates it again,
   exactly when no refresh in between writes back a copy with another non-empty bio.
   */
  lemma EditedBioSurvives(before: seq<Step>, sub: Str, bio: Str, bannerURL: Option<Str>, now: int,
                           after: seq<Step>)
    requires Run(Init(), before).Some? && sub in Run(Init(), before).value.users
    requires
      Run(Apply(Run(Init(), before).value, EditProfile(sub, Some(bio), bannerURL, now)), after).Some?
    requires forall i :: 0 <= i < |after| ==> !EditsBio(after[i], sub)
    ensures
      var s := Apply(Run(Init(), before).value, EditProfile(sub, Some(bio), bannerURL, now));
      BioStays(s, after, sub, bio) <==> NoneOverwrites(s, after, sub, bio)
  {
    RunKeepsBio(Apply(Run(Init(), before).value, EditProfile(sub, Some(bio), bannerURL, now)), after, sub, bio);
  }

  lemma {:induction false} RunSnoc(s: State, steps: seq<Step>, last: Step)
    requires Run(s, steps).Some? && Enabled(Run(s, steps).value, last)
    ensures Run(s, steps + [last]) == Some(Apply(Run(s, steps).value, last))
    decreases |steps|
  {
    if steps == [] {
      assert [] + [last] == [last] && [last][1..] == [];
    } else {
      assert (steps + [last])[0] == steps[0] && (steps + [last])[1..] == steps[1..] + [last];
      RunSnoc(Apply(s, steps[0]), steps[1..], last);
    }
  }

  /** A refresh that read the row before the update brings the old bio back. */
  lemma StaleRefreshLosesBio(sub: Str, was: Str, edited: Str, profile: Profile) returns (steps: seq<Step>)
    requires sub != [] && was != []
    ensures Run(Init(), steps).Some? && BioIs(Run(Init(), steps).value, sub, was)
    ensures |steps| >= 2 && steps[|steps| - 2] == EditProfile(sub, Some(edited), None, 0)
  {
    var s := Init();
    RunSnoc(s, [], Read(0, sub, 0));
    steps := [] + [Read(0, sub, 0)];
    RunSnoc(s, steps, WriteBack(0, NoToken, 0));
    steps := steps + [WriteBack(0, NoToken, 0)];
    RunSnoc(s, steps, EditProfile(sub, Some(was), None, 0));
    steps := steps + [EditProfile(sub, Some(was), None, 0)];
    RunSnoc(s, steps, Read(1, sub, 0));
    steps := steps + [Read(1, sub, 0)];
    RunSnoc(s, steps, EditProfile(sub, Some(edited), None, 0));
    steps := steps + [EditProfile(sub, Some(edited), None, 0)];
    RunSnoc(s, steps, WriteBack(1, Fetched(profile), 0));
    steps := steps + [WriteBack(1, Fetched(profile), 0)];
  }
}
