/** The user mirror: in-memory rows, hydration, and the follow use cases. */
module Users {
  import opened Text
  import opened Wrappers
  import opened Follows
  import opened Rfc3339

  datatype User = User(
    sub: Str,
    displayName: Str,
    displayID: Str,
    iconURL: Str,
    refreshedAt: Option<int>,
    bio: Str,
    bannerURL: Str,
    isAdmin: bool,
    followers: nat,
    following: nat,
    createdAt: Option<int>,
    updatedAt: int,
    deletedAt: Option<int>)

  datatype Profile = Profile(publicID: Str, iconURL: Str)

  type Table = map<Str, User>
  type EdgeSet = set<(Str, Str)>

  /** Update keeps server-owned fields and counters; blank bio and banner mean "keep". */
  function Upserted(users: Table, user: User, now: int): Table {
    var stored :=
      if user.sub in users then
        var existing := users[user.sub];
        user.(
          isAdmin := existing.isAdmin,
          createdAt := existing.createdAt,
          deletedAt := existing.deletedAt,
          followers := existing.followers,
          following := existing.following,
          bio := if user.bio == [] then existing.bio else user.bio,
          bannerURL := if user.bannerURL == [] then existing.bannerURL else user.bannerURL)
      else if user.createdAt.None? then user.(createdAt := Some(now))
      else user;
    users[user.sub := stored.(updatedAt := now)]
  }

  function FollowersUp(users: Table, sub: Str): Table {
    if sub in users then users[sub := users[sub].(followers := users[sub].followers + 1)] else users
  }

  function FollowersDown(users: Table, sub: Str): Table {
    if sub in users && users[sub].followers > 0
    then users[sub := users[sub].(followers := users[sub].followers - 1)] else users
  }

  function FollowingUp(users: Table, sub: Str): Table {
    if sub in users then users[sub := users[sub].(following := users[sub].following + 1)] else users
  }

  function FollowingDown(users: Table, sub: Str): Table {
    if sub in users && users[sub].following > 0
    then users[sub := users[sub].(following := users[sub].following - 1)] else users
  }

  /** Copy the fetched profile onto a row; the display name is only filled in once. */
  function WithProfile(user: User, profile: Profile): User {
    user.(
      displayID := profile.publicID,
      iconURL := profile.iconURL,
      displayName := if user.displayName == [] then profile.publicID else user.displayName)
  }

  function Blank(sub: Str, now: int): User {
    User(sub, [], [], [], None, [], [], false, 0, 0, Some(now), now, None)
  }

  /** What the profile service answered, if it was asked at all. */
  datatype Answer = NoToken | Fetched(profile: Profile) | NotFound | Unavailable

  datatype Error = Unauthorized | Invalid | Missing

  /** Hydration by one caller alone: create, reuse, or refresh the mirror row. */
  function Hydrated(users: Table, sub: Str, ttl: int, now: int, answer: Answer): (Table, Result<User>) {
    if sub == [] then (users, Err)
    else if sub !in users then
      match answer
      case NotFound => (users, Err)
      case Fetched(profile) =>
        var u := WithProfile(Blank(sub, now), profile).(refreshedAt := Some(now));
        (Upserted(users, u, now), Ok(Upserted(users, u, now)[sub]))
      case _ => (Upserted(users, Blank(sub, now), now), Ok(Upserted(users, Blank(sub, now), now)[sub]))
    else
      var existing := users[sub];
      if IsRecent(existing, ttl, now) then (users, Ok(existing))
      else
        match answer
        case NotFound => (users, Err)
        case Fetched(profile) =>
          var u := WithProfile(existing, profile).(refreshedAt := Some(now), sub := sub);
          (Upserted(users, u, now), Ok(Upserted(users, u, now)[sub]))
        case _ => (users, Ok(existing))
  }

  /** A never-refreshed row is as old as can be. */
  predicate IsRecent(user: User, ttl: int, now: int) {
    user.refreshedAt.Some? && now - user.refreshedAt.value < ttl
  }

  /** Table, edges, and either the error or (inserted, followers count shown). */
  function FollowCall(users: Table, edges: EdgeSet, follower: Str, followee: Str): (Table, EdgeSet, Result<(bool, nat)>) {
    if follower == [] || followee == [] || follower == followee then (users, edges, Err)
    else if followee !in users || users[followee].deletedAt.Some? then (users, edges, Err)
    else if (follower, followee) in edges then (users, edges, Ok((false, users[followee].followers)))
    else
      (FollowersUp(FollowingUp(users, follower), followee),
       edges + {(follower, followee)},
       Ok((true, users[followee].followers + 1)))
  }

  function UnfollowCall(users: Table, edges: EdgeSet, follower: Str, followee: Str): (Table, EdgeSet, Result<nat>) {
    if follower == [] || follower == followee || followee == [] then (users, edges, Err)
    else
      var users' := if (follower, followee) in edges
                    then FollowersDown(FollowingDown(users, follower), followee) else users;
      (users', edges - {(follower, followee)},
       Ok(if followee in users' then users'[followee].followers else 0))
  }

  class UserRepository {
    var users: Table

    constructor ()
      ensures users == map[]
    {
      users := map[];
    }

    method GetBySub(sub: Str) returns (user: Option<User>)
      ensures user == if sub in users then Some(users[sub]) else None
    {
      user := if sub in users then Some(users[sub]) else None;
    }

    method Upsert(user: User, now: int) returns (saved: User)
      modifies this
      ensures users == Upserted(old(users), user, now)
      ensures saved == users[user.sub]
    {
      var stored := user;
      if user.sub in users {
        var existing := users[user.sub];
        stored := stored.(isAdmin := existing.isAdmin, createdAt := existing.createdAt, deletedAt := existing.deletedAt);
        stored := stored.(followers := existing.followers, following := existing.following);
        if stored.bio == [] {
          stored := stored.(bio := existing.bio);
        }
        if stored.bannerURL == [] {
          stored := stored.(bannerURL := existing.bannerURL);
        }
      } else if stored.createdAt.None? {
        stored := stored.(createdAt := Some(now));
      }
      stored := stored.(updatedAt := now);
      users := users[user.sub := stored];
      saved := stored;
    }

    method IncrementFollowersCount(sub: Str)
      modifies this
      ensures users == FollowersUp(old(users), sub)
    {
      if sub in users {
        users := users[sub := users[sub].(followers := users[sub].followers + 1)];
      }
    }

    method DecrementFollowersCount(sub: Str)
      modifies this
      ensures users == FollowersDown(old(users), sub)
    {
      if sub in users && users[sub].followers > 0 {
        users := users[sub := users[sub].(followers := users[sub].followers - 1)];
      }
    }

    method IncrementFollowingCount(sub: Str)
      modifies this
      ensures users == FollowingUp(old(users), sub)
    {
      if sub in users {
        users := users[sub := users[sub].(following := users[sub].following + 1)];
      }
    }

    method DecrementFollowingCount(sub: Str)
      modifies this
      ensures users == FollowingDown(old(users), sub)
    {
      if sub in users && users[sub].following > 0 {
        users := users[sub := users[sub].(following := users[sub].following - 1)];
      }
    }
  }

  method Follow(repo: UserRepository, follows: FollowRepository, follower: Str, followee: Str, now: Time)
    returns (r: Result<(bool, nat)>)
    modifies repo, follows
    ensures (repo.users, follows.follows.Keys, r)
         == FollowCall(old(repo.users), old(follows.follows.Keys), follower, followee)
  {
    if follower == [] || followee == [] || follower == followee {
      return Err;
    }
    var target := repo.GetBySub(followee);
    if target.None? || target.value.deletedAt.Some? {
      return Err;
    }
    var inserted := follows.Create(follower, followee, now);
    var count := target.value.followers;
    if inserted {
      repo.IncrementFollowingCount(follower);
      repo.IncrementFollowersCount(followee);
      count := count + 1;
    }
    assert follows.follows.Keys == old(follows.follows.Keys) + (if inserted then {(follower, followee)} else {});
    r := Ok((inserted, count));
  }

  method Unfollow(repo: UserRepository, follows: FollowRepository, follower: Str, followee: Str)
    returns (r: Result<nat>)
    modifies repo, follows
    ensures (repo.users, follows.follows.Keys, r)
         == UnfollowCall(old(repo.users), old(follows.follows.Keys), follower, followee)
  {
    if follower == [] {
      return Err;
    }
    if follower == followee || followee == [] {
      return Err;
    }
    var removed := follows.Delete(follower, followee);
    if removed {
      repo.DecrementFollowingCount(follower);
      repo.DecrementFollowersCount(followee);
    }
    var refreshed := repo.GetBySub(followee);
    r := Ok(if refreshed.Some? then refreshed.value.followers else 0);
  }

  /** `GetOrHydrateUserUseCase.Execute`; `answer` is what the profile service would say. */
  method Hydrate(repo: UserRepository, sub: Str, ttl: int, now: int, answer: Answer) returns (r: Result<User>)
    requires forall s :: s in repo.users ==> repo.users[s].sub == s
    modifies repo
    ensures (repo.users, r) == Hydrated(old(repo.users), sub, ttl, now, answer)
  {
    if sub == [] {
      return Err;
    }
    var existing := repo.GetBySub(sub);
    var user: User;
    if existing.None? {
      user := Blank(sub, now);
      if answer.Fetched? {
        user := WithProfile(user, answer.profile);
        user := user.(refreshedAt := Some(now));
      } else if answer.NotFound? {
        return Err;
      }
    } else {
      if IsRecent(existing.value, ttl, now) {
        return Ok(existing.value);
      }
      if answer.NotFound? {
        return Err;
      }
      if !answer.Fetched? {
        return Ok(existing.value);
      }
      user := WithProfile(existing.value, answer.profile);
      user := user.(refreshedAt := Some(now));
    }
    var saved := repo.Upsert(user, now);
    r := Ok(saved);
  }
}
