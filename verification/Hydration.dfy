/** What a caller of hydration sees, field by field, and the read and write it is made of. */
module Hydration {
  import opened Text
  import opened Wrappers
  import opened Users
  import opened FollowCounters

  /** The two profile fields are replaced, and an empty display name is filled with the public id. */
  predicate Shows(user: User, profile: Profile, name: Str) {
    && user.displayID == profile.publicID && user.iconURL == profile.iconURL
    && user.displayName == if name == "" then profile.publicID else name
  }

  /** Refreshed less than `ttl` ago; a row never refreshed is not. */
  predicate Young(user: User, ttl: int, now: int) {
    user.refreshedAt.Some? && now < user.refreshedAt.value + ttl
  }

  /** No other row is touched. */
  predicate OnlyRow(users: Table, users': Table, sub: Str) {
    users'.Keys == users.Keys + {sub} && forall u :: u in users && u != sub ==> users'[u] == users[u]
  }

  /** A first visit creates a row with no followers, not an admin, filled from the profile if there is one. */
  lemma FirstVisit(users: Table, sub: Str, ttl: int, now: int, answer: Answer)
    requires sub != "" && sub !in users
    ensures
      var (users', r) := Hydrated(users, sub, ttl, now, answer);
      && (answer.NotFound? <==> r.Err?)
      && (r.Err? ==> users' == users)
      && (r.Ok? ==>
            && OnlyRow(users, users', sub) && users'[sub] == r.value
            && r.value.sub == sub && r.value.followers == 0 && r.value.following == 0 && !r.value.isAdmin
            && r.value.createdAt == Some(now) && r.value.updatedAt == now && r.value.deletedAt.None?
            && r.value.bio == "" && r.value.bannerURL == ""
            && (answer.Fetched? ==> Shows(r.value, answer.profile, "") && r.value.refreshedAt == Some(now))
            && (!answer.Fetched? ==> r.value.displayID == "" && r.value.displayName == "" && r.value.refreshedAt.None?))
  {}

  /** Nobody is no user. */
  lemma NobodyIsRefused(users: Table, ttl: int, now: int, answer: Answer)
    ensures Hydrated(users, "", ttl, now, answer) == (users, Err)
  {}

  /** The fields a refresh may not touch. */
  predicate KeepsOwn(before: User, after: User) {
    && after.sub == before.sub && after.isAdmin == before.isAdmin
    && after.followers == before.followers && after.following == before.following
    && after.bio == before.bio && after.bannerURL == before.bannerURL
    && after.createdAt == before.createdAt && after.deletedAt == before.deletedAt
  }

  /**
   A later visit: a row refreshed less than the TTL ago comes back as it is; an older one takes the
   profile fields and keeps all others; without a profile it comes back as it is, or as an error
   when the profile is gone.
   */
  lemma LaterVisit(users: Table, sub: Str, ttl: int, now: int, answer: Answer)
    requires sub != "" && sub in users && users[sub].sub == sub
    ensures
      var (users', r) := Hydrated(users, sub, ttl, now, answer);
      && (r.Err? <==> !Young(users[sub], ttl, now) && answer.NotFound?)
      && (Young(users[sub], ttl, now) || !answer.Fetched? ==> users' == users && (r.Ok? ==> r.value == users[sub]))
      && (!Young(users[sub], ttl, now) && answer.Fetched? ==>
            && r.Ok? && OnlyRow(users, users', sub) && users'[sub] == r.value
            && KeepsOwn(users[sub], r.value) && Shows(r.value, answer.profile, users[sub].displayName)
            && r.value.refreshedAt == Some(now) && r.value.updatedAt == now)
  {}

  /** A refreshed row stays young for the TTL: no visit in between asks for the profile again. */
  lemma RefreshLasts(users: Table, sub: Str, ttl: int, now: int, profile: Profile, later: int, answer: Answer)
    requires sub != "" && (sub in users ==> users[sub].sub == sub && !Young(users[sub], ttl, now))
    requires later < now + ttl
    ensures
      var (users1, r) := Hydrated(users, sub, ttl, now, Fetched(profile));
      Hydrated(users1, sub, ttl, later, answer) == (users1, r)
  {}

  /** A stored copy: counters and server-owned fields stay, absent texts stay, everything else is the copy's. */
  lemma UpsertedRow(users: Table, user: User, now: int)
    requires user.sub in users
    ensures
      var row, was := Upserted(users, user, now)[user.sub], users[user.sub];
      && OnlyRow(users, Upserted(users, user, now), user.sub)
      && row.followers == was.followers && row.following == was.following
      && row.isAdmin == was.isAdmin && row.createdAt == was.createdAt && row.deletedAt == was.deletedAt
      && row.bio == (if user.bio == "" then was.bio else user.bio)
      && row.bannerURL == (if user.bannerURL == "" then was.bannerURL else user.bannerURL)
      && row.displayName == user.displayName && row.displayID == user.displayID && row.iconURL == user.iconURL
      && row.refreshedAt == user.refreshedAt && row.updatedAt == now && row.sub == user.sub
  {}

  /** A new row is the copy, stamped with the time it was stored and, if it had none, of its creation. */
  lemma InsertedRow(users: Table, user: User, now: int)
    requires user.sub !in users
    ensures
      var row := Upserted(users, user, now)[user.sub];
      && OnlyRow(users, Upserted(users, user, now), user.sub)
      && row == user.(createdAt := row.createdAt, updatedAt := now)
      && row.createdAt == (if user.createdAt.Some? then user.createdAt else Some(now))
  {}

  /** A profile update sets the fields it names and keeps the rest. */
  lemma EditedRow(s: State, sub: Str, bio: Option<Str>, bannerURL: Option<Str>, now: int)
    requires sub in s.users
    ensures
      var s' := Apply(s, EditProfile(sub, bio, bannerURL, now));
      && OnlyRow(s.users, s'.users, sub) && s'.edges == s.edges
      && s'.users[sub].bio == (if bio.Some? then bio.value else s.users[sub].bio)
      && s'.users[sub].bannerURL == (if bannerURL.Some? then bannerURL.value else s.users[sub].bannerURL)
      && s'.users[sub] == s.users[sub].(bio := s'.users[sub].bio, bannerURL := s'.users[sub].bannerURL, updatedAt := now)
  {}

  /** `Hydrated` is an undisturbed read and write-back, unless the row is still young. */
  lemma HydrationIsItsSteps(s: State, p: nat, sub: Str, ttl: int, now: int, answer: Answer)
    requires p !in s.copies && sub != "" && (sub in s.users ==> s.users[sub].sub == sub)
    requires sub in s.users ==> !Young(s.users[sub], ttl, now)
    ensures Run(s, [Read(p, sub, now), WriteBack(p, answer, now)]) ==
      Some(s.(users := Hydrated(s.users, sub, ttl, now, answer).0))
  {
    RunSnoc(s, [], Read(p, sub, now));
    var s1 := Apply(s, Read(p, sub, now));
    assert [] + [Read(p, sub, now)] == [Read(p, sub, now)];
    RunSnoc(s, [Read(p, sub, now)], WriteBack(p, answer, now));
    assert [Read(p, sub, now)] + [WriteBack(p, answer, now)] == [Read(p, sub, now), WriteBack(p, answer, now)];
    assert s1.copies - {p} == s.copies;
  }
}
