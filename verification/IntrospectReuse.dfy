/**
 What the introspection cache is for: a session that was published is handed to
 later callers without another upstream request, for as long as it may be.
 Freshness is written out here, independently of the cache's own test.
 */
module IntrospectReuse {
  import opened Text
  import opened Wrappers
  import opened IntrospectCache
  import M = IntrospectInterleaving

  /** Read less than the TTL before `at`, and not expired at `at`. */
  predicate Serves(session: Session, readAt: int, at: int, ttl: int) {
    && at - readAt < ttl
    && (session.expiresAt.Some? ==> at < session.expiresAt.value)
  }

  /** The four ways a session remembered for `token` can go. */
  predicate Ends(s: M.State, step: M.Step, token: Str, session: Session, readAt: int)
    requires M.Enabled(s, step)
  {
    match step
    case Publish(q) => s.callers[q].token == token && s.mem.calls[s.callers[q].call].result.value.Ok?
    case Invalidate(t) => t == token
    case Sweep(at) => !Serves(session, readAt, at, s.ttl)
    case Enter(q) => s.callers[q].token == token && !Serves(session, readAt, s.callers[q].now, s.ttl)
    case _ => false
  }

  predicate Undisturbed(s: M.State, steps: seq<M.Step>, token: Str, session: Session, readAt: int)
    decreases |steps|
  {
    steps == []
    || (&& M.Enabled(s, steps[0])
        && !Ends(s, steps[0], token, session, readAt)
        && Undisturbed(M.Apply(s, steps[0]), steps[1..], token, session, readAt))
  }

  ghost predicate Remembers(s: M.State, token: Str, session: Session, readAt: int) {
    token in s.mem.items && s.mem.items[token] == Entry(session, readAt)
  }

  lemma StepRemembers(s: M.State, step: M.Step, token: Str, session: Session, readAt: int)
    requires Remembers(s, token, session, readAt)
    requires M.Enabled(s, step) && !Ends(s, step, token, session, readAt)
    ensures Remembers(M.Apply(s, step), token, session, readAt) && M.Apply(s, step).ttl == s.ttl
  {}

  lemma {:induction false} RunRemembers(s: M.State, steps: seq<M.Step>, token: Str, session: Session, readAt: int)
    requires Remembers(s, token, session, readAt) && Undisturbed(s, steps, token, session, readAt)
    ensures M.Run(s, steps).Some?
    ensures Remembers(M.Run(s, steps).value, token, session, readAt)
    ensures M.Run(s, steps).value.ttl == s.ttl
    decreases |steps|
  {
    if steps != [] {
      StepRemembers(s, steps[0], token, session, readAt);
      RunRemembers(M.Apply(s, steps[0]), steps[1..], token, session, readAt);
    }
  }

  /** `p` takes the lock and is done: no waiting, no upstream request, nothing else changed. */
  predicate ServedAtOnce(s: M.State, p: nat, session: Session)
    requires M.In(s, p, M.Reading)
  {
    var s' := M.Apply(s, M.Enter(p));
    && p in s'.callers && s'.callers[p].phase.Finished? && s'.callers[p].phase.reply == Ok(session)
    && s'.origins == s.origins && s'.mem == s.mem
  }

  /**
   In every run: once a caller that read the clock at `readAt` has published a session, and
   as long as no later step ends it, whoever takes the lock for that token on a reading
   the session still serves gets it at once.
   */
  lemma PublishedIsServed(ttl: int, clock: int, before: seq<M.Step>, q: nat, session: Session,
      after: seq<M.Step>, p: nat)
    requires M.Run(M.Init(ttl, clock), before).Some?
    requires
      var s := M.Run(M.Init(ttl, clock), before).value;
      && M.Enabled(s, M.Publish(q))
      && s.mem.calls[s.callers[q].call].result == Some(Ok(session))
      && Undisturbed(M.Apply(s, M.Publish(q)), after, s.callers[q].token, session, s.callers[q].now)
    ensures
      var s := M.Run(M.Init(ttl, clock), before).value;
      M.Run(M.Apply(s, M.Publish(q)), after).Some?
      && var s2 := M.Run(M.Apply(s, M.Publish(q)), after).value;
      M.In(s2, p, M.Reading) && s2.callers[p].token == s.callers[q].token
      && Serves(session, s.callers[q].now, s2.callers[p].now, s.ttl)
      ==> ServedAtOnce(s2, p, session)
  {
    var s := M.Run(M.Init(ttl, clock), before).value;
    RunRemembers(M.Apply(s, M.Publish(q)), after, s.callers[q].token, session, s.callers[q].now);
  }

  /** A failure is remembered for nobody and costs no other token its session. */
  lemma FailureIsNotRemembered(s: M.State, q: nat)
    requires M.Enabled(s, M.Publish(q)) && s.mem.calls[s.callers[q].call].result == Some(Err)
    ensures M.Apply(s, M.Publish(q)).mem.items == s.mem.items
    ensures s.callers[q].token !in M.Apply(s, M.Publish(q)).mem.inFlight
  {}

  /** After a sweep exactly the sessions that still serve at its reading are left. */
  lemma SweepKeepsServing(s: M.State, at: int, token: Str)
    requires M.Enabled(s, M.Sweep(at))
    ensures
      var items := M.Apply(s, M.Sweep(at)).mem.items;
      token in items <==>
        token in s.mem.items && Serves(s.mem.items[token].session, s.mem.items[token].fetchedAt, at, s.ttl)
    ensures token in M.Apply(s, M.Sweep(at)).mem.items ==>
      M.Apply(s, M.Sweep(at)).mem.items[token] == s.mem.items[token]
  {}

  // ----- one answer for everyone waiting -----

  /** A finished caller holds the answer of the call it names, success or failure. */
  predicate HoldsAnswer(s: M.State, p: nat)
    requires p in s.callers
  {
    var phase := s.callers[p].phase;
    phase.Finished? && phase.from.Some? ==>
      phase.from.value < |s.mem.calls| && s.mem.calls[phase.from.value].result == Some(phase.reply)
  }

  /** A closed call's leader finished with that call. */
  predicate LeaderDone(s: M.State, k: nat)
    requires k < |s.mem.calls| == |s.origins|
  {
    s.mem.calls[k].done ==>
      var leader := s.origins[k].leader;
      leader in s.callers && s.callers[leader].phase.Finished? && s.callers[leader].phase.from == Some(k)
  }

  ghost predicate Shared(s: M.State) {
    && |s.mem.calls| == |s.origins|
    && (forall p :: p in s.callers ==> HoldsAnswer(s, p))
    && (forall k: nat :: k < |s.mem.calls| ==> LeaderDone(s, k))
  }

  lemma StepHolds(s: M.State, step: M.Step, p: nat)
    requires M.Inv(s) && Shared(s) && M.Enabled(s, step) && p in M.Apply(s, step).callers
    ensures HoldsAnswer(M.Apply(s, step), p)
  {
    if p in s.callers { assert HoldsAnswer(s, p); }
    if step.UpstreamReturn? { assert M.CallerOk(s, step.p); }
    if step.Enter? && step.p == p && s.callers[p].token in s.mem.items { assert M.ItemOk(s, s.callers[p].token); }
  }

  lemma CloseLeads(s: M.State, p: nat, k: nat)
    requires M.Inv(s) && Shared(s) && M.Enabled(s, M.Close(p)) && k < |s.mem.calls|
    ensures LeaderDone(M.Apply(s, M.Close(p)), k)
  {
    assert LeaderDone(s, k);
    assert M.CallerOk(s, p);
  }

  /** No other step closes a call or moves a finished caller. */
  lemma StepLeads(s: M.State, step: M.Step, k: nat)
    requires Shared(s) && M.Enabled(s, step) && !step.Close? && k < |M.Apply(s, step).mem.calls|
    ensures |M.Apply(s, step).mem.calls| == |M.Apply(s, step).origins| && LeaderDone(M.Apply(s, step), k)
  {
    if k < |s.mem.calls| { assert LeaderDone(s, k); }
  }

  lemma {:induction false} RunShares(s: M.State, steps: seq<M.Step>)
    requires M.Inv(s) && Shared(s) && M.Run(s, steps).Some?
    ensures M.Inv(M.Run(s, steps).value) && Shared(M.Run(s, steps).value)
    decreases |steps|
  {
    if steps != [] {
      var s' := M.Apply(s, steps[0]);
      M.StepKeeps(s, steps[0]);
      forall p | p in s'.callers ensures HoldsAnswer(s', p) { StepHolds(s, steps[0], p); }
      forall k: nat | k < |s'.mem.calls| ensures LeaderDone(s', k) {
        if steps[0].Close? { CloseLeads(s, steps[0].p, k); } else { StepLeads(s, steps[0], k); }
      }
      RunShares(s', steps[1..]);
    }
  }

  /** In every run: a waiter that wakes gets what its call's leader got, success or failure. */
  lemma WaiterGetsLeadersAnswer(ttl: int, clock: int, steps: seq<M.Step>, p: nat)
    requires M.Run(M.Init(ttl, clock), steps).Some?
    ensures
      var s := M.Run(M.Init(ttl, clock), steps).value;
      M.Enabled(s, M.Wake(p)) && s.callers[p].call < |s.origins| ==>
        var leader, woken := s.origins[s.callers[p].call].leader, M.Apply(s, M.Wake(p)).callers[p];
        && leader in s.callers && s.callers[leader].phase.Finished?
        && woken.phase.Finished? && woken.phase.reply == s.callers[leader].phase.reply
  {
    RunShares(M.Init(ttl, clock), steps);
    var s := M.Run(M.Init(ttl, clock), steps).value;
    if M.Enabled(s, M.Wake(p)) && s.callers[p].call < |s.origins| {
      var k := s.callers[p].call;
      assert LeaderDone(s, k);
      assert HoldsAnswer(s, s.origins[k].leader);
    }
  }

  // ----- one caller at a time -----

  /** Two calls in a row: inside the window the second is answered from the cache. */
  lemma SecondCallIsServed(m: Memory, token: Str, now: int, later: int, ttl: int, session: Session,
      upstream: Result<Session>)
    requires token !in m.inFlight
    requires token in m.items ==> !Serves(m.items[token].session, m.items[token].fetchedAt, now, ttl)
    ensures
      var (m1, r1) := Sequential(m, token, now, ttl, Ok(session));
      && r1 == Returned(Ok(session))
      && |m1.calls| == |m.calls| + 1
      && (Serves(session, now, later, ttl) ==>
            Sequential(m1, token, later, ttl, upstream) == (m1, Returned(Ok(session))))
      && (!Serves(session, now, later, ttl) ==>
            var (m2, r2) := Sequential(m1, token, later, ttl, upstream);
            r2 == Returned(upstream) && |m2.calls| == |m1.calls| + 1)
  {}

  /** A failed call is not cached: the next one goes upstream, whenever it comes. */
  lemma FailedCallIsRepeated(m: Memory, token: Str, now: int, later: int, ttl: int, upstream: Result<Session>)
    requires token !in m.inFlight
    requires token in m.items ==> !Serves(m.items[token].session, m.items[token].fetchedAt, now, ttl)
    ensures
      var (m1, r1) := Sequential(m, token, now, ttl, Err);
      && r1 == Returned(Err)
      && m1.items == m.items - {token}
      && var (m2, r2) := Sequential(m1, token, later, ttl, upstream);
      r2 == Returned(upstream) && |m2.calls| == |m.calls| + 2
  {}

  /** A whole call's steps when no other caller runs in between. */
  function CallSteps(s: M.State, p: nat, token: Str, answer: Result<Session>): seq<M.Step> {
    if token in s.mem.items && Serves(s.mem.items[token].session, s.mem.items[token].fetchedAt, s.clock, s.ttl)
    then [M.Begin(p, token), M.Enter(p)]
    else [M.Begin(p, token), M.Enter(p)] + Upstream(p, answer)
  }

  /** What a caller that leads its call still does. */
  function Upstream(p: nat, answer: Result<Session>): seq<M.Step> {
    [M.UpstreamReturn(p, answer), M.Publish(p), M.Close(p)]
  }

  lemma RunOne(s: M.State, a: M.Step)
    requires M.Enabled(s, a)
    ensures M.Run(s, [a]) == Some(M.Apply(s, a))
  {
    assert [a][1..] == [];
  }

  lemma {:induction false} RunsConcat(s: M.State, a: seq<M.Step>, b: seq<M.Step>)
    requires M.Run(s, a).Some?
    ensures M.Run(s, a + b) == M.Run(M.Run(s, a).value, b)
    decreases |a|
  {
    if a == [] {
      assert a + b == b;
    } else {
      assert (a + b)[0] == a[0] && (a + b)[1..] == a[1..] + b;
      RunsConcat(M.Apply(s, a[0]), a[1..], b);
    }
  }

  lemma RunTwo(s: M.State, a: M.Step, b: M.Step)
    requires M.Enabled(s, a) && M.Enabled(M.Apply(s, a), b)
    ensures M.Run(s, [a, b]) == Some(M.Apply(M.Apply(s, a), b))
  {
    RunOne(s, a);
    RunOne(M.Apply(s, a), b);
    RunsConcat(s, [a], [b]);
    assert [a] + [b] == [a, b];
  }

  /** A leader alone: the answer is returned, published and its call closed. */
  lemma UpstreamRuns(s: M.State, p: nat, answer: Result<Session>)
    requires M.In(s, p, M.Calling) && s.callers[p].call < |s.mem.calls| == |s.origins|
    ensures M.Run(s, Upstream(p, answer)).Some?
    ensures
      var s', c := M.Run(s, Upstream(p, answer)).value, s.callers[p];
      && s'.mem == Close(Publish(Return(s.mem, c.call, answer), c.token, c.call, c.now), c.call)
      && p in s'.callers && s'.callers[p].phase.Finished? && s'.callers[p].phase.reply == answer
  {
    var s1 := M.Apply(s, M.UpstreamReturn(p, answer));
    var s2 := M.Apply(s1, M.Publish(p));
    RunTwo(s, M.UpstreamReturn(p, answer), M.Publish(p));
    RunOne(s2, M.Close(p));
    RunsConcat(s, [M.UpstreamReturn(p, answer), M.Publish(p)], [M.Close(p)]);
    assert [M.UpstreamReturn(p, answer), M.Publish(p)] + [M.Close(p)] == Upstream(p, answer);
  }

  /** Coming in alone: a hit is returned at once, otherwise the caller leads a call of its own. */
  lemma EntersAlone(s: M.State, p: nat, token: Str)
    requires |s.mem.calls| == |s.origins| && p !in s.callers && token !in s.mem.inFlight
    ensures M.Run(s, [M.Begin(p, token), M.Enter(p)]).Some?
    ensures
      var s' := M.Run(s, [M.Begin(p, token), M.Enter(p)]).value;
      var (mem, o) := Lookup(s.mem, token, s.clock, s.ttl);
      && s'.mem == mem && p in s'.callers
      && (o.Hit? ==> s'.callers[p].phase.Finished? && s'.callers[p].phase.reply == Ok(o.session))
      && (!o.Hit? ==> && o == Lead(s'.callers[p].call) && M.In(s', p, M.Calling)
                      && s'.callers[p].call < |mem.calls| == |s'.origins|
                      && s'.callers[p].token == token && s'.callers[p].now == s.clock)
  {
    RunTwo(s, M.Begin(p, token), M.Enter(p));
  }

  /** `Sequential` is the machine's run of an undisturbed call's steps. */
  lemma CallIsItsSteps(s: M.State, p: nat, token: Str, answer: Result<Session>)
    requires |s.mem.calls| == |s.origins| && p !in s.callers && token !in s.mem.inFlight
    ensures M.Run(s, CallSteps(s, p, token, answer)).Some?
    ensures
      var s' := M.Run(s, CallSteps(s, p, token, answer)).value;
      && s'.mem == Sequential(s.mem, token, s.clock, s.ttl, answer).0
      && p in s'.callers && s'.callers[p].phase.Finished?
      && Sequential(s.mem, token, s.clock, s.ttl, answer).1 == Returned(s'.callers[p].phase.reply)
  {
    EntersAlone(s, p, token);
    var s1 := M.Run(s, [M.Begin(p, token), M.Enter(p)]).value;
    if !Lookup(s.mem, token, s.clock, s.ttl).1.Hit? {
      UpstreamRuns(s1, p, answer);
      RunsConcat(s, [M.Begin(p, token), M.Enter(p)], Upstream(p, answer));
    }
  }
}
