/**
 Every interleaving of concurrent `Introspect` calls with `Invalidate` and
 `SweepExpired`. Each step is one clock read, one critical section, one upstream
 return or one channel close; `origins`, `source`, `invalidated` and `events`
 are history kept only to state where a returned session came from.
 */
module IntrospectInterleaving {
  import opened Text
  import opened Wrappers
  import opened IntrospectCache

  datatype Phase =
    | Reading                       // clock read, lock not yet taken
    | Waiting                       // blocked on another caller's call
    | Calling                       // upstream request in progress
    | Fetched                       // upstream returned, publish pending
    | Publishing                    // published, channel not yet closed
    | Finished(reply: Result<Session>, from: Option<nat>)

  datatype Caller = Caller(token: Str, now: int, seenAt: nat, call: nat, phase: Phase)

  /** Who led a call, on which clock reading, and at which event it published. */
  datatype Origin = Origin(token: Str, leader: nat, readAt: int, published: Option<nat>)

  datatype State = State(
    ttl: int,
    clock: int,
    events: nat,
    mem: Memory,
    callers: map<nat, Caller>,
    origins: seq<Origin>,
    source: map<Str, nat>,
    invalidated: map<Str, nat>)

  datatype Step =
    | Tick(d: nat)
    | Begin(p: nat, token: Str)
    | Enter(p: nat)
    | UpstreamReturn(p: nat, result: Result<Session>)
    | Publish(p: nat)
    | Close(p: nat)
    | Wake(p: nat)
    | Cancel(p: nat)
    | Invalidate(token: Str)
    | Sweep(readAt: int)

  predicate In(s: State, p: nat, phase: Phase) {
    p in s.callers && s.callers[p].phase == phase
  }

  predicate Enabled(s: State, step: Step) {
    match step
    case Tick(_) => true
    case Begin(p, _) => p !in s.callers
    case Enter(p) => In(s, p, Reading)
    case UpstreamReturn(p, _) => In(s, p, Calling) && s.callers[p].call < |s.mem.calls|
    case Publish(p) =>
      && In(s, p, Fetched)
      && s.callers[p].call < |s.mem.calls| == |s.origins|
      && s.mem.calls[s.callers[p].call].result.Some?
    case Close(p) =>
      && In(s, p, Publishing)
      && s.callers[p].call < |s.mem.calls|
      && s.mem.calls[s.callers[p].call].result.Some?
    case Wake(p) =>
      && In(s, p, Waiting)
      && s.callers[p].call < |s.mem.calls|
      && s.mem.calls[s.callers[p].call].done
      && s.mem.calls[s.callers[p].call].result.Some?
    case Cancel(p) => In(s, p, Waiting)
    case Invalidate(_) => true
    case Sweep(readAt) => readAt <= s.clock
  }

  function Entered(s: State, p: nat): State
    requires In(s, p, Reading)
  {
    var c := s.callers[p];
    var (mem, o) := Lookup(s.mem, c.token, c.now, s.ttl);
    var c' := c.(seenAt := s.events);
    match o
    case Hit(session) =>
      var from := if c.token in s.source then Some(s.source[c.token]) else None;
      s.(mem := mem, callers := s.callers[p := c'.(phase := Finished(Ok(session), from))])
    case Join(call) =>
      s.(mem := mem, callers := s.callers[p := c'.(call := call, phase := Waiting)])
    case Lead(call) =>
      s.(mem := mem,
         callers := s.callers[p := c'.(call := call, phase := Calling)],
         origins := s.origins + [Origin(c.token, p, c.now, None)])
  }

  function Effect(s: State, step: Step): State
    requires Enabled(s, step)
  {
    match step
    case Tick(d) => s.(clock := s.clock + d)
    case Begin(p, token) => s.(callers := s.callers[p := Caller(token, s.clock, 0, 0, Reading)])
    case Enter(p) => Entered(s, p)
    case UpstreamReturn(p, result) =>
      s.(mem := Return(s.mem, s.callers[p].call, result),
         callers := s.callers[p := s.callers[p].(phase := Fetched)])
    case Publish(p) =>
      var c := s.callers[p];
      s.(mem := IntrospectCache.Publish(s.mem, c.token, c.call, c.now),
         callers := s.callers[p := c.(phase := Publishing)],
         origins := s.origins[c.call := s.origins[c.call].(published := Some(s.events))],
         source := if s.mem.calls[c.call].result.value.Ok? then s.source[c.token := c.call] else s.source)
    case Close(p) =>
      var c := s.callers[p];
      s.(mem := IntrospectCache.Close(s.mem, c.call),
         callers := s.callers[p := c.(phase := Finished(s.mem.calls[c.call].result.value, Some(c.call)))])
    case Wake(p) =>
      var c := s.callers[p];
      s.(callers := s.callers[p := c.(phase := Finished(s.mem.calls[c.call].result.value, Some(c.call)))])
    case Cancel(p) =>
      s.(callers := s.callers[p := s.callers[p].(phase := Finished(Err, None))])
    case Invalidate(token) =>
      s.(mem := s.mem.(items := s.mem.items - {token}), invalidated := s.invalidated[token := s.events])
    case Sweep(readAt) =>
      s.(mem := s.mem.(items := Swept(s.mem.items, readAt, s.ttl)))
  }

  function Apply(s: State, step: Step): State
    requires Enabled(s, step)
  {
    Effect(s, step).(events := s.events + 1)
  }

  function Init(ttl: int, clock: int): State {
    State(ttl, clock, 0, Memory(map[], map[], []), map[], [], map[], map[])
  }

  /** The state after a schedule, or None when some step was not enabled. */
  function Run(s: State, steps: seq<Step>): Option<State>
    decreases |steps|
  {
    if steps == [] then Some(s)
    else if Enabled(s, steps[0]) then Run(Apply(s, steps[0]), steps[1..])
    else None
  }

  // ----- invariant -----

  predicate Leads(s: State, c: nat) {
    && c < |s.origins|
    && s.origins[c].leader in s.callers
    && s.callers[s.origins[c].leader].call == c
    && s.callers[s.origins[c].leader].phase in {Calling, Fetched, Publishing}
  }

  predicate CallOk(s: State, c: nat)
    requires c < |s.mem.calls| == |s.origins|
  {
    var call, o := s.mem.calls[c], s.origins[c];
    && (call.done ==> o.published.Some?)
    && (o.published.Some? ==> call.result.Some? && o.published.value < s.events)
  }

  predicate FlightOk(s: State, t: Str)
    requires t in s.mem.inFlight
  {
    var c := s.mem.inFlight[t];
    && Leads(s, c)
    && s.origins[c].token == t
    && s.callers[s.origins[c].leader].phase != Publishing
  }

  /** A leader owns its call record and, until it publishes, its in-flight entry. */
  predicate LeaderOk(s: State, p: nat)
    requires p in s.callers && |s.mem.calls| == |s.origins|
  {
    var c := s.callers[p];
    && c.call < |s.origins|
    && s.origins[c.call].(published := None) == Origin(c.token, p, c.now, None)
    && !s.mem.calls[c.call].done
    && (c.phase != Publishing ==>
      && s.origins[c.call].published.None?
      && c.token in s.mem.inFlight && s.mem.inFlight[c.token] == c.call)
    && (c.phase != Calling ==> s.mem.calls[c.call].result.Some?)
    && (c.phase == Calling ==> s.mem.calls[c.call].result.None?)
    && (c.phase == Publishing ==> s.origins[c.call].published.Some?)
  }

  predicate WaiterOk(s: State, p: nat)
    requires p in s.callers && |s.mem.calls| == |s.origins|
  {
    var c := s.callers[p];
    && c.call < |s.origins|
    && s.origins[c.call].token == c.token
    && (s.origins[c.call].published.Some? ==> c.seenAt < s.origins[c.call].published.value)
    && (s.mem.calls[c.call].done || Leads(s, c.call))
  }

  /** Where a returned session came from, and how old it may be. */
  predicate Sourced(s: State, p: nat)
    requires p in s.callers && s.callers[p].phase.Finished?
  {
    var c := s.callers[p];
    c.phase.reply.Ok? ==>
      && c.phase.from.Some?
      && var k := c.phase.from.value;
      && k < |s.mem.calls| == |s.origins|
      && s.origins[k].token == c.token
      && s.mem.calls[k].result == Some(c.phase.reply)
      && (|| s.origins[k].leader == p
          || (s.origins[k].published.Some? && c.seenAt < s.origins[k].published.value)
          || IsFresh(Entry(c.phase.reply.value, s.origins[k].readAt), c.now, s.ttl))
  }

  predicate CallerOk(s: State, p: nat)
    requires p in s.callers && |s.mem.calls| == |s.origins|
  {
    match s.callers[p].phase
    case Reading => true
    case Waiting => WaiterOk(s, p) && s.callers[p].seenAt < s.events
    case Finished(_, _) => Sourced(s, p)
    case _ => LeaderOk(s, p)
  }

  predicate ItemOk(s: State, t: Str)
    requires t in s.mem.items
  {
    && t in s.source
    && var c := s.source[t];
    && c < |s.mem.calls| == |s.origins|
    && s.origins[c].token == t
    && s.origins[c].published.Some?
    && s.mem.calls[c].result == Some(Ok(s.mem.items[t].session))
    && s.origins[c].readAt == s.mem.items[t].fetchedAt
    && (t in s.invalidated ==> s.invalidated[t] < s.origins[c].published.value)
  }

  ghost predicate Inv(s: State) {
    && |s.mem.calls| == |s.origins|
    && (forall c: nat :: c < |s.origins| ==> CallOk(s, c))
    && (forall t :: t in s.mem.inFlight ==> FlightOk(s, t))
    && (forall p :: p in s.callers ==> CallerOk(s, p))
    && (forall t :: t in s.mem.items ==> ItemOk(s, t))
    && (forall t :: t in s.invalidated ==> s.invalidated[t] < s.events)
  }

  /** Nothing about calls, callers or origins changes: only items may shrink. */
  lemma QuietStep(s: State, s': State)
    requires Inv(s)
    requires s'.mem.(items := s.mem.items) == s.mem && s'.mem.items.Keys <= s.mem.items.Keys
    requires forall t :: t in s'.mem.items ==> s'.mem.items[t] == s.mem.items[t]
    requires s' == s.(clock := s'.clock, mem := s'.mem, invalidated := s'.invalidated, events := s.events + 1)
    requires forall t :: t in s'.invalidated ==>
      || (t in s.invalidated && s'.invalidated[t] == s.invalidated[t])
      || (t !in s'.mem.items && s'.invalidated[t] == s.events)
    ensures Inv(s')
  {
    forall p | p in s'.callers ensures CallerOk(s', p) { assert CallerOk(s, p); }
    forall t | t in s'.mem.items ensures ItemOk(s', t) { assert ItemOk(s, t); }
    forall t | t in s'.mem.inFlight ensures FlightOk(s', t) { assert FlightOk(s, t); }
    forall c: nat | c < |s'.origins| ensures CallOk(s', c) { assert CallOk(s, c); }
  }

  /** A caller reaches `Finished`, or is new, without touching the shared memory. */
  lemma LocalStep(s: State, s': State, p: nat, c: Caller)
    requires Inv(s)
    requires s' == s.(callers := s.callers[p := c], events := s.events + 1)
    requires p in s.callers ==> s.callers[p].phase in {Reading, Waiting}
    requires CallerOk(s', p)
    ensures Inv(s')
  {
    forall q | q in s'.callers ensures CallerOk(s', q) {
      if q != p { assert CallerOk(s, q); }
    }
    forall t | t in s'.mem.items ensures ItemOk(s', t) { assert ItemOk(s, t); }
    forall t | t in s'.mem.inFlight ensures FlightOk(s', t) { assert FlightOk(s, t); }
    forall k: nat | k < |s'.origins| ensures CallOk(s', k) { assert CallOk(s, k); }
  }

  /** Calls, origins and in-flight entries only grow; only caller `p` moves. */
  ghost predicate Grows(s: State, s': State, p: nat) {
    && |s.origins| == |s.mem.calls| <= |s'.mem.calls| == |s'.origins|
    && (forall k: nat :: k < |s.mem.calls| ==> s'.mem.calls[k] == s.mem.calls[k])
    && (forall k: nat :: k < |s.origins| ==> s'.origins[k] == s.origins[k])
    && (forall t :: t in s.mem.inFlight ==> t in s'.mem.inFlight && s'.mem.inFlight[t] == s.mem.inFlight[t])
    && (forall t :: t in s'.mem.items ==> t in s.mem.items && s'.mem.items[t] == s.mem.items[t])
    && s'.callers.Keys == s.callers.Keys
    && (forall q :: q in s.callers && q != p ==> s'.callers[q] == s.callers[q])
    && s'.source == s.source && s'.invalidated == s.invalidated
    && s'.ttl == s.ttl && s'.events == s.events + 1
  }

  lemma EnterGrows(s: State, p: nat)
    requires |s.mem.calls| == |s.origins| && In(s, p, Reading)
    ensures Grows(s, Apply(s, Enter(p)), p)
  {}

  lemma GrowsKeepsCaller(s: State, s': State, p: nat, q: nat)
    requires Inv(s) && In(s, p, Reading) && Grows(s, s', p) && q in s.callers && q != p
    ensures CallerOk(s', q)
  {
    assert CallerOk(s, q);
  }

  lemma GrowsKeepsRest(s: State, s': State, p: nat)
    requires Inv(s) && In(s, p, Reading) && Grows(s, s', p)
    ensures forall t :: t in s'.mem.items ==> ItemOk(s', t)
    ensures forall t :: t in s.mem.inFlight ==> FlightOk(s', t)
    ensures forall k: nat :: k < |s.origins| ==> CallOk(s', k)
  {
    forall t | t in s'.mem.items ensures ItemOk(s', t) { assert ItemOk(s, t); }
    forall t | t in s.mem.inFlight ensures FlightOk(s', t) { assert FlightOk(s, t); }
    forall k: nat | k < |s.origins| ensures CallOk(s', k) { assert CallOk(s, k); }
  }

  lemma EnteredCallerOk(s: State, p: nat)
    requires Inv(s) && Enabled(s, Enter(p))
    ensures CallerOk(Apply(s, Enter(p)), p)
  {
    var c := s.callers[p];
    match Lookup(s.mem, c.token, c.now, s.ttl).1
    case Hit(_) => assert ItemOk(s, c.token);
    case Join(k) => assert FlightOk(s, c.token); assert CallOk(s, k); assert CallerOk(s, s.origins[k].leader);
    case Lead(_) =>
  }

  lemma EnterKeeps(s: State, p: nat)
    requires Inv(s) && Enabled(s, Enter(p))
    ensures Inv(Apply(s, Enter(p)))
  {
    var s' := Apply(s, Enter(p));
    EnterGrows(s, p);
    GrowsKeepsRest(s, s', p);
    forall q | q in s'.callers ensures CallerOk(s', q) {
      if q == p { EnteredCallerOk(s, p); } else { GrowsKeepsCaller(s, s', p, q); }
    }
    forall t | t in s'.mem.inFlight ensures FlightOk(s', t) {
      if t !in s.mem.inFlight { assert Lookup(s.mem, s.callers[p].token, s.callers[p].now, s.ttl).1.Lead?; }
    }
  }

  lemma UpstreamReturnKeeps(s: State, p: nat, result: Result<Session>)
    requires Inv(s) && Enabled(s, UpstreamReturn(p, result))
    ensures Inv(Apply(s, UpstreamReturn(p, result)))
  {
    var s' := Apply(s, UpstreamReturn(p, result));
    assert CallerOk(s, p);
    forall q | q in s'.callers ensures CallerOk(s', q) { assert CallerOk(s, q); }
    forall t | t in s'.mem.items ensures ItemOk(s', t) { assert ItemOk(s, t); }
    forall t | t in s'.mem.inFlight ensures FlightOk(s', t) { assert FlightOk(s, t); }
    forall k: nat | k < |s'.origins| ensures CallOk(s', k) { assert CallOk(s, k); }
  }

  lemma PublishCallers(s: State, p: nat, q: nat)
    requires Inv(s) && Enabled(s, Publish(p)) && q in s.callers
    ensures CallerOk(Apply(s, Publish(p)), q)
  {
    assert CallerOk(s, p);
    assert CallerOk(s, q);
  }

  lemma PublishItems(s: State, p: nat, t: Str)
    requires Inv(s) && Enabled(s, Publish(p)) && t in Apply(s, Publish(p)).mem.items
    ensures ItemOk(Apply(s, Publish(p)), t)
  {
    assert CallerOk(s, p);
    if t in s.mem.items { assert ItemOk(s, t); }
  }

  lemma PublishKeeps(s: State, p: nat)
    requires Inv(s) && Enabled(s, Publish(p))
    ensures Inv(Apply(s, Publish(p)))
  {
    var s' := Apply(s, Publish(p));
    assert CallerOk(s, p);
    forall q | q in s'.callers ensures CallerOk(s', q) { PublishCallers(s, p, q); }
    forall t | t in s'.mem.items ensures ItemOk(s', t) { PublishItems(s, p, t); }
    forall t | t in s'.mem.inFlight ensures FlightOk(s', t) { assert FlightOk(s, t); }
    forall k: nat | k < |s'.origins| ensures CallOk(s', k) { assert CallOk(s, k); }
  }

  lemma CloseKeeps(s: State, p: nat)
    requires Inv(s) && Enabled(s, Close(p))
    ensures Inv(Apply(s, Close(p)))
  {
    var s' := Apply(s, Close(p));
    assert CallerOk(s, p);
    forall q | q in s'.callers ensures CallerOk(s', q) { assert CallerOk(s, q); }
    forall t | t in s'.mem.items ensures ItemOk(s', t) { assert ItemOk(s, t); }
    forall t | t in s'.mem.inFlight ensures FlightOk(s', t) { assert FlightOk(s, t); }
    forall k: nat | k < |s'.origins| ensures CallOk(s', k) { assert CallOk(s, k); }
  }

  lemma StepKeeps(s: State, step: Step)
    requires Inv(s) && Enabled(s, step)
    ensures Inv(Apply(s, step))
  {
    var s' := Apply(s, step);
    match step
    case Tick(_) => QuietStep(s, s');
    case Begin(p, _) => LocalStep(s, s', p, s'.callers[p]);
    case Enter(p) => EnterKeeps(s, p);
    case UpstreamReturn(p, result) => UpstreamReturnKeeps(s, p, result);
    case Publish(p) => PublishKeeps(s, p);
    case Close(p) => CloseKeeps(s, p);
    case Wake(p) =>
      assert CallerOk(s, p);
      assert CallOk(s, s.callers[p].call);
      LocalStep(s, s', p, s'.callers[p]);
    case Cancel(p) => LocalStep(s, s', p, s'.callers[p]);
    case Invalidate(_) => QuietStep(s, s');
    case Sweep(_) => QuietStep(s, s');
  }

  lemma {:induction false} RunKeeps(s: State, steps: seq<Step>)
    requires Inv(s) && Run(s, steps).Some?
    ensures Inv(Run(s, steps).value)
    decreases |steps|
  {
    if steps != [] {
      StepKeeps(s, steps[0]);
      RunKeeps(Apply(s, steps[0]), steps[1..]);
    }
  }

  // ----- main results -----

  /**
   A returned session is the upstream's answer for that same token: from the caller's
   own call, from one published after its lookup, or from one still fresh at its clock reading.
   */
  lemma BoundedStaleness(ttl: int, clock: int, steps: seq<Step>, p: nat)
    requires Run(Init(ttl, clock), steps).Some?
    ensures
      var s := Run(Init(ttl, clock), steps).value;
      p in s.callers && s.callers[p].phase.Finished? && s.callers[p].phase.reply.Ok? ==>
        var c, session := s.callers[p], s.callers[p].phase.reply.value;
        exists k :: 0 <= k < |s.origins| == |s.mem.calls|
          && s.origins[k].token == c.token
          && s.mem.calls[k].result == Some(Ok(session))
          && (|| s.origins[k].leader == p
              || (s.origins[k].published.Some? && c.seenAt < s.origins[k].published.value)
              || (&& c.now - s.origins[k].readAt < s.ttl
                  && (session.expiresAt.Some? ==> c.now < session.expiresAt.value)))
  {
    RunKeeps(Init(ttl, clock), steps);
    var s := Run(Init(ttl, clock), steps).value;
    if p in s.callers && s.callers[p].phase.Finished? && s.callers[p].phase.reply.Ok? {
      assert CallerOk(s, p);
      var k := s.callers[p].phase.from.value;
      assert s.origins[k].token == s.callers[p].token;
    }
  }

  /** At most one upstream request per token is in progress. */
  lemma SingleUpstreamCall(ttl: int, clock: int, steps: seq<Step>, p: nat, q: nat)
    requires Run(Init(ttl, clock), steps).Some?
    ensures
      var s := Run(Init(ttl, clock), steps).value;
      && p in s.callers && s.callers[p].phase in {Calling, Fetched}
      && q in s.callers && s.callers[q].phase in {Calling, Fetched}
      && s.callers[p].token == s.callers[q].token
      ==> p == q
  {
    RunKeeps(Init(ttl, clock), steps);
    var s := Run(Init(ttl, clock), steps).value;
    if p in s.callers && q in s.callers { assert CallerOk(s, p) && CallerOk(s, q); }
  }

  /** When a leader is about to publish, the in-flight entry it deletes is its own. */
  lemma LeaderRemovesOwnEntry(ttl: int, clock: int, steps: seq<Step>, p: nat)
    requires Run(Init(ttl, clock), steps).Some?
    requires In(Run(Init(ttl, clock), steps).value, p, Fetched)
    ensures
      var s := Run(Init(ttl, clock), steps).value;
      && Enabled(s, Publish(p))
      && s.callers[p].token in s.mem.inFlight
      && s.mem.inFlight[s.callers[p].token] == s.callers[p].call
      && s.origins[s.callers[p].call].leader == p
  {
    RunKeeps(Init(ttl, clock), steps);
    assert CallerOk(Run(Init(ttl, clock), steps).value, p);
  }

  /** The steps a leader still owes before its waiters wake up. */
  function Owed(s: State, p: nat, answer: Result<Session>): seq<Step> {
    if In(s, p, Calling) then [UpstreamReturn(p, answer), Publish(p), Close(p)]
    else if In(s, p, Fetched) then [Publish(p), Close(p)]
    else [Close(p)]
  }

  /** `r` closed call `k` and disturbed no caller but `p`. */
  predicate ClosedBy(s: State, r: State, p: nat, k: nat) {
    && k < |r.mem.calls| && r.mem.calls[k].done && r.mem.calls[k].result.Some?
    && (forall q :: q in s.callers && q != p ==> q in r.callers && r.callers[q] == s.callers[q])
  }

  lemma CloseCloses(s: State, p: nat)
    requires Inv(s) && In(s, p, Publishing)
    ensures Enabled(s, Close(p)) && ClosedBy(s, Apply(s, Close(p)), p, s.callers[p].call)
  {
    assert CallerOk(s, p);
  }

  lemma PublishLeads(s: State, p: nat)
    requires Inv(s) && In(s, p, Fetched)
    ensures Enabled(s, Publish(p))
    ensures Apply(s, Publish(p)).callers == s.callers[p := s.callers[p].(phase := Publishing)]
  {
    assert CallerOk(s, p);
  }

  lemma ReturnLeads(s: State, p: nat, answer: Result<Session>)
    requires Inv(s) && In(s, p, Calling)
    ensures Enabled(s, UpstreamReturn(p, answer))
    ensures Apply(s, UpstreamReturn(p, answer)).callers == s.callers[p := s.callers[p].(phase := Fetched)]
  {
    assert CallerOk(s, p);
  }

  lemma ClosedLater(s: State, step: Step, rest: seq<Step>, p: nat, k: nat)
    requires p in s.callers && Enabled(s, step)
    requires forall q :: q in s.callers && q != p ==>
      q in Apply(s, step).callers && Apply(s, step).callers[q] == s.callers[q]
    requires Run(Apply(s, step), rest).Some?
    requires ClosedBy(Apply(s, step), Run(Apply(s, step), rest).value, p, k)
    ensures Run(s, [step] + rest).Some?
    ensures ClosedBy(s, Run(s, [step] + rest).value, p, k)
  {
    assert ([step] + rest)[1..] == rest;
  }

  lemma PublishingCloses(s: State, p: nat)
    requires Inv(s) && In(s, p, Publishing)
    ensures Run(s, [Close(p)]).Some?
    ensures ClosedBy(s, Run(s, [Close(p)]).value, p, s.callers[p].call)
  {
    CloseCloses(s, p);
    ClosedLater(s, Close(p), [], p, s.callers[p].call);
  }

  lemma FetchedCloses(s: State, p: nat)
    requires Inv(s) && In(s, p, Fetched)
    ensures Run(s, [Publish(p), Close(p)]).Some?
    ensures ClosedBy(s, Run(s, [Publish(p), Close(p)]).value, p, s.callers[p].call)
  {
    PublishLeads(s, p);
    PublishKeeps(s, p);
    PublishingCloses(Apply(s, Publish(p)), p);
    ClosedLater(s, Publish(p), [Close(p)], p, s.callers[p].call);
  }

  lemma CallingCloses(s: State, p: nat, answer: Result<Session>)
    requires Inv(s) && In(s, p, Calling)
    ensures Run(s, [UpstreamReturn(p, answer), Publish(p), Close(p)]).Some?
    ensures ClosedBy(s, Run(s, [UpstreamReturn(p, answer), Publish(p), Close(p)]).value, p, s.callers[p].call)
  {
    ReturnLeads(s, p, answer);
    UpstreamReturnKeeps(s, p, answer);
    FetchedCloses(Apply(s, UpstreamReturn(p, answer)), p);
    ClosedLater(s, UpstreamReturn(p, answer), [Publish(p), Close(p)], p, s.callers[p].call);
  }

  lemma OwedCloses(s: State, p: nat, answer: Result<Session>)
    requires Inv(s) && p in s.callers && s.callers[p].phase in {Calling, Fetched, Publishing}
    ensures Run(s, Owed(s, p, answer)).Some?
    ensures ClosedBy(s, Run(s, Owed(s, p, answer)).value, p, s.callers[p].call)
  {
    match s.callers[p].phase
    case Calling => CallingCloses(s, p, answer);
    case Fetched => FetchedCloses(s, p);
    case Publishing => PublishingCloses(s, p);
  }

  /**
   No stranded waiter: a blocked caller's call is already closed, or it has
   exactly one leader, whose remaining steps are all enabled and wake the caller.
   */
  lemma NoStrandedWaiter(ttl: int, clock: int, steps: seq<Step>, p: nat, answer: Result<Session>)
    requires Run(Init(ttl, clock), steps).Some?
    requires In(Run(Init(ttl, clock), steps).value, p, Waiting)
    ensures
      var s := Run(Init(ttl, clock), steps).value;
      Enabled(s, Wake(p)) || exists leader :: WillWake(s, p, leader, answer)
  {
    RunKeeps(Init(ttl, clock), steps);
    WaiterIsServed(Run(Init(ttl, clock), steps).value, p, answer);
  }

  predicate LeadsCall(s: State, leader: nat, k: nat) {
    leader in s.callers && s.callers[leader].call == k
    && s.callers[leader].phase in {Calling, Fetched, Publishing}
  }

  /** `leader` is the one leader of `p`'s call and its owed steps enable `p`. */
  ghost predicate WillWake(s: State, p: nat, leader: nat, answer: Result<Session>)
    requires p in s.callers
  {
    && LeadsCall(s, leader, s.callers[p].call)
    && (forall other :: LeadsCall(s, other, s.callers[p].call) ==> other == leader)
    && Run(s, Owed(s, leader, answer)).Some?
    && Enabled(Run(s, Owed(s, leader, answer)).value, Wake(p))
  }

  lemma WaiterIsServed(s: State, p: nat, answer: Result<Session>)
    requires Inv(s) && In(s, p, Waiting)
    ensures Enabled(s, Wake(p)) || exists leader :: WillWake(s, p, leader, answer)
  {
    var k := s.callers[p].call;
    assert CallerOk(s, p);
    assert CallOk(s, k);
    if !s.mem.calls[k].done {
      var leader := s.origins[k].leader;
      assert LeadsCall(s, leader, k);
      OwedCloses(s, leader, answer);
      forall other | LeadsCall(s, other, k) ensures other == leader { assert CallerOk(s, other); }
      assert WillWake(s, p, leader, answer);
    }
  }

  /** After `Invalidate(token)`, a cached session was published after that call. */
  lemma InvalidateForgets(ttl: int, clock: int, steps: seq<Step>, token: Str)
    requires Run(Init(ttl, clock), steps).Some?
    ensures
      var s := Run(Init(ttl, clock), steps).value;
      token in s.mem.items && token in s.invalidated ==>
        exists k :: 0 <= k < |s.origins|
          && s.origins[k].token == token
          && s.origins[k].published.Some?
          && s.invalidated[token] < s.origins[k].published.value
          && s.origins[k].readAt == s.mem.items[token].fetchedAt
  {
    RunKeeps(Init(ttl, clock), steps);
    var s := Run(Init(ttl, clock), steps).value;
    if token in s.mem.items && token in s.invalidated {
      assert ItemOk(s, token);
      assert s.origins[s.source[token]].token == token;
    }
  }
}
