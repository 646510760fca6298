/**
 Token introspection cache with singleflight: the two critical sections as
 functions of the mutex-protected memory, and the class that runs them in place.
 */
module IntrospectCache {
  import opened Text
  import opened Wrappers

  /** `expiresAt` is None for Go's zero time. */
  datatype Session = Session(subject: Str, expiresAt: Option<int>)

  datatype Entry = Entry(session: Session, fetchedAt: int)

  /** One shared upstream call; `done` is the closed channel. */
  datatype Call = Call(done: bool, result: Option<Result<Session>>)

  datatype Memory = Memory(items: map<Str, Entry>, inFlight: map<Str, nat>, calls: seq<Call>)

  datatype Outcome = Hit(session: Session) | Join(call: nat) | Lead(call: nat)

  const DEFAULT_TTL := 30_000_000_000

  predicate IsFresh(e: Entry, now: int, ttl: int) {
    && now - e.fetchedAt < ttl
    && (e.session.expiresAt.Some? ==> now < e.session.expiresAt.value)
  }

  /** The first critical section: a fresh hit, joining a call, or leading a new one. */
  function Lookup(m: Memory, token: Str, now: int, ttl: int): (r: (Memory, Outcome))
    ensures token in r.0.items ==> r.1.Hit? && IsFresh(r.0.items[token], now, ttl)
    ensures r.1.Hit? <==> token in m.items && IsFresh(m.items[token], now, ttl)
    ensures r.1.Lead? ==> token !in m.inFlight && r.0.inFlight[token := |m.calls|] == r.0.inFlight
  {
    if token in m.items && IsFresh(m.items[token], now, ttl) then
      (m, Hit(m.items[token].session))
    else
      var m' := m.(items := m.items - {token});
      if token in m.inFlight then
        (m', Join(m.inFlight[token]))
      else
        (m'.(inFlight := m.inFlight[token := |m.calls|], calls := m.calls + [Call(false, None)]),
         Lead(|m.calls|))
  }

  /** The upstream answer lands in the shared call record. */
  function Return(m: Memory, call: nat, result: Result<Session>): Memory
    requires call < |m.calls|
  {
    m.(calls := m.calls[call := m.calls[call].(result := Some(result))])
  }

  /** The second critical section: leave the in-flight table, remember a success. */
  function Publish(m: Memory, token: Str, call: nat, now: int): Memory
    requires call < |m.calls| && m.calls[call].result.Some?
  {
    var m' := m.(inFlight := m.inFlight - {token});
    match m.calls[call].result.value
    case Ok(session) => m'.(items := m.items[token := Entry(session, now)])
    case Err => m'
  }

  function Close(m: Memory, call: nat): Memory
    requires call < |m.calls|
  {
    m.(calls := m.calls[call := m.calls[call].(done := true)])
  }

  function Swept(items: map<Str, Entry>, now: int, ttl: int): map<Str, Entry> {
    map k | k in items && IsFresh(items[k], now, ttl) :: items[k]
  }

  /** What one caller sees when no other caller runs between its two sections. */
  datatype Reply = Returned(result: Result<Session>) | Blocked(call: nat)

  function Sequential(m: Memory, token: Str, now: int, ttl: int, upstream: Result<Session>): (Memory, Reply) {
    var (m', o) := Lookup(m, token, now, ttl);
    match o
    case Hit(session) => (m', Returned(Ok(session)))
    case Join(call) =>
      if call < |m'.calls| && m'.calls[call].done && m'.calls[call].result.Some?
      then (m', Returned(m'.calls[call].result.value))
      else (m', Blocked(call))
    case Lead(call) =>
      (Close(Publish(Return(m', call, upstream), token, call, now), call), Returned(upstream))
  }

  class Cache {
    const ttl: int
    var items: map<Str, Entry>
    var inFlight: map<Str, nat>
    var calls: seq<Call>

    ghost function View(): Memory
      reads this
    {
      Memory(items, inFlight, calls)
    }

    constructor (ttl: int)
      ensures View() == Memory(map[], map[], [])
      ensures this.ttl == if ttl <= 0 then 30 * 1_000_000_000 else ttl
    {
      this.ttl := if ttl <= 0 then DEFAULT_TTL else ttl;
      items, inFlight, calls := map[], map[], [];
    }

    method Enter(token: Str, now: int) returns (o: Outcome)
      modifies this
      ensures (View(), o) == Lookup(old(View()), token, now, ttl)
    {
      if token in items {
        if IsFresh(items[token], now, ttl) {
          return Hit(items[token].session);
        }
        items := items - {token};
      } else {
        assert items - {token} == items;
      }
      if token in inFlight {
        return Join(inFlight[token]);
      }
      inFlight := inFlight[token := |calls|];
      o := Lead(|calls|);
      calls := calls + [Call(false, None)];
    }

    method Leave(token: Str, call: nat, now: int)
      requires call < |calls| && calls[call].result.Some?
      modifies this
      ensures View() == Publish(old(View()), token, call, now)
    {
      inFlight := inFlight - {token};
      if calls[call].result.value.Ok? {
        items := items[token := Entry(calls[call].result.value.value, now)];
      }
    }

    /** `Introspect` run alone; `upstream` is what the wrapped client would answer. */
    method Introspect(token: Str, now: int, upstream: Result<Session>) returns (r: Reply)
      modifies this
      ensures (View(), r) == Sequential(old(View()), token, now, ttl, upstream)
    {
      var o := Enter(token, now);
      match o
      case Hit(session) =>
        r := Returned(Ok(session));
      case Join(call) =>
        if call < |calls| && calls[call].done && calls[call].result.Some? {
          r := Returned(calls[call].result.value);
        } else {
          r := Blocked(call);
        }
      case Lead(call) =>
        calls := calls[call := calls[call].(result := Some(upstream))];
        Leave(token, call, now);
        calls := calls[call := calls[call].(done := true)];
        r := Returned(upstream);
    }

    method Invalidate(token: Str)
      modifies this
      ensures View() == old(View()).(items := old(items) - {token})
    {
      items := items - {token};
    }

    method SweepExpired(now: int)
      modifies this
      ensures View() == old(View()).(items := Swept(old(items), now, ttl))
    {
      var todo := items.Keys;
      while todo != {}
        invariant todo <= old(items).Keys
        invariant inFlight == old(inFlight) && calls == old(calls)
        invariant items == map k | k in old(items) && (k in todo || IsFresh(old(items)[k], now, ttl)) :: old(items)[k]
        decreases |todo|
      {
        var k :| k in todo;
        if !IsFresh(items[k], now, ttl) {
          items := items - {k};
        }
        todo := todo - {k};
      }
    }
  }
}
