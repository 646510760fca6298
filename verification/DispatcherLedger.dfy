/**
 One dispatcher stream under every interleaving of its producers with the loop.
 Items carry the index at which the channel accepted them; `accepted`, `dropped`
 and `rejected` are history.
 */
module DispatcherLedger {
  import opened Wrappers
  import opened Lanes
  import Sums

  datatype Tagged<T> = Tagged(index: nat, item: T)

  /** A producer between two of the three selects of one enqueue. */
  datatype Producer<T> = Offering(item: T) | Dropping(item: T) | Retrying(item: T)

  datatype Mode = Live | Draining | Closed

  datatype Stream<T> = Stream(
    capacity: nat,
    batch: nat,
    mode: Mode,
    lane: Lane<Tagged<T>>,
    producers: map<nat, Producer<T>>,
    accepted: seq<T>,
    dropped: set<nat>,
    rejected: seq<T>,
    finals: nat)

  datatype Step<T> =
    | Start(p: nat, item: T)
    | Offer(p: nat)
    | DropOldest(p: nat)
    | Retry(p: nat)
    | Receive
    | Tick
    | Cancel
    | DrainOne
    | FinalFlush

  predicate Enabled<T>(s: Stream<T>, step: Step<T>) {
    match step
    case Start(p, _) => p !in s.producers
    case Offer(p) => p in s.producers && s.producers[p].Offering?
    case DropOldest(p) => p in s.producers && s.producers[p].Dropping?
    case Retry(p) => p in s.producers && s.producers[p].Retrying?
    case Receive => s.mode == Live && s.lane.chan != []
    case Tick => s.mode == Live
    case Cancel => s.mode == Live
    case DrainOne => s.mode == Draining && s.lane.chan != []
    case FinalFlush => s.mode == Draining
  }

  function Accept<T>(s: Stream<T>, p: nat, item: T): Stream<T> {
    s.(lane := s.lane.(chan := s.lane.chan + [Tagged(|s.accepted|, item)]),
       accepted := s.accepted + [item],
       producers := s.producers - {p})
  }

  function Apply<T>(s: Stream<T>, step: Step<T>): Stream<T>
    requires Enabled(s, step)
  {
    match step
    case Start(p, item) => s.(producers := s.producers[p := Offering(item)])
    case Offer(p) =>
      var item := s.producers[p].item;
      if |s.lane.chan| < s.capacity then Accept(s, p, item)
      else s.(producers := s.producers[p := Dropping(item)])
    case DropOldest(p) =>
      var s' := s.(producers := s.producers[p := Retrying(s.producers[p].item)]);
      if s.lane.chan == [] then s'
      else s'.(lane := s.lane.(chan := s.lane.chan[1..]), dropped := s.dropped + {s.lane.chan[0].index})
    case Retry(p) =>
      var item := s.producers[p].item;
      if |s.lane.chan| < s.capacity then Accept(s, p, item)
      else s.(producers := s.producers - {p}, rejected := s.rejected + [item])
    case Receive => s.(lane := Lanes.Receive(s.lane, s.batch))
    case Tick => s.(lane := Flush(s.lane))
    case Cancel => s.(mode := Draining)
    case DrainOne => s.(lane := Take(s.lane))
    case FinalFlush =>
      s.(mode := Closed, lane := Flush(s.lane), finals := if s.lane.buf == [] then 0 else 1)
  }

  function Init<T>(batch: nat, capacity: nat): Stream<T> {
    Stream(capacity, batch, Live, Lane([], [], []), map[], [], {}, [], 0)
  }

  function Run<T>(s: Stream<T>, steps: seq<Step<T>>): Option<Stream<T>>
    decreases |steps|
  {
    if steps == [] then Some(s)
    else if Enabled(s, steps[0]) then Run(Apply(s, steps[0]), steps[1..])
    else None
  }

  // ----- the ledger -----

  function Flatten<T>(batches: seq<seq<T>>): seq<T> {
    if batches == [] then [] else Flatten(batches[..|batches| - 1]) + batches[|batches| - 1]
  }

  /** Batches handed over, then the buffer, then the channel. */
  function Pipeline<T>(l: Lane<T>): seq<T> {
    Flatten(l.sent) + l.buf + l.chan
  }

  /** The first `n` accepted items that were not dropped, in acceptance order. */
  function Survivors<T>(accepted: seq<T>, dropped: set<nat>, n: nat): seq<Tagged<T>>
    requires n <= |accepted|
  {
    if n == 0 then []
    else Survivors(accepted, dropped, n - 1)
         + (if n - 1 in dropped then [] else [Tagged(n - 1, accepted[n - 1])])
  }

  function Items<T>(s: seq<Tagged<T>>): seq<T> {
    seq(|s|, i requires 0 <= i < |s| => s[i].item)
  }

  lemma {:induction false} SurvivorIndex<T>(accepted: seq<T>, dropped: set<nat>, n: nat, k: nat)
    requires n <= |accepted| && k < |Survivors(accepted, dropped, n)|
    ensures Survivors(accepted, dropped, n)[k].index < n
    ensures Survivors(accepted, dropped, n)[k].index !in dropped
  {
    if k < |Survivors(accepted, dropped, n - 1)| {
      SurvivorIndex(accepted, dropped, n - 1, k);
    }
  }

  lemma {:induction false} SurvivorsIgnoreLarge<T>(accepted: seq<T>, dropped: set<nat>, n: nat, x: nat)
    requires n <= |accepted| && n <= x
    ensures Survivors(accepted, dropped + {x}, n) == Survivors(accepted, dropped, n)
  {
    if n > 0 { SurvivorsIgnoreLarge(accepted, dropped, n - 1, x); }
  }

  lemma {:induction false} SurvivorsPrefix<T>(accepted: seq<T>, more: seq<T>, dropped: set<nat>, n: nat)
    requires n <= |accepted|
    ensures Survivors(accepted + more, dropped, n) == Survivors(accepted, dropped, n)
  {
    if n > 0 { SurvivorsPrefix(accepted, more, dropped, n - 1); }
  }

  lemma {:induction false} SurvivorsDrop<T>(accepted: seq<T>, dropped: set<nat>, n: nat, k: nat)
    requires n <= |accepted| && k < |Survivors(accepted, dropped, n)|
    ensures
      var f := Survivors(accepted, dropped, n);
      Survivors(accepted, dropped + {f[k].index}, n) == f[..k] + f[k + 1..]
  {
    var f := Survivors(accepted, dropped, n);
    var g := Survivors(accepted, dropped, n - 1);
    if k < |g| {
      SurvivorIndex(accepted, dropped, n - 1, k);
      SurvivorsDrop(accepted, dropped, n - 1, k);
    } else {
      assert f == g + [Tagged(n - 1, accepted[n - 1])] && k == |g|;
      SurvivorsIgnoreLarge(accepted, dropped, n - 1, n - 1);
    }
  }

  lemma FlattenAppend<T>(batches: seq<seq<T>>, b: seq<T>)
    ensures Flatten(batches + [b]) == Flatten(batches) + b
  {
    assert (batches + [b])[..|batches|] == batches;
  }

  lemma FlushKeepsPipeline<T>(l: Lane<T>)
    ensures Pipeline(Flush(l)) == Pipeline(l)
  {
    FlattenAppend(l.sent, l.buf);
  }

  lemma TakeKeepsPipeline<T>(l: Lane<T>)
    requires l.chan != []
    ensures Pipeline(Take(l)) == Pipeline(l)
  {
    assert l.chan == [l.chan[0]] + l.chan[1..];
  }

  // ----- invariant -----

  ghost predicate Ledger<T>(s: Stream<T>) {
    && Pipeline(s.lane) == Survivors(s.accepted, s.dropped, |s.accepted|)
    && (forall n :: n in s.dropped ==> n < |s.accepted|)
  }

  /** Sizes: the channel fits, the live buffer is below a batch, batches are 1..batch. */
  ghost predicate Bounded<T>(s: Stream<T>) {
    && 1 <= s.batch && 1 <= s.capacity && s.finals <= 1 && s.finals <= |s.lane.sent|
    && |s.lane.chan| <= s.capacity
    && (s.mode == Live ==> |s.lane.buf| < s.batch)
    && (s.mode != Closed ==> s.finals == 0)
    && (forall i :: 0 <= i < |s.lane.sent| - s.finals ==> 1 <= |s.lane.sent[i]| <= s.batch)
    && (forall i :: 0 <= i < |s.lane.sent| ==> 1 <= |s.lane.sent[i]|)
  }

  lemma AcceptKeepsLedger<T>(s: Stream<T>, p: nat, item: T)
    requires Ledger(s)
    ensures Ledger(Accept(s, p, item))
  {
    var s' := Accept(s, p, item);
    SurvivorsPrefix(s.accepted, [item], s.dropped, |s.accepted|);
    assert Pipeline(s'.lane) == Pipeline(s.lane) + [Tagged(|s.accepted|, item)];
  }

  lemma DropKeepsLedger<T>(s: Stream<T>, p: nat)
    requires Ledger(s) && Enabled(s, DropOldest(p)) && s.lane.chan != []
    ensures Ledger(Apply(s, DropOldest(p)))
  {
    var f, k := Pipeline(s.lane), |Flatten(s.lane.sent) + s.lane.buf|;
    assert f[k] == s.lane.chan[0];
    SurvivorsDrop(s.accepted, s.dropped, |s.accepted|, k);
    SurvivorIndex(s.accepted, s.dropped, |s.accepted|, k);
    assert Pipeline(Apply(s, DropOldest(p)).lane) == f[..k] + f[k + 1..];
  }

  lemma StepKeepsLedger<T>(s: Stream<T>, step: Step<T>)
    requires Ledger(s) && Enabled(s, step)
    ensures Ledger(Apply(s, step))
  {
    match step
    case Offer(p) => AcceptKeepsLedger(s, p, s.producers[p].item);
    case Retry(p) => AcceptKeepsLedger(s, p, s.producers[p].item);
    case DropOldest(p) => if s.lane.chan != [] { DropKeepsLedger(s, p); }
    case Receive => TakeKeepsPipeline(s.lane); FlushKeepsPipeline(Take(s.lane));
    case Tick => FlushKeepsPipeline(s.lane);
    case DrainOne => TakeKeepsPipeline(s.lane);
    case FinalFlush => FlushKeepsPipeline(s.lane);
    case _ =>
  }

  lemma StepKeepsBounds<T>(s: Stream<T>, step: Step<T>)
    requires Bounded(s) && Enabled(s, step)
    ensures Bounded(Apply(s, step))
  {}

  lemma {:induction false} RunKeeps<T>(s: Stream<T>, steps: seq<Step<T>>)
    requires Ledger(s) && Bounded(s) && Run(s, steps).Some?
    ensures Ledger(Run(s, steps).value) && Bounded(Run(s, steps).value)
    decreases |steps|
  {
    if steps != [] {
      StepKeepsLedger(s, steps[0]);
      StepKeepsBounds(s, steps[0]);
      RunKeeps(Apply(s, steps[0]), steps[1..]);
    }
  }

  // ----- main results -----

  /**
   In every interleaving, batches then buffer then channel hold the accepted items
   in acceptance order, and exactly the dropped-oldest ones are missing.
   */
  lemma StreamLedger<T>(batch: nat, capacity: nat, steps: seq<Step<T>>)
    requires 1 <= batch && 1 <= capacity && Run(Init(batch, capacity), steps).Some?
    ensures
      var s := Run(Init(batch, capacity), steps).value;
      && Items(Pipeline(s.lane)) == Items(Survivors(s.accepted, s.dropped, |s.accepted|))
      && (forall n :: n in s.dropped ==> n < |s.accepted|)
      && (forall i :: 0 <= i < |s.lane.sent| - s.finals ==> 1 <= |s.lane.sent[i]| <= batch)
      && |s.lane.chan| <= capacity
  {
    RunKeeps(Init<T>(batch, capacity), steps);
    RunKeepsSizes(Init<T>(batch, capacity), steps);
  }

  /** Every batch is full. */
  predicate AllFull<T>(l: Lane<Tagged<T>>, batch: nat) {
    forall i :: 0 <= i < |l.sent| ==> |l.sent[i]| == batch
  }

  lemma StepKeepsFull<T>(s: Stream<T>, step: Step<T>)
    requires 1 <= s.batch && AllFull(s.lane, s.batch) && |s.lane.buf| < s.batch
    requires Enabled(s, step) && !step.Tick? && !step.Cancel? && s.mode == Live
    ensures
      var s' := Apply(s, step);
      s'.batch == s.batch && s'.mode == Live && AllFull(s'.lane, s.batch) && |s'.lane.buf| < s.batch
  {}

  lemma {:induction false} RunKeepsFull<T>(s: Stream<T>, steps: seq<Step<T>>)
    requires 1 <= s.batch && AllFull(s.lane, s.batch) && |s.lane.buf| < s.batch && s.mode == Live
    requires Run(s, steps).Some? && forall i :: 0 <= i < |steps| ==> !steps[i].Tick? && !steps[i].Cancel?
    ensures
      var s' := Run(s, steps).value;
      AllFull(s'.lane, s.batch) && |s'.lane.buf| < s.batch
    decreases |steps|
  {
    if steps != [] {
      StepKeepsFull(s, steps[0]);
      RunKeepsFull(Apply(s, steps[0]), steps[1..]);
    }
  }

  /**
   Before the first tick and before cancellation every batch handed over has exactly the batch size, and
   fewer items than that are left waiting: nothing is sent early and nothing is held back.
   */
  lemma OnlyTicksSendPartBatches<T>(batch: nat, capacity: nat, steps: seq<Step<T>>)
    requires 1 <= batch && Run(Init(batch, capacity), steps).Some?
    requires forall i :: 0 <= i < |steps| ==> !steps[i].Tick? && !steps[i].Cancel?
    ensures
      var l := Run(Init(batch, capacity), steps).value.lane;
      (forall i :: 0 <= i < |l.sent| ==> |l.sent[i]| == batch) && |l.buf| < batch
  {
    RunKeepsFull(Init<T>(batch, capacity), steps);
  }

  /** A tick hands over what was waiting as one batch, and nothing when nothing was. */
  lemma TickSendsWaiting<T>(s: Stream<T>)
    requires Enabled(s, Tick)
    ensures
      var l, l' := s.lane, Apply(s, Tick).lane;
      l'.buf == [] && l'.chan == l.chan && l'.sent == if l.buf == [] then l.sent else l.sent + [l.buf]
  {}

  lemma {:induction false} RunKeepsSizes<T>(s: Stream<T>, steps: seq<Step<T>>)
    requires Run(s, steps).Some?
    ensures Run(s, steps).value.batch == s.batch && Run(s, steps).value.capacity == s.capacity
    decreases |steps|
  {
    if steps != [] { RunKeepsSizes(Apply(s, steps[0]), steps[1..]); }
  }

  /** A producer step by someone other than `p`. */
  predicate ByOther<T>(step: Step<T>, p: nat) {
    (step.Start? || step.Offer? || step.DropOldest? || step.Retry?) && step.p != p
  }

  /** While only `p` produces, none of its items is ever turned away. */
  lemma {:induction false} LoneProducerNeverRejected<T>(s: Stream<T>, steps: seq<Step<T>>, p: nat)
    requires Bounded(s) && Run(s, steps).Some?
    requires p in s.producers && s.producers[p].Retrying? ==> |s.lane.chan| < s.capacity
    requires forall i :: 0 <= i < |steps| ==> !ByOther(steps[i], p)
    ensures Run(s, steps).value.rejected == s.rejected
    decreases |steps|
  {
    if steps != [] {
      assert !ByOther(steps[0], p);
      StepKeepsBounds(s, steps[0]);
      LoneProducerNeverRejected(Apply(s, steps[0]), steps[1..], p);
    }
  }

  // ----- every started item is accounted for -----

  function Carries<T(==)>(x: T): Producer<T> -> nat {
    (p: Producer<T>) => if p.item == x then 1 else 0
  }

  /** How often an item was accepted, was turned away, or is still being enqueued. */
  ghost function Outcomes<T>(s: Stream<T>, x: T): nat {
    multiset(s.accepted)[x] + multiset(s.rejected)[x] + Sums.Total(s.producers, Carries(x))
  }

  function StartedItems<T>(steps: seq<Step<T>>): multiset<T> {
    if steps == [] then multiset{}
    else (if steps[0].Start? then multiset{steps[0].item} else multiset{}) + StartedItems(steps[1..])
  }

  lemma StepOutcomes<T>(s: Stream<T>, step: Step<T>, x: T)
    requires Enabled(s, step)
    ensures Outcomes(Apply(s, step), x) == Outcomes(s, x) + (if step.Start? && step.item == x then 1 else 0)
  {
    match step
    case Start(p, item) => Sums.TotalInsert(s.producers, Carries(x), p, Offering(item));
    case Offer(p) =>
      Sums.TotalWithout(s.producers, Carries(x), p);
      Sums.TotalUpdate(s.producers, Carries(x), p, Dropping(s.producers[p].item));
    case DropOldest(p) => Sums.TotalUpdate(s.producers, Carries(x), p, Retrying(s.producers[p].item));
    case Retry(p) => Sums.TotalWithout(s.producers, Carries(x), p);
    case _ =>
  }

  lemma {:induction false} RunOutcomes<T>(s: Stream<T>, steps: seq<Step<T>>, x: T)
    requires Run(s, steps).Some?
    ensures Outcomes(Run(s, steps).value, x) == Outcomes(s, x) + StartedItems(steps)[x]
    decreases |steps|
  {
    if steps != [] {
      StepOutcomes(s, steps[0], x);
      RunOutcomes(Apply(s, steps[0]), steps[1..], x);
    }
  }

  lemma SameMultiplicities<T>(a: multiset<T>, b: multiset<T>)
    requires forall x :: a[x] == b[x]
    ensures a == b
  {}

  /** In every interleaving: no enqueue is lost and none counts twice, item by item. */
  lemma EveryItemIsAccounted<T>(batch: nat, capacity: nat, steps: seq<Step<T>>)
    requires Run(Init(batch, capacity), steps).Some?
    ensures
      var s := Run(Init(batch, capacity), steps).value;
      && (forall x :: Outcomes(s, x) == StartedItems(steps)[x])
      && (s.producers == map[] ==> multiset(s.accepted) + multiset(s.rejected) == StartedItems(steps))
  {
    var s := Run(Init(batch, capacity), steps).value;
    forall x ensures Outcomes(s, x) == StartedItems(steps)[x] { RunOutcomes(Init(batch, capacity), steps, x); }
    if s.producers == map[] {
      forall x ensures (multiset(s.accepted) + multiset(s.rejected))[x] == StartedItems(steps)[x] {
        assert Outcomes(s, x) == StartedItems(steps)[x];
      }
      SameMultiplicities(multiset(s.accepted) + multiset(s.rejected), StartedItems(steps));
    }
  }

  // ----- why an item is turned away -----

  predicate By<T>(step: Step<T>, p: nat) {
    (step.Start? || step.Offer? || step.DropOldest? || step.Retry?) && step.p == p
  }

  /** The step puts its producer's item into the channel. */
  predicate Accepts<T>(s: Stream<T>, step: Step<T>) {
    (step.Offer? || step.Retry?) && |s.lane.chan| < s.capacity
  }

  /** The state before the i-th step. */
  function At<T>(s: Stream<T>, steps: seq<Step<T>>, i: nat): Stream<T>
    requires i <= |steps| && Run(s, steps[..i]).Some?
  {
    Run(s, steps[..i]).value
  }

  lemma {:induction false} PrefixRuns<T>(s: Stream<T>, steps: seq<Step<T>>, i: nat)
    requires Run(s, steps).Some? && i <= |steps|
    ensures Run(s, steps[..i]).Some?
    ensures i < |steps| ==> Enabled(At(s, steps, i), steps[i])
    ensures i < |steps| ==> Run(s, steps[..i + 1]) == Some(Apply(At(s, steps, i), steps[i]))
    decreases |steps|
  {
    if i == 0 {
      assert steps[..0] == [];
      if steps != [] { assert steps[..1][1..] == []; }
    } else {
      assert steps[..i][0] == steps[0] && steps[..i][1..] == steps[1..][..i - 1];
      if i < |steps| { assert steps[..i + 1][0] == steps[0] && steps[..i + 1][1..] == steps[1..][..i]; }
      PrefixRuns(Apply(s, steps[0]), steps[1..], i - 1);
    }
  }

  /** A producer in its last select dropped an item before and has done nothing since. */
  predicate DroppedAt<T>(steps: seq<Step<T>>, i: nat, j: nat, p: nat) {
    i < j <= |steps| && steps[i] == DropOldest(p) && forall m :: i < m < j ==> !By(steps[m], p)
  }

  lemma {:induction false} FindDrop<T>(s: Stream<T>, steps: seq<Step<T>>, j: nat, p: nat) returns (i: nat)
    requires Run(s, steps).Some? && s.producers == map[] && j <= |steps| && Run(s, steps[..j]).Some?
    requires p in At(s, steps, j).producers && At(s, steps, j).producers[p].Retrying?
    ensures DroppedAt(steps, i, j, p)
  {
    assert steps[..0] == [];
    assert j > 0;
    PrefixRuns(s, steps, j - 1);
    if steps[j - 1] == DropOldest(p) {
      i := j - 1;
    } else {
      assert !By(steps[j - 1], p);
      i := FindDrop(s, steps, j - 1, p);
    }
  }

  /** The channel grows only when something is accepted. */
  lemma {:induction false} FindAccept<T>(s: Stream<T>, steps: seq<Step<T>>, i: nat, j: nat) returns (k: nat)
    requires Run(s, steps).Some? && i <= j <= |steps|
    requires Run(s, steps[..i]).Some? && Run(s, steps[..j]).Some?
    requires |At(s, steps, i).lane.chan| < |At(s, steps, j).lane.chan|
    ensures i <= k < j && Run(s, steps[..k]).Some? && Accepts(At(s, steps, k), steps[k])
    decreases j - i
  {
    PrefixRuns(s, steps, j - 1);
    if Accepts(At(s, steps, j - 1), steps[j - 1]) {
      k := j - 1;
    } else {
      k := FindAccept(s, steps, i, j - 1);
    }
  }

  /** Between its drop and its retry another producer's item was accepted. */
  ghost predicate WasOvertaken<T>(s: Stream<T>, steps: seq<Step<T>>, i: nat, k: nat, j: nat, p: nat) {
    && DroppedAt(steps, i, j, p) && i < k < j
    && Run(s, steps[..k]).Some? && Accepts(At(s, steps, k), steps[k]) && !By(steps[k], p)
  }

  /**
   Any producers, batch and capacity: when a retry finds the channel full and turns its
   item away, another producer's item was accepted after the slot had been made.
   */
  lemma TurnedAwayWasOvertaken<T>(batch: nat, capacity: nat, steps: seq<Step<T>>, j: nat, p: nat)
    requires 1 <= batch && 1 <= capacity && Run(Init<T>(batch, capacity), steps).Some?
    requires j < |steps| && steps[j] == Retry(p) && Run(Init<T>(batch, capacity), steps[..j]).Some?
    requires |At(Init<T>(batch, capacity), steps, j).lane.chan| >= capacity
    ensures exists i, k :: WasOvertaken(Init<T>(batch, capacity), steps, i, k, j, p)
  {
    var s := Init<T>(batch, capacity);
    PrefixRuns(s, steps, j);
    var i := FindDrop(s, steps, j, p);
    PrefixRuns(s, steps, i);
    RunKeeps(s, steps[..i]);
    RunKeepsSizes(s, steps[..i]);
    assert |At(s, steps, i + 1).lane.chan| < capacity;
    var k := FindAccept(s, steps, i + 1, j);
    assert WasOvertaken(s, steps, i, k, j, p);
  }

  // ----- undisturbed calls are runs -----

  lemma {:induction false} RunSnoc<T>(s: Stream<T>, steps: seq<Step<T>>, last: Step<T>)
    requires Run(s, steps).Some? && Enabled(Run(s, steps).value, last)
    ensures Run(s, steps + [last]) == Some(Apply(Run(s, steps).value, last))
    decreases |steps|
  {
    if steps == [] {
      assert [] + [last] == [last] && [last][1..] == [];
    } else {
      assert (steps + [last])[0] == steps[0] && (steps + [last])[1..] == steps[1..] + [last];
      RunSnoc(Apply(s, steps[0]), steps[1..], last);
    }
  }

  /** One whole enqueue with nothing in between is what the enqueue method does. */
  lemma EnqueueIsItsSteps<T>(s: Stream<T>, p: nat, item: T) returns (steps: seq<Step<T>>)
    requires p !in s.producers && 1 <= s.capacity && |s.lane.chan| <= s.capacity
    ensures Run(s, steps).Some?
    ensures
      var t := Run(s, steps).value;
      && Items(t.lane.chan) == Enqueued(Items(s.lane.chan), s.capacity, item)
      && t.accepted == s.accepted + [item] && t.rejected == s.rejected
  {
    RunSnoc(s, [], Start(p, item));
    RunSnoc(s, [] + [Start(p, item)], Offer(p));
    steps := [] + [Start(p, item)] + [Offer(p)];
    if |s.lane.chan| == s.capacity {
      RunSnoc(s, steps, DropOldest(p));
      RunSnoc(s, steps + [DropOldest(p)], Retry(p));
      steps := steps + [DropOldest(p)] + [Retry(p)];
    }
  }

  lemma {:induction false} DrainAll<T>(s: Stream<T>) returns (steps: seq<Step<T>>)
    requires s.mode == Draining
    ensures forall step :: step in steps ==> step == DrainOne
    ensures Run(s, steps) == Some(s.(lane := s.lane.(chan := [], buf := s.lane.buf + s.lane.chan)))
    decreases |s.lane.chan|
  {
    if s.lane.chan == [] {
      steps := [];
      assert s.lane.buf + s.lane.chan == s.lane.buf;
    } else {
      var rest := DrainAll(Apply(s, DrainOne));
      steps := [DrainOne] + rest;
      assert steps[1..] == rest;
      assert Take(s.lane).buf + Take(s.lane).chan == s.lane.buf + s.lane.chan;
    }
  }

  /** Draining one item at a time and flushing is what the final drain method does. */
  lemma FinalIsItsSteps<T>(s: Stream<T>) returns (steps: seq<Step<T>>)
    requires s.mode == Draining
    ensures Run(s, steps).Some? && Run(s, steps).value.lane == Final(s.lane)
  {
    var drain := DrainAll(s);
    RunSnoc(s, drain, FinalFlush);
    steps := drain + [FinalFlush];
  }

  /** One producer fills the first places of an idle loop's channel. */
  lemma {:induction false} FillUp<T>(batch: nat, capacity: nat, filler: T, k: nat) returns (steps: seq<Step<T>>)
    requires k <= capacity
    ensures Run(Init(batch, capacity), steps).Some?
    ensures
      var s := Run(Init(batch, capacity), steps).value;
      && s.capacity == capacity && |s.lane.chan| == k && s.producers == map[] && s.rejected == []
      && |s.accepted| == k && (forall step :: step in steps ==> By(step, 0))
  {
    steps := [];
    if k > 0 {
      var s0: Stream<T> := Init(batch, capacity);
      steps := FillUp(batch, capacity, filler, k - 1);
      RunSnoc(s0, steps, Start(0, filler));
      steps := steps + [Start(0, filler)];
      RunSnoc(s0, steps, Offer(0));
      steps := steps + [Offer(0)];
    }
  }

  /** For every batch size and capacity two producers can lose the item an enqueue is about. */
  lemma TwoProducersCanLoseAnItem<T>(batch: nat, capacity: nat, filler: T, lost: T, third: T)
    returns (steps: seq<Step<T>>)
    requires 1 <= capacity
    ensures Run(Init(batch, capacity), steps).Some?
    ensures
      var s := Run(Init(batch, capacity), steps).value;
      && s.rejected == [lost] && |s.accepted| == capacity + 1 && s.accepted[capacity] == third
      && (forall step :: step in steps ==> By(step, 0) || By(step, 1))
  {
    var s0: Stream<T> := Init(batch, capacity);
    steps := FillUp(batch, capacity, filler, capacity);
    RunSnoc(s0, steps, Start(0, lost));
    steps := steps + [Start(0, lost)];
    RunSnoc(s0, steps, Offer(0));
    steps := steps + [Offer(0)];
    RunSnoc(s0, steps, DropOldest(0));
    steps := steps + [DropOldest(0)];
    RunSnoc(s0, steps, Start(1, third));
    steps := steps + [Start(1, third)];
    RunSnoc(s0, steps, Offer(1));
    steps := steps + [Offer(1)];
    RunSnoc(s0, steps, Retry(0));
    steps := steps + [Retry(0)];
  }
}
