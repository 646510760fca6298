/** The whole loop: both streams, the drain order and the exit. */
module DispatcherLoop {
  import opened Wrappers
  import Lanes
  import opened DispatcherLedger

  datatype Phase = Selecting | DrainingContents | DrainingEvents | Exited

  datatype State<C, E> = State(phase: Phase, contents: Stream<C>, events: Stream<E>)

  datatype LoopStep<C, E> =
    | Produce(content: Step<C>)
    | ProduceEvent(event: Step<E>)
    | OnContent
    | OnEvent
    | OnTimer
    | OnCancel
    | DrainContent
    | ContentsEmpty
    | DrainEvent
    | FlushAndExit

  predicate IsProducer<T>(step: Step<T>) {
    step.Start? || step.Offer? || step.DropOldest? || step.Retry?
  }

  /** What a loop step does to each of the two streams. */
  function OnContents<C, E>(step: LoopStep<C, E>): Option<Step<C>> {
    match step
    case Produce(c) => Some(c)
    case OnContent => Some(Receive)
    case OnTimer => Some(Tick)
    case OnCancel => Some(Cancel)
    case DrainContent => Some(DrainOne)
    case FlushAndExit => Some(FinalFlush)
    case _ => None
  }

  function OnEvents<C, E>(step: LoopStep<C, E>): Option<Step<E>> {
    match step
    case ProduceEvent(e) => Some(e)
    case OnEvent => Some(Receive)
    case OnTimer => Some(Tick)
    case OnCancel => Some(Cancel)
    case DrainEvent => Some(DrainOne)
    case FlushAndExit => Some(FinalFlush)
    case _ => None
  }

  predicate Enabled<C, E>(s: State<C, E>, step: LoopStep<C, E>) {
    && (OnContents(step).Some? ==> DispatcherLedger.Enabled(s.contents, OnContents(step).value))
    && (OnEvents(step).Some? ==> DispatcherLedger.Enabled(s.events, OnEvents(step).value))
    && match step
       case Produce(c) => IsProducer(c)
       case ProduceEvent(e) => IsProducer(e)
       case OnContent => s.phase == Selecting
       case OnEvent => s.phase == Selecting
       case OnTimer => s.phase == Selecting
       case OnCancel => s.phase == Selecting
       case DrainContent => s.phase == DrainingContents
       case ContentsEmpty => s.phase == DrainingContents && s.contents.lane.chan == []
       case DrainEvent => s.phase == DrainingEvents
       case FlushAndExit => s.phase == DrainingEvents && s.events.lane.chan == []
  }

  function Apply<C, E>(s: State<C, E>, step: LoopStep<C, E>): State<C, E>
    requires Enabled(s, step)
  {
    State(
      match step
      case OnCancel => DrainingContents
      case ContentsEmpty => DrainingEvents
      case FlushAndExit => Exited
      case _ => s.phase,
      if OnContents(step).Some? then DispatcherLedger.Apply(s.contents, OnContents(step).value) else s.contents,
      if OnEvents(step).Some? then DispatcherLedger.Apply(s.events, OnEvents(step).value) else s.events)
  }

  function Run<C, E>(s: State<C, E>, steps: seq<LoopStep<C, E>>): Option<State<C, E>>
    decreases |steps|
  {
    if steps == [] then Some(s)
    else if Enabled(s, steps[0]) then Run(Apply(s, steps[0]), steps[1..])
    else None
  }

  function Init<C, E>(batch: nat, capacity: nat): State<C, E> {
    State(Selecting, DispatcherLedger.Init(batch, capacity), DispatcherLedger.Init(batch, capacity))
  }

  function ContentSteps<C, E>(steps: seq<LoopStep<C, E>>): seq<Step<C>> {
    if steps == [] then []
    else (if OnContents(steps[0]).Some? then [OnContents(steps[0]).value] else []) + ContentSteps(steps[1..])
  }

  function EventSteps<C, E>(steps: seq<LoopStep<C, E>>): seq<Step<E>> {
    if steps == [] then []
    else (if OnEvents(steps[0]).Some? then [OnEvents(steps[0]).value] else []) + EventSteps(steps[1..])
  }

  lemma RunMaybe<T>(s: Stream<T>, step: Option<Step<T>>, rest: seq<Step<T>>)
    requires step.Some? ==> DispatcherLedger.Enabled(s, step.value)
    ensures DispatcherLedger.Run(s, (if step.Some? then [step.value] else []) + rest)
         == DispatcherLedger.Run(if step.Some? then DispatcherLedger.Apply(s, step.value) else s, rest)
  {
    if step.Some? {
      assert ([step.value] + rest)[1..] == rest;
    } else {
      assert [] + rest == rest;
    }
  }

  /** Every run of the dispatcher is a run of each of its streams. */
  lemma {:induction false} RunProjects<C, E>(s: State<C, E>, steps: seq<LoopStep<C, E>>)
    requires Run(s, steps).Some?
    ensures DispatcherLedger.Run(s.contents, ContentSteps(steps)) == Some(Run(s, steps).value.contents)
    ensures DispatcherLedger.Run(s.events, EventSteps(steps)) == Some(Run(s, steps).value.events)
    decreases |steps|
  {
    if steps != [] {
      RunProjects(Apply(s, steps[0]), steps[1..]);
      RunMaybe(s.contents, OnContents(steps[0]), ContentSteps(steps[1..]));
      RunMaybe(s.events, OnEvents(steps[0]), EventSteps(steps[1..]));
    }
  }

  /** Both streams keep their ledger in every run of the loop with its producers. */
  lemma DispatcherKeepsBothLedgers<C, E>(batch: nat, capacity: nat, steps: seq<LoopStep<C, E>>)
    requires 1 <= batch && 1 <= capacity && Run(Init<C, E>(batch, capacity), steps).Some?
    ensures
      var s := Run(Init<C, E>(batch, capacity), steps).value;
      && Items(Pipeline(s.contents.lane)) == Items(Survivors(s.contents.accepted, s.contents.dropped, |s.contents.accepted|))
      && Items(Pipeline(s.events.lane)) == Items(Survivors(s.events.accepted, s.events.dropped, |s.events.accepted|))
      && (forall i :: 0 <= i < |s.contents.lane.sent| - s.contents.finals ==> 1 <= |s.contents.lane.sent[i]| <= batch)
      && (forall i :: 0 <= i < |s.events.lane.sent| - s.events.finals ==> 1 <= |s.events.lane.sent[i]| <= batch)
  {
    RunProjects(Init<C, E>(batch, capacity), steps);
    StreamLedger(batch, capacity, ContentSteps(steps));
    StreamLedger(batch, capacity, EventSteps(steps));
  }

  // ----- shutdown -----

  predicate ByLoop<C, E>(step: LoopStep<C, E>) {
    !step.Produce? && !step.ProduceEvent?
  }

  ghost predicate Drained<C, E>(s: State<C, E>) {
    && (s.phase != Selecting ==> s.contents.mode != Live && s.events.mode != Live)
    && (s.phase in {DrainingEvents, Exited} ==> s.contents.lane.chan == [])
    && (s.phase == Exited ==> s.contents.lane.buf == [] && s.events.lane.buf == [] && s.events.lane.chan == [])
  }

  lemma {:induction false} LoopOnlyRunDrains<C, E>(s: State<C, E>, steps: seq<LoopStep<C, E>>)
    requires Drained(s) && Run(s, steps).Some?
    requires forall i :: 0 <= i < |steps| ==> ByLoop(steps[i])
    ensures Drained(Run(s, steps).value)
    decreases |steps|
  {
    if steps != [] {
      assert ByLoop(steps[0]);
      LoopOnlyRunDrains(Apply(s, steps[0]), steps[1..]);
    }
  }

  /**
   After cancellation, with producers stopped, the loop ends with both channels and
   buffers empty, so everything accepted and not dropped was handed over in order.
   */
  lemma ShutdownHandsOverEverything<C, E>(
      batch: nat, capacity: nat, steps: seq<LoopStep<C, E>>, after: seq<LoopStep<C, E>>)
    requires 1 <= batch && 1 <= capacity && Run(Init<C, E>(batch, capacity), steps).Some?
    requires
      var s := Run(Init<C, E>(batch, capacity), steps).value;
      && Enabled(s, OnCancel)
      && Run(Apply(s, OnCancel), after).Some?
      && Run(Apply(s, OnCancel), after).value.phase == Exited
    requires forall i :: 0 <= i < |after| ==> ByLoop(after[i])
    ensures
      var t := Run(Apply(Run(Init<C, E>(batch, capacity), steps).value, OnCancel), after).value;
      && t.contents.lane.chan == [] && t.contents.lane.buf == []
      && t.events.lane.chan == [] && t.events.lane.buf == []
      && Items(Flatten(t.contents.lane.sent))
         == Items(Survivors(t.contents.accepted, t.contents.dropped, |t.contents.accepted|))
      && Items(Flatten(t.events.lane.sent))
         == Items(Survivors(t.events.accepted, t.events.dropped, |t.events.accepted|))
  {
    var s := Run(Init<C, E>(batch, capacity), steps).value;
    var t := Run(Apply(s, OnCancel), after).value;
    LoopOnlyRunDrains(Apply(s, OnCancel), after);
    RunConcat(Init<C, E>(batch, capacity), steps, [OnCancel] + after);
    assert ([OnCancel] + after)[1..] == after;
    DispatcherKeepsBothLedgers(batch, capacity, steps + ([OnCancel] + after));
    assert Pipeline(t.contents.lane) == Flatten(t.contents.lane.sent);
    assert Pipeline(t.events.lane) == Flatten(t.events.lane.sent);
  }

  lemma {:induction false} RunConcat<C, E>(s: State<C, E>, a: seq<LoopStep<C, E>>, b: seq<LoopStep<C, E>>)
    requires Run(s, a).Some?
    ensures Run(s, a + b) == Run(Run(s, a).value, b)
    decreases |a|
  {
    if a == [] {
      assert a + b == b;
    } else {
      assert (a + b)[1..] == a[1..] + b;
      RunConcat(Apply(s, a[0]), a[1..], b);
    }
  }

  /** What the loop still has to do before it exits. */
  function Remaining<C, E>(s: State<C, E>): nat {
    |s.contents.lane.chan| + |s.events.lane.chan|
    + match s.phase
      case Selecting => 3
      case DrainingContents => 2
      case DrainingEvents => 1
      case Exited => 0
  }

  predicate Cancelled<C, E>(s: State<C, E>) {
    s.phase != Selecting && (s.phase != Exited ==> s.contents.mode == Draining && s.events.mode == Draining)
  }

  lemma {:induction false} RunKeepsCancelled<C, E>(s: State<C, E>, steps: seq<LoopStep<C, E>>)
    requires Cancelled(s) && Run(s, steps).Some?
    ensures Cancelled(Run(s, steps).value)
    decreases |steps|
  {
    if steps != [] { RunKeepsCancelled(Apply(s, steps[0]), steps[1..]); }
  }

  /**
   In every run after cancellation, producers or not: until it exits the loop has an
   enabled step, and each of its steps brings the exit closer.
   */
  lemma CancelledLoopExits<C, E>(s: State<C, E>, after: seq<LoopStep<C, E>>)
    requires Enabled(s, OnCancel) && Run(Apply(s, OnCancel), after).Some?
    requires Run(Apply(s, OnCancel), after).value.phase != Exited
    ensures
      var t := Run(Apply(s, OnCancel), after).value;
      && (exists step: LoopStep<C, E> :: ByLoop(step) && Enabled(t, step))
      && (forall step: LoopStep<C, E> :: ByLoop(step) && Enabled(t, step) ==> Remaining(Apply(t, step)) < Remaining(t))
  {
    RunKeepsCancelled(Apply(s, OnCancel), after);
    var t := Run(Apply(s, OnCancel), after).value;
    var next: LoopStep<C, E> :=
      if t.phase == DrainingContents then (if t.contents.lane.chan == [] then ContentsEmpty else DrainContent)
      else (if t.events.lane.chan == [] then FlushAndExit else DrainEvent);
    assert ByLoop(next) && Enabled(t, next);
  }

  /** A receive arm moves its own lane as the lane's method does and leaves the other lane alone. */
  lemma ArmsMoveTheirLane<C, E>(s: State<C, E>)
    ensures Enabled(s, OnContent) ==>
      Apply(s, OnContent) == s.(contents := s.contents.(lane := Lanes.Receive(s.contents.lane, s.contents.batch)))
    ensures Enabled(s, OnEvent) ==>
      Apply(s, OnEvent) == s.(events := s.events.(lane := Lanes.Receive(s.events.lane, s.events.batch)))
  {}

  /** One tick empties both buffers, each into a batch of its own unless it was empty. */
  lemma TimerSendsBoth<C, E>(s: State<C, E>)
    requires Enabled(s, OnTimer)
    ensures
      var c, e := s.contents.lane, s.events.lane;
      var s' := Apply(s, OnTimer);
      && s'.phase == s.phase && s'.contents.lane.buf == [] && s'.events.lane.buf == []
      && s'.contents.lane.chan == c.chan && s'.events.lane.chan == e.chan
      && s'.contents.lane.sent == (if c.buf == [] then c.sent else c.sent + [c.buf])
      && s'.events.lane.sent == (if e.buf == [] then e.sent else e.sent + [e.buf])
  {}
}
