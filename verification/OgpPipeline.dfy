/**
 Every interleaving of post-commit enqueue calls with any number of workers. A
 step is one repository call, one clock read or one fetch. History: who claimed a
 job last (`owner`), how often it was fetched, the rows written to the cache in
 order (`stored`), and what became of each URL of a post (slots).
 */
module OgpPipeline {
  import opened Text
  import opened Wrappers
  import opened OgpStores
  import Sums

  /** Where a worker is in `process`; each busy phase holds its copy of the job. */
  datatype Phase =
    | Idle
    | Fetching(job: Job)
    | Storing(job: Job, preview: Preview)   // clock read, cache write pending
    | Stored(job: Job, preview: Preview)
    | Linked(job: Job)
    | Retrying(job: Job)

  /** What a cache lookup told the enqueuer to do next. */
  datatype Decision = Hit | Miss

  /** What became of one URL of a post. */
  datatype Slot = Skipped | FromCache | ByJob(id: Str)

  datatype Call = Call(urls: seq<Str>, now: int, slots: seq<Slot>, decision: Option<Decision>)

  /** A job's terminal result as it was written to the cache. */
  datatype Outcome = Outcome(id: Str, row: Preview)

  datatype State = State(
    clock: int,
    st: Stores,
    workers: map<nat, Phase>,
    calls: map<Str, Call>,
    owner: map<Str, nat>,
    fetches: map<Str, nat>,
    stored: seq<Outcome>)

  datatype Step =
    | Tick(d: nat)
    | Begin(post: Str, urls: seq<Str>)
    | Lookup(post: Str)
    | Act(post: Str, id: Str)
    | Claim(w: nat, id: Str)
    | Answer(w: nat, reply: Reply)
    | Upsert(w: nat)
    | Attach(w: nat)
    | Finish(w: nat)
    | Fail(w: nat)
    | Requeue(w: nat)

  predicate WorkerStep(step: Step) {
    step.Claim? || step.Answer? || step.Upsert? || step.Attach? || step.Finish? || step.Fail? || step.Requeue?
  }

  predicate Pending(s: State, post: Str) {
    post in s.calls && |s.calls[post].slots| < |s.calls[post].urls|
  }

  /** The URL a call is working on. */
  function Current(c: Call): Str
    requires |c.slots| < |c.urls|
  {
    c.urls[|c.slots|]
  }

  predicate Enabled(env: Env, s: State, step: Step) {
    match step
    case Tick(_) => true
    case Begin(post, _) => post != [] && post !in s.calls
    case Lookup(post) => Pending(s, post) && s.calls[post].decision.None?
    case Act(post, id) =>
      && Pending(s, post) && s.calls[post].decision.Some?
      && env.normalize(Current(s.calls[post])).Some?
      && (s.calls[post].decision.value.Miss? ==> id !in s.st.jobs)
    case Claim(w, id) => w in s.workers && s.workers[w].Idle? && Oldest(s.st.jobs, id)
    case Answer(w, _) => w in s.workers && s.workers[w].Fetching?
    case Upsert(w) => w in s.workers && s.workers[w].Storing?
    case Attach(w) => w in s.workers && s.workers[w].Stored? && s.workers[w].preview.ok
    case Finish(w) => w in s.workers && s.workers[w].Linked?
    case Fail(w) => w in s.workers && s.workers[w].Stored? && !s.workers[w].preview.ok
    case Requeue(w) => w in s.workers && s.workers[w].Retrying?
  }

  function Fetches(s: State, id: Str): nat {
    if id in s.fetches then s.fetches[id] else 0
  }

  /** After a fetch returned and the worker read the clock. */
  function Answered(env: Env, job: Job, reply: Reply, now: int): Phase {
    match Fetch(env, job.url, reply)
    case Got(p) => Storing(job, OkRow(p, now))
    case Broken(e) => if Retries(job, e) then Retrying(job) else Storing(job, ErrorRow(job, now))
  }

  /** The clock reading a stored row's TTL was counted from. */
  function ReadAt(p: Preview): int {
    p.expiresAt - if p.ok then SUCCESS_TTL else ERROR_TTL
  }

  function LookedUp(env: Env, rows: RowMap, c: Call): Call
    requires |c.slots| < |c.urls|
  {
    var n := env.normalize(Current(c));
    if n.None? then c.(slots := c.slots + [Skipped])
    else if !FreshRow(rows, env.hash(n.value), c.now) then c.(decision := Some(Miss))
    else if rows[env.hash(n.value)].ok then c.(decision := Some(Hit))
    else c.(slots := c.slots + [Skipped])
  }

  function Acted(env: Env, s: State, post: Str, id: Str): State
    requires Enabled(env, s, Act(post, id))
  {
    var c := s.calls[post];
    var url, i := env.normalize(Current(c)).value, |c.slots|;
    var slot := if c.decision.value.Hit? then FromCache else ByJob(id);
    s.(st := if c.decision.value.Hit?
             then s.st.(links := Attached(s.st.links, post, Link(env.hash(url), i)))
             else s.st.(jobs := Enqueued(s.st.jobs, Job(id, env.hash(url), url, post, i, s.clock, Queued, 0))),
       calls := s.calls[post := c.(slots := c.slots + [slot], decision := None)])
  }

  function Apply(env: Env, s: State, step: Step): State
    requires Enabled(env, s, step)
  {
    match step
    case Tick(d) => s.(clock := s.clock + d)
    case Begin(post, urls) => s.(calls := s.calls[post := Call(urls, s.clock, [], None)])
    case Lookup(post) => s.(calls := s.calls[post := LookedUp(env, s.st.rows, s.calls[post])])
    case Act(post, id) => Acted(env, s, post, id)
    case Claim(w, id) =>
      var jobs := Claimed(s.st.jobs, id);
      s.(st := s.st.(jobs := jobs), workers := s.workers[w := Fetching(jobs[id])], owner := s.owner[id := w])
    case Answer(w, reply) =>
      var job := s.workers[w].job;
      s.(workers := s.workers[w := Answered(env, job, reply, s.clock)],
         fetches := s.fetches[job.id := Fetches(s, job.id) + 1])
    case Upsert(w) =>
      var p := s.workers[w].preview;
      s.(st := s.st.(rows := Upserted(s.st.rows, p)),
         workers := s.workers[w := Stored(s.workers[w].job, p)],
         stored := s.stored + [Outcome(s.workers[w].job.id, p)])
    case Attach(w) =>
      var job, hash := s.workers[w].job, s.workers[w].preview.urlHash;
      s.(st := if job.post == [] then s.st
               else s.st.(links := Attached(s.st.links, job.post, Link(hash, job.position))),
         workers := s.workers[w := Linked(job)])
    case Finish(w) =>
      s.(st := s.st.(jobs := MarkedDone(s.st.jobs, s.workers[w].job.id)), workers := s.workers[w := Idle])
    case Fail(w) =>
      s.(st := s.st.(jobs := MarkedFailed(s.st.jobs, s.workers[w].job.id, false)), workers := s.workers[w := Idle])
    case Requeue(w) =>
      s.(st := s.st.(jobs := MarkedFailed(s.st.jobs, s.workers[w].job.id, true)), workers := s.workers[w := Idle])
  }

  function Idles(n: nat): (m: map<nat, Phase>)
    ensures forall w: nat :: w in m <==> w < n
    ensures forall w :: w in m ==> m[w].Idle?
  {
    if n == 0 then map[] else Idles(n - 1)[n - 1 := Idle]
  }

  function Init(clock: int, workers: nat): State {
    State(clock, Stores(map[], map[], map[]), Idles(workers), map[], map[], map[], [])
  }

  /** The state after a schedule, or None when some step was not enabled. */
  function Run(env: Env, s: State, steps: seq<Step>): Option<State>
    decreases |steps|
  {
    if steps == [] then Some(s)
    else if Enabled(env, s, steps[0]) then Run(env, Apply(env, s, steps[0]), steps[1..])
    else None
  }

  // ----- ownership and attempts -----

  predicate Busy(s: State, w: nat) {
    w in s.workers && !s.workers[w].Idle?
  }

  /** A busy worker's copy is the stored row, running and owned by that worker. */
  predicate WorkerOk(s: State, w: nat)
    requires Busy(s, w)
  {
    var job := s.workers[w].job;
    && job.id in s.st.jobs && s.st.jobs[job.id] == job
    && job.status == Running
    && job.id in s.owner && s.owner[job.id] == w
    && (s.workers[w].Retrying? ==> job.attempts < MAX_ATTEMPTS)
  }

  predicate Owned(s: State, id: Str) {
    id in s.owner && Busy(s, s.owner[id]) && s.workers[s.owner[id]].job.id == id
  }

  predicate JobOk(s: State, id: Str)
    requires id in s.st.jobs
  {
    var job := s.st.jobs[id];
    && job.id == id
    && job.attempts <= MAX_ATTEMPTS
    && (job.status == Queued ==> job.attempts < MAX_ATTEMPTS)
    && (job.status != Queued ==> 1 <= job.attempts)
    && (job.status == Running ==> Owned(s, id))
    && Fetches(s, id) ==
       if job.status == Running && Owned(s, id) && s.workers[s.owner[id]].Fetching? then job.attempts - 1 else job.attempts
  }

  ghost predicate Owning(s: State) {
    && (forall w :: Busy(s, w) ==> WorkerOk(s, w))
    && (forall id :: id in s.st.jobs ==> JobOk(s, id))
    && (forall id :: id in s.fetches ==> id in s.st.jobs)
  }

  /** Jobs, workers and history of jobs are untouched. */
  lemma QuietKeepsOwning(s: State, s': State)
    requires Owning(s)
    requires s'.st.jobs == s.st.jobs && s'.workers == s.workers && s'.owner == s.owner && s'.fetches == s.fetches
    ensures Owning(s')
  {
    forall w | Busy(s', w) ensures WorkerOk(s', w) { assert WorkerOk(s, w); }
    forall id | id in s'.st.jobs ensures JobOk(s', id) { assert JobOk(s, id); }
  }

  lemma ActKeepsOwning(env: Env, s: State, post: Str, id: Str)
    requires Owning(s) && Enabled(env, s, Act(post, id))
    ensures Owning(Apply(env, s, Act(post, id)))
  {
    var s' := Apply(env, s, Act(post, id));
    if s.calls[post].decision.value.Hit? {
      QuietKeepsOwning(s, s');
    } else {
      forall w | Busy(s', w) ensures WorkerOk(s', w) { assert WorkerOk(s, w); }
      forall x | x in s'.st.jobs ensures JobOk(s', x) {
        if x != id { assert JobOk(s, x); }
      }
    }
  }

  /** Only worker `w` and job `id` move, and no other worker holds that job. */
  ghost predicate Moves(s: State, s': State, w: nat, id: Str) {
    && w in s.workers && s'.workers.Keys == s.workers.Keys
    && (forall v :: v in s.workers && v != w ==> s'.workers[v] == s.workers[v])
    && id in s.st.jobs && s'.st.jobs.Keys == s.st.jobs.Keys
    && (forall x :: x in s.st.jobs && x != id ==> s'.st.jobs[x] == s.st.jobs[x] && Fetches(s', x) == Fetches(s, x))
    && (forall x :: x != id ==> (x in s'.owner <==> x in s.owner))
    && (forall x :: x != id && x in s.owner ==> s'.owner[x] == s.owner[x])
    && (forall v :: Busy(s, v) && v != w ==> s.workers[v].job.id != id)
    && (Busy(s, w) ==> s.workers[w].job.id == id)
    && (forall x :: x in s'.fetches ==> x in s.fetches || x == id)
  }

  lemma MoveKeepsOwning(s: State, s': State, w: nat, id: Str)
    requires Owning(s) && Moves(s, s', w, id)
    requires Busy(s', w) ==> s'.workers[w].job.id == id && WorkerOk(s', w)
    requires JobOk(s', id)
    ensures Owning(s')
  {
    forall v | Busy(s', v) ensures WorkerOk(s', v) {
      if v != w { assert WorkerOk(s, v); }
    }
    forall x | x in s'.st.jobs ensures JobOk(s', x) {
      if x != id {
        assert JobOk(s, x);
        assert Owned(s, x) <==> Owned(s', x);
      }
    }
  }

  lemma ClaimKeepsOwning(env: Env, s: State, w: nat, id: Str)
    requires Owning(s) && Enabled(env, s, Claim(w, id))
    ensures Owning(Apply(env, s, Claim(w, id)))
  {
    var s' := Apply(env, s, Claim(w, id));
    assert JobOk(s, id);
    forall v | Busy(s, v) ensures s.workers[v].job.id != id { assert WorkerOk(s, v); }
    assert Moves(s, s', w, id);
    MoveKeepsOwning(s, s', w, id);
  }

  lemma NotShared(s: State, w: nat, v: nat)
    requires Owning(s) && Busy(s, w) && Busy(s, v) && v != w
    ensures s.workers[v].job.id != s.workers[w].job.id
  {
    assert WorkerOk(s, w) && WorkerOk(s, v);
  }

  /** A busy worker changes its own phase and the status of its own job, nothing else of either. */
  lemma BusyShape(env: Env, s: State, step: Step)
    requires Owning(s) && Enabled(env, s, step) && WorkerStep(step) && !step.Claim?
    ensures
      var s', w, job := Apply(env, s, step), step.w, s.workers[step.w].job;
      && Busy(s, w) && job.status == Running
      && job.id in s.st.jobs && s.st.jobs[job.id] == job && job.id in s'.st.jobs
      && w in s'.workers && s'.workers == s.workers[w := s'.workers[w]]
      && s'.st.jobs == s.st.jobs[job.id := job.(status := s'.st.jobs[job.id].status)]
      && s'.owner == s.owner && s'.clock == s.clock && s'.calls == s.calls
      && (s'.fetches == s.fetches || s'.fetches == s.fetches[job.id := Fetches(s, job.id) + 1])
  {
    var w := step.w;
    assert Busy(s, w) && WorkerOk(s, w);
    var job := s.workers[w].job;
    assert s.st.jobs[job.id := job] == s.st.jobs;
  }

  lemma ShapeMoves(s: State, s': State, w: nat)
    requires Owning(s) && Busy(s, w) && w in s'.workers
    requires s'.workers == s.workers[w := s'.workers[w]] && s'.owner == s.owner
    requires s.workers[w].job.id in s.st.jobs && s.workers[w].job.id in s'.st.jobs
    requires var id := s.workers[w].job.id; s'.st.jobs == s.st.jobs[id := s'.st.jobs[id]]
    requires forall x :: x != s.workers[w].job.id ==>
      (x in s'.fetches <==> x in s.fetches) && Fetches(s', x) == Fetches(s, x)
    ensures Moves(s, s', w, s.workers[w].job.id)
  {
    forall v | Busy(s, v) && v != w ensures s.workers[v].job.id != s.workers[w].job.id { NotShared(s, w, v); }
  }

  lemma BusyMoves(env: Env, s: State, step: Step)
    requires Owning(s) && Enabled(env, s, step) && WorkerStep(step) && !step.Claim?
    ensures Moves(s, Apply(env, s, step), step.w, s.workers[step.w].job.id)
  {
    BusyShape(env, s, step);
    ShapeMoves(s, Apply(env, s, step), step.w);
  }

  lemma BusyJobOk(env: Env, s: State, step: Step)
    requires Owning(s) && Enabled(env, s, step) && WorkerStep(step) && !step.Claim?
    ensures
      var s', w, id := Apply(env, s, step), step.w, s.workers[step.w].job.id;
      && id in s'.st.jobs && JobOk(s', id)
      && (Busy(s', w) ==> s'.workers[w].job.id == id && WorkerOk(s', w))
  {
    assert Busy(s, step.w) && WorkerOk(s, step.w);
    assert JobOk(s, s.workers[step.w].job.id);
  }

  lemma BusyStepKeepsOwning(env: Env, s: State, step: Step)
    requires Owning(s) && Enabled(env, s, step) && WorkerStep(step) && !step.Claim?
    ensures Owning(Apply(env, s, step))
  {
    BusyMoves(env, s, step);
    BusyJobOk(env, s, step);
    MoveKeepsOwning(s, Apply(env, s, step), step.w, s.workers[step.w].job.id);
  }

  lemma StepKeepsOwning(env: Env, s: State, step: Step)
    requires Owning(s) && Enabled(env, s, step)
    ensures Owning(Apply(env, s, step))
  {
    match step
    case Act(post, id) => ActKeepsOwning(env, s, post, id);
    case Claim(w, id) => ClaimKeepsOwning(env, s, w, id);
    case Tick(_) => QuietKeepsOwning(s, Apply(env, s, step));
    case Begin(_, _) => QuietKeepsOwning(s, Apply(env, s, step));
    case Lookup(_) => QuietKeepsOwning(s, Apply(env, s, step));
    case _ => BusyStepKeepsOwning(env, s, step);
  }

  lemma {:induction false} RunKeepsOwning(env: Env, s: State, steps: seq<Step>)
    requires Owning(s) && Run(env, s, steps).Some?
    ensures Owning(Run(env, s, steps).value)
    decreases |steps|
  {
    if steps != [] {
      StepKeepsOwning(env, s, steps[0]);
      RunKeepsOwning(env, Apply(env, s, steps[0]), steps[1..]);
    }
  }

  // ----- life cycle -----

  predicate Terminal(job: Job) {
    job.status == Done || job.status == Failed
  }

  predicate Holds(s: State, w: nat, id: Str) {
    Busy(s, w) && s.workers[w].job.id == id
  }

  /** The only worker holding the job. */
  ghost predicate SoleHolder(s: State, w: nat, id: Str) {
    Holds(s, w, id) && forall v :: Holds(s, v, id) ==> v == w
  }

  /**
   In every interleaving of any number of workers: a running job has exactly one
   worker, a queued one has an attempt left, and none is fetched more than three times.
   */
  lemma JobLifecycle(env: Env, clock: int, workers: nat, steps: seq<Step>, id: Str)
    requires Run(env, Init(clock, workers), steps).Some?
    requires id in Run(env, Init(clock, workers), steps).value.st.jobs
    ensures
      var s := Run(env, Init(clock, workers), steps).value;
      var job := s.st.jobs[id];
      && (job.status == Running ==> exists w :: SoleHolder(s, w, id))
      && (job.status == Queued ==> job.attempts < 3)
      && Fetches(s, id) <= job.attempts <= 3
  {
    RunKeepsOwning(env, Init(clock, workers), steps);
    var s := Run(env, Init(clock, workers), steps).value;
    assert JobOk(s, id);
    if s.st.jobs[id].status == Running {
      forall v | Holds(s, v, id) ensures v == s.owner[id] { assert WorkerOk(s, v); }
      assert SoleHolder(s, s.owner[id], id);
    }
  }

  lemma TerminalStep(env: Env, s: State, step: Step, id: Str)
    requires Owning(s) && Enabled(env, s, step)
    requires id in s.st.jobs && Terminal(s.st.jobs[id])
    ensures var jobs := Apply(env, s, step).st.jobs; id in jobs && jobs[id] == s.st.jobs[id]
  {
    if WorkerStep(step) && !step.Claim? { assert WorkerOk(s, step.w); }
  }

  lemma {:induction false} TerminalRun(env: Env, s: State, steps: seq<Step>, id: Str)
    requires Owning(s) && Run(env, s, steps).Some?
    requires id in s.st.jobs && Terminal(s.st.jobs[id])
    ensures var jobs := Run(env, s, steps).value.st.jobs; id in jobs && jobs[id] == s.st.jobs[id]
    decreases |steps|
  {
    if steps != [] {
      TerminalStep(env, s, steps[0], id);
      StepKeepsOwning(env, s, steps[0]);
      TerminalRun(env, Apply(env, s, steps[0]), steps[1..], id);
    }
  }

  /** Done and failed are never left: whatever runs afterwards, the job stays as it is. */
  lemma TerminalIsFinal(env: Env, clock: int, workers: nat, before: seq<Step>, after: seq<Step>, id: Str)
    requires Run(env, Init(clock, workers), before).Some?
    requires Run(env, Run(env, Init(clock, workers), before).value, after).Some?
    requires var jobs := Run(env, Init(clock, workers), before).value.st.jobs; id in jobs && Terminal(jobs[id])
    ensures
      var s := Run(env, Init(clock, workers), before).value;
      var jobs := Run(env, s, after).value.st.jobs;
      id in jobs && jobs[id] == s.st.jobs[id]
  {
    RunKeepsOwning(env, Init(clock, workers), before);
    TerminalRun(env, Run(env, Init(clock, workers), before).value, after, id);
  }

  // ----- draining -----

  /** Each attempt left costs at most five worker steps. */
  function JobWeight(job: Job): nat {
    if Terminal(job) || job.attempts >= MAX_ATTEMPTS then 0 else 5 * (MAX_ATTEMPTS - job.attempts)
  }

  /** The steps a worker still owes the job it holds. */
  function PhaseWeight(p: Phase): nat {
    match p
    case Idle => 0
    case Fetching(_) => 4
    case Storing(_, _) => 3
    case Stored(_, _) => 2
    case Linked(_) => 1
    case Retrying(_) => 1
  }

  ghost function Measure(s: State): nat {
    Sums.Total(s.st.jobs, JobWeight) + Sums.Total(s.workers, PhaseWeight)
  }

  /** The attempts an open job has left. */
  function AttemptsLeft(job: Job): nat {
    if Terminal(job) || job.attempts >= MAX_ATTEMPTS then 0 else MAX_ATTEMPTS - job.attempts
  }

  /** A claimed attempt whose fetch has not been answered yet. */
  function Unanswered(p: Phase): nat {
    if p.Fetching? then 1 else 0
  }

  /** The fetches that may still happen. */
  ghost function Budget(s: State): nat {
    Sums.Total(s.st.jobs, AttemptsLeft) + Sums.Total(s.workers, Unanswered)
  }

  /** One worker and one job change: so do the sums, by the difference of their weights. */
  lemma SumsMove(s: State, w: nat, p: Phase, id: Str, job: Job)
    requires w in s.workers && id in s.st.jobs
    ensures
      var s' := s.(workers := s.workers[w := p], st := s.st.(jobs := s.st.jobs[id := job]));
      && Measure(s') + JobWeight(s.st.jobs[id]) + PhaseWeight(s.workers[w]) ==
           Measure(s) + JobWeight(job) + PhaseWeight(p)
      && Budget(s') + AttemptsLeft(s.st.jobs[id]) + Unanswered(s.workers[w]) ==
           Budget(s) + AttemptsLeft(job) + Unanswered(p)
  {
    Sums.TotalUpdate(s.st.jobs, JobWeight, id, job);
    Sums.TotalUpdate(s.workers, PhaseWeight, w, p);
    Sums.TotalUpdate(s.st.jobs, AttemptsLeft, id, job);
    Sums.TotalUpdate(s.workers, Unanswered, w, p);
  }

  lemma ClaimDescends(env: Env, s: State, w: nat, id: Str)
    requires Owning(s) && Enabled(env, s, Claim(w, id))
    ensures Measure(Apply(env, s, Claim(w, id))) < Measure(s)
    ensures Budget(Apply(env, s, Claim(w, id))) <= Budget(s)
  {
    assert JobOk(s, id);
    var job := Claimed(s.st.jobs, id)[id];
    SumsMove(s, w, Fetching(job), id, job);
  }

  /** Every step of a busy worker brings it closer to idle; answering spends its fetch. */
  lemma PhaseDescends(env: Env, s: State, step: Step)
    requires Enabled(env, s, step) && WorkerStep(step) && !step.Claim?
    ensures
      var s', w := Apply(env, s, step), step.w;
      && w in s'.workers && PhaseWeight(s'.workers[w]) < PhaseWeight(s.workers[w])
      && Unanswered(s'.workers[w]) + (if step.Answer? then 1 else 0) <= Unanswered(s.workers[w])
  {}

  /** A busy worker changes its own phase and the status of its own job, downhill. */
  lemma BusyEffect(env: Env, s: State, step: Step)
    requires Owning(s) && Enabled(env, s, step) && WorkerStep(step) && !step.Claim?
    ensures
      var s', w, job := Apply(env, s, step), step.w, s.workers[step.w].job;
      && job.id in s.st.jobs && s.st.jobs[job.id] == job && job.id in s'.st.jobs
      && w in s'.workers && s'.workers == s.workers[w := s'.workers[w]]
      && s'.st.jobs == s.st.jobs[job.id := job.(status := s'.st.jobs[job.id].status)]
      && job.status == Running && s'.clock == s.clock
      && JobWeight(s'.st.jobs[job.id]) <= JobWeight(job)
      && PhaseWeight(s'.workers[w]) < PhaseWeight(s.workers[w])
      && AttemptsLeft(s'.st.jobs[job.id]) <= AttemptsLeft(job)
      && Unanswered(s'.workers[w]) + (if step.Answer? then 1 else 0) <= Unanswered(s.workers[w])
  {
    BusyShape(env, s, step);
    PhaseDescends(env, s, step);
  }

  lemma BusyStepDescends(env: Env, s: State, step: Step)
    requires Owning(s) && Enabled(env, s, step) && WorkerStep(step) && !step.Claim?
    ensures Measure(Apply(env, s, step)) < Measure(s)
    ensures Budget(Apply(env, s, step)) + (if step.Answer? then 1 else 0) <= Budget(s)
  {
    BusyEffect(env, s, step);
    var s', w := Apply(env, s, step), step.w;
    var id := s.workers[w].job.id;
    SumsMove(s, w, s'.workers[w], id, s'.st.jobs[id]);
  }

  lemma StepDescends(env: Env, s: State, step: Step)
    requires Owning(s) && Enabled(env, s, step) && (WorkerStep(step) || step.Tick?)
    ensures Measure(Apply(env, s, step)) + (if WorkerStep(step) then 1 else 0) <= Measure(s)
    ensures Budget(Apply(env, s, step)) + (if step.Answer? then 1 else 0) <= Budget(s)
  {
    match step
    case Tick(_) =>
    case Claim(w, id) => ClaimDescends(env, s, w, id);
    case _ => BusyStepDescends(env, s, step);
  }

  function WorkerSteps(steps: seq<Step>): nat {
    if steps == [] then 0 else (if WorkerStep(steps[0]) then 1 else 0) + WorkerSteps(steps[1..])
  }

  function Answers(steps: seq<Step>): nat {
    if steps == [] then 0 else (if steps[0].Answer? then 1 else 0) + Answers(steps[1..])
  }

  lemma {:induction false} RunDescends(env: Env, s: State, steps: seq<Step>)
    requires Owning(s) && Run(env, s, steps).Some?
    requires forall step :: step in steps ==> WorkerStep(step) || step.Tick?
    ensures Measure(Run(env, s, steps).value) + WorkerSteps(steps) <= Measure(s)
    ensures Budget(Run(env, s, steps).value) + Answers(steps) <= Budget(s)
    decreases |steps|
  {
    if steps != [] {
      StepDescends(env, s, steps[0]);
      StepKeepsOwning(env, s, steps[0]);
      RunDescends(env, Apply(env, s, steps[0]), steps[1..]);
    }
  }

  lemma {:induction false} OldestAmong(jobs: JobMap, ids: set<Str>) returns (id: Str)
    requires ids <= jobs.Keys && exists x :: x in ids && jobs[x].status.Queued?
    ensures id in ids && jobs[id].status.Queued? && NoEarlier(jobs, ids, jobs[id].enqueuedAt)
    decreases |ids|
  {
    var x :| x in ids && jobs[x].status.Queued?;
    id := x;
    if y :| y in ids - {x} && jobs[y].status.Queued? {
      var best := OldestAmong(jobs, ids - {x});
      id := if jobs[best].enqueuedAt < jobs[x].enqueuedAt then best else x;
    }
  }

  ghost predicate CanMove(env: Env, s: State) {
    exists step :: WorkerStep(step) && Enabled(env, s, step)
  }

  lemma BusyCanMove(env: Env, s: State, w: nat)
    requires Busy(s, w)
    ensures CanMove(env, s)
  {
    var step := match s.workers[w]
      case Fetching(_) => Answer(w, Refused(NotHTML))
      case Storing(_, _) => Upsert(w)
      case Stored(_, p) => if p.ok then Attach(w) else Fail(w)
      case Linked(_) => Finish(w)
      case _ => Requeue(w);
    assert WorkerStep(step) && Enabled(env, s, step);
  }

  lemma OpenJobCanMove(env: Env, s: State, id: Str, w: nat)
    requires Owning(s) && w in s.workers && id in s.st.jobs && !Terminal(s.st.jobs[id])
    ensures CanMove(env, s)
  {
    if Busy(s, w) {
      BusyCanMove(env, s, w);
    } else if s.st.jobs[id].status == Running {
      assert JobOk(s, id);
      BusyCanMove(env, s, s.owner[id]);
    } else {
      assert id in s.st.jobs.Keys;
      var oldest := OldestAmong(s.st.jobs, s.st.jobs.Keys);
      assert WorkerStep(Claim(w, oldest)) && Enabled(env, s, Claim(w, oldest));
    }
  }

  /**
   With no new jobs, workers fetch at most as often as attempts are left, take at most
   `Measure` steps, and can always take another one while some job is not done or
   failed: the queue drains.
   */
  lemma QueueDrains(env: Env, clock: int, workers: nat, before: seq<Step>, after: seq<Step>)
    requires 1 <= workers && Run(env, Init(clock, workers), before).Some?
    requires Run(env, Run(env, Init(clock, workers), before).value, after).Some?
    requires forall step :: step in after ==> WorkerStep(step) || step.Tick?
    ensures
      var s := Run(env, Init(clock, workers), before).value;
      var s' := Run(env, s, after).value;
      && WorkerSteps(after) <= Measure(s) && Answers(after) <= Budget(s)
      && (CanMove(env, s') || forall id :: id in s'.st.jobs ==> Terminal(s'.st.jobs[id]))
  {
    RunKeepsOwning(env, Init(clock, workers), before);
    RunKeepsWorkers(env, Init(clock, workers), before);
    var s := Run(env, Init(clock, workers), before).value;
    RunDescends(env, s, after);
    RunKeepsWorkers(env, s, after);
    RunKeepsOwning(env, s, after);
    var s' := Run(env, s, after).value;
    forall id | id in s'.st.jobs && !Terminal(s'.st.jobs[id]) ensures CanMove(env, s') {
      assert 0 in s'.workers;
      OpenJobCanMove(env, s', id, 0);
    }
  }

  lemma {:induction false} RunKeepsWorkers(env: Env, s: State, steps: seq<Step>)
    requires Run(env, s, steps).Some?
    ensures Run(env, s, steps).value.workers.Keys == s.workers.Keys
    decreases |steps|
  {
    if steps != [] { RunKeepsWorkers(env, Apply(env, s, steps[0]), steps[1..]); }
  }

  // ----- order of completion, one worker -----

  /** A job that was ever claimed had only finished jobs before it. */
  ghost predicate InOrder(s: State) {
    && (forall id :: id in s.st.jobs ==> s.st.jobs[id].enqueuedAt <= s.clock)
    && (forall a, b :: a in s.st.jobs && b in s.st.jobs && Overtaken(s.st.jobs[a], s.st.jobs[b]) ==> Terminal(s.st.jobs[a]))
  }

  predicate Overtaken(a: Job, b: Job) {
    a.enqueuedAt < b.enqueuedAt && b.attempts > 0
  }

  lemma ClaimFindsOthersTerminal(env: Env, s: State, w: nat, id: Str, a: Str)
    requires Owning(s) && s.workers.Keys == {w} && Enabled(env, s, Claim(w, id))
    requires a in s.st.jobs && s.st.jobs[a].enqueuedAt < s.st.jobs[id].enqueuedAt
    ensures Terminal(s.st.jobs[a])
  {
    assert JobOk(s, a);
  }

  lemma StatusKeepsOrder(s: State, s': State, id: Str, status: Status)
    requires InOrder(s) && id in s.st.jobs && !Terminal(s.st.jobs[id])
    requires s'.st.jobs == s.st.jobs[id := s.st.jobs[id].(status := status)] && s'.clock == s.clock
    ensures InOrder(s')
  {
    forall a, b | a in s'.st.jobs && b in s'.st.jobs && Overtaken(s'.st.jobs[a], s'.st.jobs[b])
      ensures Terminal(s'.st.jobs[a])
    {
      assert Overtaken(s.st.jobs[a], s.st.jobs[b]);
    }
  }

  lemma ClaimKeepsOrder(env: Env, s: State, id: Str)
    requires Owning(s) && InOrder(s) && s.workers.Keys == {0} && Enabled(env, s, Claim(0, id))
    ensures InOrder(Apply(env, s, Claim(0, id)))
  {
    var s' := Apply(env, s, Claim(0, id));
    forall a, b | a in s'.st.jobs && b in s'.st.jobs && Overtaken(s'.st.jobs[a], s'.st.jobs[b])
      ensures Terminal(s'.st.jobs[a])
    {
      if b == id {
        ClaimFindsOthersTerminal(env, s, 0, b, a);
      } else {
        assert Overtaken(s.st.jobs[a], s.st.jobs[b]);
      }
    }
  }

  lemma ActKeepsOrder(env: Env, s: State, post: Str, id: Str)
    requires InOrder(s) && Enabled(env, s, Act(post, id))
    ensures InOrder(Apply(env, s, Act(post, id)))
  {
    var s' := Apply(env, s, Act(post, id));
    forall a, b | a in s'.st.jobs && b in s'.st.jobs && Overtaken(s'.st.jobs[a], s'.st.jobs[b])
      ensures Terminal(s'.st.jobs[a])
    {
      assert Overtaken(s.st.jobs[a], s.st.jobs[b]);
    }
  }

  lemma StepKeepsOrder(env: Env, s: State, step: Step)
    requires Owning(s) && InOrder(s) && s.workers.Keys == {0} && Enabled(env, s, step)
    ensures InOrder(Apply(env, s, step))
  {
    match step
    case Act(post, id) => ActKeepsOrder(env, s, post, id);
    case Claim(w, id) => ClaimKeepsOrder(env, s, id);
    case Tick(_) =>
    case Begin(_, _) =>
    case Lookup(_) =>
    case _ =>
      BusyEffect(env, s, step);
      var id := s.workers[step.w].job.id;
      StatusKeepsOrder(s, Apply(env, s, step), id, Apply(env, s, step).st.jobs[id].status);
  }

  lemma {:induction false} RunKeepsOrder(env: Env, s: State, steps: seq<Step>)
    requires Owning(s) && InOrder(s) && s.workers.Keys == {0} && Run(env, s, steps).Some?
    ensures InOrder(Run(env, s, steps).value)
    decreases |steps|
  {
    if steps != [] {
      StepKeepsOrder(env, s, steps[0]);
      StepKeepsOwning(env, s, steps[0]);
      RunKeepsOrder(env, Apply(env, s, steps[0]), steps[1..]);
    }
  }

  /**
   One worker: whenever a job is claimed, and ever after, every job enqueued earlier is
   done or failed; a retried job keeps its place at the head of the queue.
   */
  lemma EnqueueOrderCompletion(env: Env, clock: int, steps: seq<Step>, a: Str, b: Str)
    requires Run(env, Init(clock, 1), steps).Some?
    requires var jobs := Run(env, Init(clock, 1), steps).value.st.jobs;
      a in jobs && b in jobs && jobs[a].enqueuedAt < jobs[b].enqueuedAt
    ensures
      var s := Run(env, Init(clock, 1), steps).value;
      && (s.st.jobs[b].attempts > 0 ==> Terminal(s.st.jobs[a]))
      && (s.st.jobs[b].status != Queued ==> Terminal(s.st.jobs[a]))
      && (Enabled(env, s, Claim(0, b)) ==> Terminal(s.st.jobs[a]))
  {
    var s := Run(env, Init(clock, 1), steps).value;
    assert Init(clock, 1).workers.Keys == {0};
    RunKeepsOwning(env, Init(clock, 1), steps);
    RunKeepsOrder(env, Init(clock, 1), steps);
    RunKeepsWorkers(env, Init(clock, 1), steps);
    assert JobOk(s, b);
    assert s.st.jobs[b].attempts > 0 ==> Overtaken(s.st.jobs[a], s.st.jobs[b]);
    if Enabled(env, s, Claim(0, b)) { ClaimFindsOthersTerminal(env, s, 0, b, a); }
  }
}
