/**
 The refetch window: a lookup follows the last row stored under its hash. With any
 number of workers a miss inside the window of an outcome is due to another outcome
 read earlier and stored later; with one worker there is none.
 */
module OgpWindow {
  import opened Text
  import opened Wrappers
  import opened OgpStores
  import opened OgpPipeline
  import opened OgpSlots

  // ----- the cache holds the last stored row of each hash -----

  /** The last index under the hash, or -1. */
  function LastStored(stored: seq<Outcome>, hash: Str): (r: int)
    ensures -1 <= r < |stored|
    ensures r >= 0 ==> stored[r].row.urlHash == hash
    ensures forall i :: r < i < |stored| ==> stored[i].row.urlHash != hash
  {
    if stored == [] then -1
    else if stored[|stored| - 1].row.urlHash == hash then |stored| - 1
    else LastStored(stored[..|stored| - 1], hash)
  }

  lemma LastOfMore(stored: seq<Outcome>, o: Outcome, hash: Str)
    ensures LastStored(stored + [o], hash) ==
      if o.row.urlHash == hash then |stored| else LastStored(stored, hash)
  {
    assert (stored + [o])[..|stored|] == stored;
  }

  predicate Follows(rows: RowMap, stored: seq<Outcome>, h: Str) {
    var last := LastStored(stored, h);
    if last >= 0 then h in rows && rows[h] == stored[last].row else h !in rows
  }

  ghost predicate RowsFollow(s: State) {
    forall h :: h != [] ==> Follows(s.st.rows, s.stored, h)
  }

  lemma UpsertFollows(rows: RowMap, stored: seq<Outcome>, o: Outcome, h: Str)
    requires h != [] && Follows(rows, stored, h)
    ensures Follows(Upserted(rows, o.row), stored + [o], h)
  {
    LastOfMore(stored, o, h);
  }

  lemma OthersStoreNothing(env: Env, s: State, step: Step)
    requires Enabled(env, s, step) && !step.Upsert?
    ensures Apply(env, s, step).st.rows == s.st.rows && Apply(env, s, step).stored == s.stored
  {}

  lemma StepKeepsFollowing(env: Env, s: State, step: Step)
    requires RowsFollow(s) && Enabled(env, s, step)
    ensures RowsFollow(Apply(env, s, step))
  {
    if step.Upsert? {
      var o := Outcome(s.workers[step.w].job.id, s.workers[step.w].preview);
      forall h | h != [] ensures Follows(Upserted(s.st.rows, o.row), s.stored + [o], h) {
        UpsertFollows(s.st.rows, s.stored, o, h);
      }
    } else {
      OthersStoreNothing(env, s, step);
    }
  }

  lemma {:induction false} RunKeepsFollowing(env: Env, s: State, steps: seq<Step>)
    requires RowsFollow(s) && Run(env, s, steps).Some?
    ensures RowsFollow(Run(env, s, steps).value)
    decreases |steps|
  {
    if steps != [] {
      StepKeepsFollowing(env, s, steps[0]);
      RunKeepsFollowing(env, Apply(env, s, steps[0]), steps[1..]);
    }
  }

  // ----- each job is stored once, under its own hash -----

  /** Normalising the stored URL again gives it back, and the job's key is its hash. */
  predicate Settled(env: Env, job: Job) {
    env.normalize(job.url) == Some(job.url) && env.hash(job.url) == job.urlHash
  }

  /** The worker that holds the job has stored its result. */
  predicate PastStore(s: State, id: Str) {
    Owned(s, id) && (s.workers[s.owner[id]].Stored? || s.workers[s.owner[id]].Linked?)
  }

  predicate Finishing(s: State, id: Str) {
    id in s.st.jobs && (Terminal(s.st.jobs[id]) || (s.st.jobs[id].status == Running && PastStore(s, id)))
  }

  predicate HasOutcome(stored: seq<Outcome>, id: Str) {
    exists k :: 0 <= k < |stored| && stored[k].id == id
  }

  predicate OutcomeOk(env: Env, s: State, k: nat)
    requires k < |s.stored|
  {
    && Finishing(s, s.stored[k].id)
    && ReadAt(s.stored[k].row) <= s.clock
    && (Settled(env, s.st.jobs[s.stored[k].id]) ==> s.stored[k].row.urlHash == s.st.jobs[s.stored[k].id].urlHash)
  }

  predicate PendingOk(env: Env, s: State, w: nat)
    requires w in s.workers
  {
    s.workers[w].Storing? ==>
      && ReadAt(s.workers[w].preview) <= s.clock
      && (Settled(env, s.workers[w].job) ==> s.workers[w].preview.urlHash == s.workers[w].job.urlHash)
  }

  ghost predicate OncePerJob(stored: seq<Outcome>) {
    forall i, j :: 0 <= i < j < |stored| ==> stored[i].id != stored[j].id
  }

  ghost predicate StoredOk(env: Env, s: State) {
    && (forall k :: 0 <= k < |s.stored| ==> OutcomeOk(env, s, k))
    && OncePerJob(s.stored)
    && (forall w :: w in s.workers ==> PendingOk(env, s, w))
    && (forall id :: Finishing(s, id) ==> HasOutcome(s.stored, id))
  }

  /** No result is written: jobs keep URL and key, and those finishing go on finishing. */
  ghost predicate KeepsStored(s: State, s': State) {
    && s'.stored == s.stored && s.clock <= s'.clock
    && (forall id :: id in s.st.jobs ==>
      && id in s'.st.jobs
      && s'.st.jobs[id].url == s.st.jobs[id].url && s'.st.jobs[id].urlHash == s.st.jobs[id].urlHash)
    && (forall id :: Finishing(s, id) <==> Finishing(s', id))
  }

  lemma QuietKeepsStored(env: Env, s: State, s': State)
    requires StoredOk(env, s) && KeepsStored(s, s')
    requires forall w :: w in s'.workers ==> PendingOk(env, s', w)
    ensures StoredOk(env, s')
  {
    forall k | 0 <= k < |s'.stored| ensures OutcomeOk(env, s', k) { assert OutcomeOk(env, s, k); }
  }

  lemma CallFinishing(env: Env, s: State, step: Step, id: Str)
    requires Enabled(env, s, step) && !WorkerStep(step)
    ensures Finishing(s, id) <==> Finishing(Apply(env, s, step), id)
  {}

  lemma CallKeepsStored(env: Env, s: State, step: Step)
    requires StoredOk(env, s) && Enabled(env, s, step) && !WorkerStep(step)
    ensures StoredOk(env, Apply(env, s, step))
  {
    var s' := Apply(env, s, step);
    forall id ensures Finishing(s, id) <==> Finishing(s', id) { CallFinishing(env, s, step, id); }
    forall w | w in s'.workers ensures PendingOk(env, s', w) { assert PendingOk(env, s, w); }
    QuietKeepsStored(env, s, s');
  }

  lemma OthersFinishing(s: State, s': State, w: nat, id: Str, x: Str)
    requires Owning(s) && Moves(s, s', w, id) && x != id
    ensures Finishing(s', x) <==> Finishing(s, x)
  {
    if x in s.st.jobs {
      assert JobOk(s, x);
      if s.st.jobs[x].status == Running { assert s.owner[x] != w; }
    }
  }

  /** A worker step about `id` that does not store: its own job finishes before and after, or neither. */
  lemma OwnFinishing(env: Env, s: State, step: Step, id: Str)
    requires Owning(s) && Enabled(env, s, step) && WorkerStep(step) && !step.Upsert?
    requires if step.Claim? then id == step.id else id == s.workers[step.w].job.id
    ensures Finishing(Apply(env, s, step), id) <==> Finishing(s, id)
  {
    if !step.Claim? { assert WorkerOk(s, step.w); }
  }

  lemma WorkerMoves(env: Env, s: State, step: Step) returns (id: Str)
    requires Owning(s) && Enabled(env, s, step) && WorkerStep(step)
    ensures if step.Claim? then id == step.id else Busy(s, step.w) && id == s.workers[step.w].job.id
    ensures Moves(s, Apply(env, s, step), step.w, id)
  {
    if step.Claim? {
      id := step.id;
      forall v | Busy(s, v) ensures s.workers[v].job.id != id { assert WorkerOk(s, v); }
    } else {
      id := s.workers[step.w].job.id;
      BusyMoves(env, s, step);
    }
  }

  lemma WorkerStepKeepsPending(env: Env, s: State, step: Step, w: nat)
    requires StoredOk(env, s) && Enabled(env, s, step) && WorkerStep(step)
    requires w in Apply(env, s, step).workers
    ensures PendingOk(env, Apply(env, s, step), w)
  {
    assert PendingOk(env, s, w);
  }

  lemma WorkerKeepsStored(env: Env, s: State, step: Step)
    requires Owning(s) && StoredOk(env, s) && Enabled(env, s, step) && WorkerStep(step) && !step.Upsert?
    ensures StoredOk(env, Apply(env, s, step))
  {
    var s' := Apply(env, s, step);
    var own := WorkerMoves(env, s, step);
    forall id ensures Finishing(s, id) <==> Finishing(s', id) {
      if id == own { OwnFinishing(env, s, step, id); } else { OthersFinishing(s, s', step.w, own, id); }
    }
    forall w | w in s'.workers ensures PendingOk(env, s', w) { WorkerStepKeepsPending(env, s, step, w); }
    WorkerStepKeepsJobs(env, s, step);
    WorkerStepQuiet(env, s, step);
    QuietKeepsStored(env, s, s');
  }

  lemma WorkerStepQuiet(env: Env, s: State, step: Step)
    requires Enabled(env, s, step) && WorkerStep(step) && !step.Upsert?
    ensures Apply(env, s, step).stored == s.stored && Apply(env, s, step).clock == s.clock
  {}

  lemma UpsertFinishing(env: Env, s: State, w: nat, id: Str)
    requires Owning(s) && Enabled(env, s, Upsert(w))
    ensures Finishing(Apply(env, s, Upsert(w)), id) <==> Finishing(s, id) || id == s.workers[w].job.id
    ensures !Finishing(s, s.workers[w].job.id)
  {
    assert WorkerOk(s, w);
    var own := WorkerMoves(env, s, Upsert(w));
    if id != own { OthersFinishing(s, Apply(env, s, Upsert(w)), w, own, id); }
  }

  lemma UpsertOutcome(env: Env, s: State, w: nat, k: nat)
    requires Owning(s) && StoredOk(env, s) && Enabled(env, s, Upsert(w)) && k <= |s.stored|
    ensures OutcomeOk(env, Apply(env, s, Upsert(w)), k)
  {
    assert WorkerOk(s, w) && PendingOk(env, s, w);
    if k < |s.stored| {
      assert OutcomeOk(env, s, k);
      UpsertFinishing(env, s, w, s.stored[k].id);
    } else {
      UpsertFinishing(env, s, w, s.workers[w].job.id);
    }
  }

  lemma UpsertKeepsStored(env: Env, s: State, w: nat)
    requires Owning(s) && StoredOk(env, s) && Enabled(env, s, Upsert(w))
    ensures StoredOk(env, Apply(env, s, Upsert(w)))
  {
    var s', job := Apply(env, s, Upsert(w)), s.workers[w].job;
    forall k | 0 <= k < |s'.stored| ensures OutcomeOk(env, s', k) { UpsertOutcome(env, s, w, k); }
    UpsertFinishing(env, s, w, job.id);
    forall k | 0 <= k < |s.stored| ensures s.stored[k].id != job.id { assert OutcomeOk(env, s, k); }
    forall v | v in s'.workers ensures PendingOk(env, s', v) { WorkerStepKeepsPending(env, s, Upsert(w), v); }
    forall id | Finishing(s', id) ensures HasOutcome(s'.stored, id) {
      UpsertFinishing(env, s, w, id);
      if id == job.id {
        assert s'.stored[|s.stored|].id == id;
      } else {
        var k :| 0 <= k < |s.stored| && s.stored[k].id == id;
        assert s'.stored[k].id == id;
      }
    }
  }

  lemma StepKeepsStored(env: Env, s: State, step: Step)
    requires Owning(s) && StoredOk(env, s) && Enabled(env, s, step)
    ensures StoredOk(env, Apply(env, s, step))
  {
    if step.Upsert? {
      UpsertKeepsStored(env, s, step.w);
    } else if WorkerStep(step) {
      WorkerKeepsStored(env, s, step);
    } else {
      CallKeepsStored(env, s, step);
    }
  }

  lemma {:induction false} RunKeepsStored(env: Env, s: State, steps: seq<Step>)
    requires Owning(s) && StoredOk(env, s) && Run(env, s, steps).Some?
    ensures StoredOk(env, Run(env, s, steps).value)
    decreases |steps|
  {
    if steps != [] {
      StepKeepsStored(env, s, steps[0]);
      StepKeepsOwning(env, s, steps[0]);
      RunKeepsStored(env, Apply(env, s, steps[0]), steps[1..]);
    }
  }

  // ----- one worker stores in the order of its clock readings -----

  ghost predicate InReadingOrder(s: State) {
    && s.workers.Keys == {0}
    && (forall i, j :: 0 <= i < j < |s.stored| ==> ReadAt(s.stored[i].row) <= ReadAt(s.stored[j].row))
    && (forall k :: 0 <= k < |s.stored| ==> ReadAt(s.stored[k].row) <= s.clock)
    && (s.workers[0].Storing? ==>
      && ReadAt(s.workers[0].preview) <= s.clock
      && forall k :: 0 <= k < |s.stored| ==> ReadAt(s.stored[k].row) <= ReadAt(s.workers[0].preview))
  }

  lemma StepKeepsReadingOrder(env: Env, s: State, step: Step)
    requires InReadingOrder(s) && Enabled(env, s, step)
    ensures InReadingOrder(Apply(env, s, step))
  {}

  lemma {:induction false} RunKeepsReadingOrder(env: Env, s: State, steps: seq<Step>)
    requires InReadingOrder(s) && Run(env, s, steps).Some?
    ensures InReadingOrder(Run(env, s, steps).value)
    decreases |steps|
  {
    if steps != [] {
      StepKeepsReadingOrder(env, s, steps[0]);
      RunKeepsReadingOrder(env, Apply(env, s, steps[0]), steps[1..]);
    }
  }

  // ----- main results -----

  function Ttl(p: Preview): int {
    if p.ok then SUCCESS_TTL else ERROR_TTL
  }

  predicate Misses(env: Env, s: State, post: Str)
    requires Enabled(env, s, Lookup(post))
  {
    Apply(env, s, Lookup(post)).calls[post].decision == Some(Miss)
  }

  /**
   Any number of workers: a lookup decides to enqueue exactly when nothing was stored
   under its hash, or the TTL of what was stored last has run out when the call began.
   */
  lemma LookupFollowsLastStore(env: Env, clock: int, workers: nat, steps: seq<Step>, post: Str, hash: Str)
    requires HashOk(env) && Run(env, Init(clock, workers), steps).Some?
    requires
      var s := Run(env, Init(clock, workers), steps).value;
      Enabled(env, s, Lookup(post)) && Key(env, Current(s.calls[post])) == Some(hash)
    ensures
      var s := Run(env, Init(clock, workers), steps).value;
      var last := LastStored(s.stored, hash);
      Misses(env, s, post) <==>
        last == -1 || ReadAt(s.stored[last].row) + Ttl(s.stored[last].row) <= s.calls[post].now
  {
    RunKeepsFollowing(env, Init(clock, workers), steps);
    var s := Run(env, Init(clock, workers), steps).value;
    assert Follows(s.st.rows, s.stored, hash);
  }

  /** A job that is done or failed was stored once, under its own hash. */
  predicate IsOutcome(s: State, k: int, id: Str) {
    && 0 <= k < |s.stored| && s.stored[k].id == id && id in s.st.jobs
    && s.stored[k].row.urlHash == s.st.jobs[id].urlHash && ReadAt(s.stored[k].row) <= s.clock
  }

  lemma SettledOutcome(env: Env, s: State, id: Str) returns (k: int)
    requires StoredOk(env, s) && id in s.st.jobs && Terminal(s.st.jobs[id]) && Settled(env, s.st.jobs[id])
    ensures IsOutcome(s, k, id) && forall j :: IsOutcome(s, j, id) ==> j == k
  {
    assert Finishing(s, id);
    k :| 0 <= k < |s.stored| && s.stored[k].id == id;
    assert OutcomeOk(env, s, k);
  }

  lemma TerminalWasStored(env: Env, clock: int, workers: nat, steps: seq<Step>, id: Str)
    requires Run(env, Init(clock, workers), steps).Some?
    requires
      var jobs := Run(env, Init(clock, workers), steps).value.st.jobs;
      id in jobs && Terminal(jobs[id]) && env.normalize(jobs[id].url) == Some(jobs[id].url)
    ensures
      var s := Run(env, Init(clock, workers), steps).value;
      exists k :: IsOutcome(s, k, id) && forall j :: IsOutcome(s, j, id) ==> j == k
  {
    RunKeepsStored(env, Init(clock, workers), steps);
    RunKeepsSlotted(env, Init(clock, workers), steps);
    var s := Run(env, Init(clock, workers), steps).value;
    assert JobSlotted(env, s, id);
    var k := SettledOutcome(env, s, id);
  }

  /** Another job's row for the hash, stored after the k-th though its clock was read before. */
  predicate Overtook(s: State, k: nat, m: nat)
    requires k < |s.stored|
  {
    && k < m < |s.stored| && s.stored[m].row.urlHash == s.stored[k].row.urlHash
    && ReadAt(s.stored[m].row) < ReadAt(s.stored[k].row) && s.stored[m].id != s.stored[k].id
  }

  /**
   Any number of workers: when a lookup inside the window of an outcome decides to
   enqueue, another outcome for the hash was read earlier and stored later.
   */
  lemma MissWasOvertaken(env: Env, clock: int, workers: nat, steps: seq<Step>, post: Str, k: nat)
    requires HashOk(env) && Run(env, Init(clock, workers), steps).Some?
    requires
      var s := Run(env, Init(clock, workers), steps).value;
      && k < |s.stored| && Enabled(env, s, Lookup(post))
      && Key(env, Current(s.calls[post])) == Some(s.stored[k].row.urlHash)
      && s.calls[post].now < ReadAt(s.stored[k].row) + ERROR_TTL
      && Misses(env, s, post)
    ensures exists m :: Overtook(Run(env, Init(clock, workers), steps).value, k, m)
  {
    var s := Run(env, Init(clock, workers), steps).value;
    var hash := s.stored[k].row.urlHash;
    LookupFollowsLastStore(env, clock, workers, steps, post, hash);
    RunKeepsStored(env, Init(clock, workers), steps);
    var m := LastStored(s.stored, hash);
    assert m >= k;
    assert ReadAt(s.stored[m].row) < ReadAt(s.stored[k].row);
    assert Overtook(s, k, m);
  }

  /**
   One worker, every interleaving: once a job is done or failed, a lookup for its hash
   by a call that began less than thirty minutes after the clock reading behind that
   outcome never decides to enqueue, whatever later jobs for the hash did.
   */
  lemma RefetchSuppressed(env: Env, clock: int, steps: seq<Step>, id: Str, post: Str)
    requires HashOk(env) && Run(env, Init(clock, 1), steps).Some?
    requires
      var jobs := Run(env, Init(clock, 1), steps).value.st.jobs;
      id in jobs && Terminal(jobs[id]) && env.normalize(jobs[id].url) == Some(jobs[id].url)
    requires
      var s := Run(env, Init(clock, 1), steps).value;
      Enabled(env, s, Lookup(post)) && Key(env, Current(s.calls[post])) == Some(s.st.jobs[id].urlHash)
    ensures
      var s := Run(env, Init(clock, 1), steps).value;
      exists k :: IsOutcome(s, k, id)
        && (s.calls[post].now < ReadAt(s.stored[k].row) + ERROR_TTL ==> !Misses(env, s, post))
  {
    var s := Run(env, Init(clock, 1), steps).value;
    assert Init(clock, 1).workers.Keys == {0};
    RunKeepsReadingOrder(env, Init(clock, 1), steps);
    TerminalWasStored(env, clock, 1, steps, id);
    var k :| IsOutcome(s, k, id);
    assert forall m: nat :: !Overtook(s, k, m);
    if s.calls[post].now < ReadAt(s.stored[k].row) + ERROR_TTL && Misses(env, s, post) {
      MissWasOvertaken(env, clock, 1, steps, post, k);
    }
  }

  lemma {:induction false} FreshHashAddsNoJob(env: Env, st: Stores, post: Str, urls: seq<Str>, now: int,
                                              ts: seq<Ticket>, hash: Str)
    requires |ts| >= |urls| && FreshRow(st.rows, hash, now)
    ensures
      var st' := HandledAll(env, st, post, urls, now, ts);
      && st'.rows == st.rows
      && (forall x :: x in st'.jobs && x !in st.jobs ==> st'.jobs[x].urlHash != hash)
      && (forall x :: x in st.jobs ==> x in st'.jobs && st'.jobs[x] == st.jobs[x])
    decreases |urls|
  {
    if urls != [] { FreshHashAddsNoJob(env, st, post, urls[..|urls| - 1], now, ts, hash); }
  }

  /** With one worker the last row stored under a hash was read last. */
  lemma OutcomeIsFresh(env: Env, clock: int, steps: seq<Step>, k: nat, now: int)
    requires HashOk(env) && Run(env, Init(clock, 1), steps).Some?
    requires
      var s := Run(env, Init(clock, 1), steps).value;
      k < |s.stored| && s.stored[k].row.urlHash != [] && now < ReadAt(s.stored[k].row) + ERROR_TTL
    ensures
      var s := Run(env, Init(clock, 1), steps).value;
      FreshRow(s.st.rows, s.stored[k].row.urlHash, now)
  {
    var s := Run(env, Init(clock, 1), steps).value;
    assert Init(clock, 1).workers.Keys == {0};
    RunKeepsReadingOrder(env, Init(clock, 1), steps);
    RunKeepsFollowing(env, Init(clock, 1), steps);
    var m := LastStored(s.stored, s.stored[k].row.urlHash);
    assert Follows(s.st.rows, s.stored, s.stored[k].row.urlHash);
    assert m >= k && ReadAt(s.stored[k].row) <= ReadAt(s.stored[m].row);
  }

  /** The same for a whole `EnqueueForPost` call: it creates no job for that hash. */
  lemma WholeCallSuppressed(env: Env, clock: int, steps: seq<Step>, id: Str,
                            post: Str, urls: seq<Str>, now: int, ts: seq<Ticket>)
    requires HashOk(env) && Run(env, Init(clock, 1), steps).Some? && |ts| >= |urls|
    requires
      var jobs := Run(env, Init(clock, 1), steps).value.st.jobs;
      id in jobs && Terminal(jobs[id]) && env.normalize(jobs[id].url) == Some(jobs[id].url)
    ensures
      var s := Run(env, Init(clock, 1), steps).value;
      var st' := HandledAll(env, s.st, post, urls, now, ts);
      exists k :: IsOutcome(s, k, id)
        && (now < ReadAt(s.stored[k].row) + ERROR_TTL ==>
            forall x :: x in st'.jobs && st'.jobs[x].urlHash == s.st.jobs[id].urlHash ==> x in s.st.jobs)
  {
    var s := Run(env, Init(clock, 1), steps).value;
    TerminalWasStored(env, clock, 1, steps, id);
    RunKeepsSlotted(env, Init(clock, 1), steps);
    assert JobSlotted(env, s, id);
    var k :| IsOutcome(s, k, id);
    if now < ReadAt(s.stored[k].row) + ERROR_TTL {
      OutcomeIsFresh(env, clock, steps, k, now);
      FreshHashAddsNoJob(env, s.st, post, urls, now, ts, s.st.jobs[id].urlHash);
    }
  }
}
