/** Every URL slot of a post, and the job that fills it. */
module OgpSlots {
  import opened Text
  import opened Wrappers
  import opened OgpStores
  import opened OgpPipeline

  /** A digest is never the empty string. */
  ghost predicate HashOk(env: Env) {
    forall u :: env.hash(u) != []
  }

  function Key(env: Env, raw: Str): Option<Str> {
    var n := env.normalize(raw);
    if n.None? then None else Some(env.hash(n.value))
  }

  /** The job was enqueued for exactly one URL of one post. */
  predicate JobSlotted(env: Env, s: State, id: Str)
    requires id in s.st.jobs
  {
    var job := s.st.jobs[id];
    && job.post in s.calls
    && job.position < |s.calls[job.post].slots| <= |s.calls[job.post].urls|
    && s.calls[job.post].slots[job.position] == ByJob(id)
    && env.normalize(s.calls[job.post].urls[job.position]) == Some(job.url)
    && job.urlHash == env.hash(job.url)
  }

  predicate SlotOk(env: Env, s: State, post: Str, i: nat)
    requires post in s.calls && i < |s.calls[post].slots| <= |s.calls[post].urls|
  {
    match s.calls[post].slots[i]
    case Skipped => true
    case FromCache => env.normalize(s.calls[post].urls[i]).Some?
    case ByJob(id) => id in s.st.jobs && s.st.jobs[id].post == post && s.st.jobs[id].position == i
  }

  predicate CallOk(env: Env, s: State, post: Str)
    requires post in s.calls
  {
    var c := s.calls[post];
    && post != [] && |c.slots| <= |c.urls|
    && (c.decision.Some? ==> |c.slots| < |c.urls| && env.normalize(Current(c)).Some?)
    && (forall i :: 0 <= i < |c.slots| ==> SlotOk(env, s, post, i))
  }

  /** A stored page sits under the hash of the URL the fetcher normalised again. */
  predicate PageOk(env: Env, s: State, w: nat)
    requires w in s.workers
  {
    (s.workers[w].Storing? || s.workers[w].Stored?) && s.workers[w].preview.ok ==>
      Key(env, s.workers[w].job.url) == Some(s.workers[w].preview.urlHash)
  }

  ghost predicate Slotted(env: Env, s: State) {
    && (forall id :: id in s.st.jobs ==> JobSlotted(env, s, id))
    && (forall post :: post in s.calls ==> CallOk(env, s, post))
    && (forall w :: w in s.workers ==> PageOk(env, s, w))
  }

  predicate SameJob(a: Job, b: Job) {
    a.(status := b.status, attempts := b.attempts) == b
  }

  lemma SameJobsKeepSlotted(env: Env, s: State, s': State)
    requires Slotted(env, s)
    requires s'.st.jobs.Keys == s.st.jobs.Keys && s'.calls == s.calls
    requires forall id :: id in s.st.jobs ==> SameJob(s.st.jobs[id], s'.st.jobs[id])
    requires forall w :: w in s'.workers ==> PageOk(env, s', w)
    ensures Slotted(env, s')
  {
    forall id | id in s'.st.jobs ensures JobSlotted(env, s', id) { assert JobSlotted(env, s, id); }
    forall post | post in s'.calls ensures CallOk(env, s', post) {
      assert CallOk(env, s, post);
      forall i | 0 <= i < |s.calls[post].slots| ensures SlotOk(env, s', post, i) { assert SlotOk(env, s, post, i); }
    }
  }

  lemma WorkerStepKeepsJobs(env: Env, s: State, step: Step)
    requires Owning(s) && Enabled(env, s, step) && WorkerStep(step)
    ensures
      var s' := Apply(env, s, step);
      && s'.st.jobs.Keys == s.st.jobs.Keys && s'.calls == s.calls
      && (forall id :: id in s.st.jobs ==> SameJob(s.st.jobs[id], s'.st.jobs[id]))
  {
    if !step.Claim? { BusyShape(env, s, step); }
  }

  lemma WorkerStepKeepsPages(env: Env, s: State, step: Step, w: nat)
    requires Slotted(env, s) && Enabled(env, s, step) && WorkerStep(step)
    requires w in Apply(env, s, step).workers
    ensures PageOk(env, Apply(env, s, step), w)
  {
    assert PageOk(env, s, w);
  }

  lemma WorkerStepKeepsSlotted(env: Env, s: State, step: Step)
    requires Owning(s) && Slotted(env, s) && Enabled(env, s, step) && WorkerStep(step)
    ensures Slotted(env, Apply(env, s, step))
  {
    var s' := Apply(env, s, step);
    WorkerStepKeepsJobs(env, s, step);
    forall w | w in s'.workers ensures PageOk(env, s', w) { WorkerStepKeepsPages(env, s, step, w); }
    SameJobsKeepSlotted(env, s, s');
  }

  /** One call changes; slots only grow and old slots keep their jobs. */
  lemma CallStepKeepsSlotted(env: Env, s: State, s': State, post: Str)
    requires Slotted(env, s) && s'.workers == s.workers
    requires post in s'.calls && s'.calls.Keys == s.calls.Keys + {post}
    requires forall p :: p in s.calls && p != post ==> s'.calls[p] == s.calls[p]
    requires post in s.calls ==> s.calls[post].slots <= s'.calls[post].slots && s'.calls[post].urls == s.calls[post].urls
    requires forall id :: id in s.st.jobs ==> id in s'.st.jobs && s'.st.jobs[id] == s.st.jobs[id]
    requires forall id :: id in s'.st.jobs && id !in s.st.jobs ==> JobSlotted(env, s', id)
    requires CallOk(env, s', post)
    ensures Slotted(env, s')
  {
    forall id | id in s'.st.jobs ensures JobSlotted(env, s', id) {
      if id in s.st.jobs {
        assert JobSlotted(env, s, id);
        assert CallOk(env, s', s.st.jobs[id].post) || CallOk(env, s, s.st.jobs[id].post);
      }
    }
    forall p | p in s'.calls ensures CallOk(env, s', p) {
      if p != post {
        assert CallOk(env, s, p);
        forall i | 0 <= i < |s.calls[p].slots| ensures SlotOk(env, s', p, i) { assert SlotOk(env, s, p, i); }
      }
    }
    forall w | w in s'.workers ensures PageOk(env, s', w) { assert PageOk(env, s, w); }
  }

  lemma LookupKeepsSlotted(env: Env, s: State, post: Str)
    requires Slotted(env, s) && Enabled(env, s, Lookup(post))
    ensures Slotted(env, Apply(env, s, Lookup(post)))
  {
    var s' := Apply(env, s, Lookup(post));
    assert CallOk(env, s, post);
    forall i | 0 <= i < |s'.calls[post].slots| ensures SlotOk(env, s', post, i) {
      if i < |s.calls[post].slots| { assert SlotOk(env, s, post, i); }
    }
    CallStepKeepsSlotted(env, s, s', post);
  }

  lemma ActKeepsSlotted(env: Env, s: State, post: Str, id: Str)
    requires Slotted(env, s) && Enabled(env, s, Act(post, id))
    ensures Slotted(env, Apply(env, s, Act(post, id)))
  {
    var s' := Apply(env, s, Act(post, id));
    assert CallOk(env, s, post);
    forall i | 0 <= i < |s'.calls[post].slots| ensures SlotOk(env, s', post, i) {
      if i < |s.calls[post].slots| { assert SlotOk(env, s, post, i); }
    }
    CallStepKeepsSlotted(env, s, s', post);
  }

  lemma StepKeepsSlotted(env: Env, s: State, step: Step)
    requires Owning(s) && Slotted(env, s) && Enabled(env, s, step)
    ensures Slotted(env, Apply(env, s, step))
  {
    match step
    case Tick(_) => SameJobsKeepSlotted(env, s, Apply(env, s, step));
    case Begin(post, _) => CallStepKeepsSlotted(env, s, Apply(env, s, step), post);
    case Lookup(post) => LookupKeepsSlotted(env, s, post);
    case Act(post, id) => ActKeepsSlotted(env, s, post, id);
    case _ => WorkerStepKeepsSlotted(env, s, step);
  }

  lemma {:induction false} RunKeepsSlotted(env: Env, s: State, steps: seq<Step>)
    requires Owning(s) && Slotted(env, s) && Run(env, s, steps).Some?
    ensures Slotted(env, Run(env, s, steps).value)
    decreases |steps|
  {
    if steps != [] {
      StepKeepsSlotted(env, s, steps[0]);
      StepKeepsOwning(env, s, steps[0]);
      RunKeepsSlotted(env, Apply(env, s, steps[0]), steps[1..]);
    }
  }
}
