/** Runs that show where a condition of the link and window results is needed. */
module OgpRuns {
  import opened Text
  import opened Wrappers
  import opened Order
  import opened OgpStores
  import opened OgpPipeline
  import opened OgpSlots
  import opened OgpAttachment
  import opened OgpWindow

  lemma {:induction false} RunSnoc(env: Env, s: State, steps: seq<Step>, last: Step)
    requires Run(env, s, steps).Some? && Enabled(env, Run(env, s, steps).value, last)
    ensures Run(env, s, steps + [last]) == Some(Apply(env, Run(env, s, steps).value, last))
    decreases |steps|
  {
    if steps == [] {
      assert [] + [last] == [last] && [last][1..] == [];
    } else {
      assert (steps + [last])[0] == steps[0] && (steps + [last])[1..] == steps[1..] + [last];
      RunSnoc(env, Apply(env, s, steps[0]), steps[1..], last);
    }
  }

  /** A post with this one URL enqueues this one job. */
  lemma MissTurn(env: Env, s: State, before: seq<Step>, post: Str, u: Str, id: Str) returns (steps: seq<Step>)
    requires Run(env, s, before).Some? && env.normalize(u) == Some(u)
    requires var t := Run(env, s, before).value;
      post != [] && post !in t.calls && id !in t.st.jobs && t.st.rows == map[]
    ensures Run(env, s, steps).Some?
    ensures
      var t, t' := Run(env, s, before).value, Run(env, s, steps).value;
      && t'.st == t.st.(jobs := t.st.jobs[id := Job(id, env.hash(u), u, post, 0, t.clock, Queued, 0)])
      && t'.calls.Keys == t.calls.Keys + {post} && t'.workers == t.workers && t'.clock == t.clock
  {
    RunSnoc(env, s, before, Begin(post, [u]));
    steps := before + [Begin(post, [u])];
    RunSnoc(env, s, steps, Lookup(post));
    steps := steps + [Lookup(post)];
    RunSnoc(env, s, steps, Act(post, id));
    steps := steps + [Act(post, id)];
  }

  /** What the first two workers are doing. */
  predicate Phases(t: State, first: Phase, second: Phase) {
    0 in t.workers && 1 in t.workers && t.workers[0] == first && t.workers[1] == second
  }

  /** Two jobs for one URL, both waiting since time zero, and two idle workers. */
  predicate TwoQueued(env: Env, t: State, a: Str, b: Str) {
    && Phases(t, Idle, Idle) && t.clock == 0 && t.st.jobs.Keys == {a, b}
    && t.st.jobs[a].id == a && t.st.jobs[b].id == b && t.st.jobs[a].urlHash == t.st.jobs[b].urlHash != []
    && (forall id :: id in t.st.jobs ==>
         t.st.jobs[id].status == Queued && t.st.jobs[id].enqueuedAt == 0 && env.normalize(t.st.jobs[id].url).Some?)
  }

  lemma ClaimBoth(env: Env, s: State, before: seq<Step>, a: Str, b: Str) returns (steps: seq<Step>)
    requires Run(env, s, before).Some? && a != b && TwoQueued(env, Run(env, s, before).value, a, b)
    ensures Run(env, s, steps).Some?
    ensures
      var t, t' := Run(env, s, before).value, Run(env, s, steps).value;
      var jobs := Claimed(Claimed(t.st.jobs, a), b);
      && t'.st == t.st.(jobs := jobs) && t'.clock == 0 && t'.calls == t.calls
      && Phases(t', Fetching(jobs[a]), Fetching(jobs[b]))
  {
    RunSnoc(env, s, before, Claim(0, a));
    steps := before + [Claim(0, a)];
    RunSnoc(env, s, steps, Claim(1, b));
    steps := steps + [Claim(1, b)];
  }

  lemma RefuseBoth(env: Env, s: State, before: seq<Step>, ja: Job, jb: Job) returns (steps: seq<Step>)
    requires Run(env, s, before).Some?
    requires var t := Run(env, s, before).value; t.clock == 0 && Phases(t, Fetching(ja), Fetching(jb))
    requires env.normalize(ja.url).Some? && env.normalize(jb.url).Some?
    ensures Run(env, s, steps).Some?
    ensures
      var t, t' := Run(env, s, before).value, Run(env, s, steps).value;
      && t'.st == t.st && t'.clock == 10 * MINUTE && t'.calls == t.calls
      && Phases(t', Storing(ja, ErrorRow(ja, 0)), Storing(jb, ErrorRow(jb, 10 * MINUTE)))
  {
    RunSnoc(env, s, before, Answer(0, Refused(NotHTML)));
    steps := before + [Answer(0, Refused(NotHTML))];
    RunSnoc(env, s, steps, Tick(10 * MINUTE));
    steps := steps + [Tick(10 * MINUTE)];
    RunSnoc(env, s, steps, Answer(1, Refused(NotHTML)));
    steps := steps + [Answer(1, Refused(NotHTML))];
  }

  /** The worker that read the clock first stores last, twenty minutes before the next post. */
  lemma LateStore(env: Env, s: State, before: seq<Step>, a: Str, b: Str) returns (steps: seq<Step>)
    requires Run(env, s, before).Some? && a != b && TwoQueued(env, Run(env, s, before).value, a, b)
    ensures Run(env, s, steps).Some?
    ensures
      var t, t' := Run(env, s, before).value, Run(env, s, steps).value;
      && t'.clock == 30 * MINUTE && t'.calls == t.calls 
      && (exists k :: IsOutcome(t', k, b) && ReadAt(t'.stored[k].row) == 10 * MINUTE)
      && b in t'.st.jobs && t'.st.jobs[b].status == Failed && t'.st.jobs[b].urlHash == t.st.jobs[b].urlHash
      && t.st.jobs[b].urlHash in t'.st.rows && t'.st.rows[t.st.jobs[b].urlHash].expiresAt == 30 * MINUTE
  {
    steps := ClaimBoth(env, s, before, a, b);
    var jobs := Run(env, s, steps).value.st.jobs;
    steps := RefuseBoth(env, s, steps, jobs[a], jobs[b]);
    RunSnoc(env, s, steps, Upsert(1));
    steps := steps + [Upsert(1)];
    ghost var k := |Run(env, s, steps).value.stored| - 1;
    assert IsOutcome(Run(env, s, steps).value, k, b);
    RunSnoc(env, s, steps, Fail(1));
    steps := steps + [Fail(1)];
    RunSnoc(env, s, steps, Upsert(0));
    steps := steps + [Upsert(0)];
    RunSnoc(env, s, steps, Tick(20 * MINUTE));
    steps := steps + [Tick(20 * MINUTE)];
    assert IsOutcome(Run(env, s, steps).value, k, b);
  }

  lemma TwoMisses(env: Env, n: nat, u: Str, p: Str, q: Str, a: Str, b: Str) returns (steps: seq<Step>)
    requires 2 <= n && HashOk(env) && env.normalize(u) == Some(u) && a != b && p != [] && q != [] && p != q
    ensures Run(env, Init(0, n), steps).Some?
    ensures
      var t := Run(env, Init(0, n), steps).value;
      && TwoQueued(env, t, a, b) && t.st.jobs[b].urlHash == env.hash(u) && t.calls.Keys == {p, q}
  {
    var s0 := Init(0, n);
    assert Phases(s0, Idle, Idle) && Run(env, s0, []) == Some(s0);
    steps := MissTurn(env, s0, [], p, u, a);
    steps := MissTurn(env, s0, steps, q, u, b);
  }

  /**
   With any two workers or more the window can be cut short: a run in which job `b` failed on a
   reading of ten minutes and a call at thirty minutes decides to enqueue its hash again.
   */
  lemma WorkersShortenTheWindow(env: Env, n: nat, u: Str, p: Str, q: Str, r: Str, a: Str, b: Str)
    returns (steps: seq<Step>)
    requires 2 <= n && HashOk(env) && env.normalize(u) == Some(u) && a != b
    requires p != [] && q != [] && r != [] && p != q && p != r && q != r
    ensures Run(env, Init(0, n), steps).Some?
    ensures
      var s := Run(env, Init(0, n), steps).value;
      && b in s.st.jobs && s.st.jobs[b].status == Failed && s.st.jobs[b].urlHash == env.hash(u)
      && (exists k :: IsOutcome(s, k, b) && s.clock < ReadAt(s.stored[k].row) + ERROR_TTL)
      && Enabled(env, s, Lookup(r)) && s.calls[r].urls == [u] && s.calls[r].now == s.clock
      && Misses(env, s, r)
  {
    var s0 := Init(0, n);
    steps := TwoMisses(env, n, u, p, q, a, b);
    steps := LateStore(env, s0, steps, a, b);
    var t := Run(env, s0, steps).value;
    var k :| IsOutcome(t, k, b) && ReadAt(t.stored[k].row) == 10 * MINUTE;
    RunSnoc(env, s0, steps, Begin(r, [u]));
    steps := steps + [Begin(r, [u])];
    assert IsOutcome(Run(env, s0, steps).value, k, b);
  }

  // ----- two URLs with one hash, both won -----

  /** The idle first worker takes a queued job to its end with a page. */
  lemma FinishJob(env: Env, s: State, before: seq<Step>, id: Str, meta: Str) returns (steps: seq<Step>)
    requires HashOk(env) && Run(env, s, before).Some?
    requires
      var t := Run(env, s, before).value;
      && 0 in t.workers && t.workers[0].Idle? && Oldest(t.st.jobs, id)
      && t.st.jobs[id].id == id && t.st.jobs[id].post != [] && env.normalize(t.st.jobs[id].url).Some?
    ensures Run(env, s, steps).Some?
    ensures
      var t, t' := Run(env, s, before).value, Run(env, s, steps).value;
      var job := t.st.jobs[id];
      && t'.st.jobs == t.st.jobs[id := job.(status := Done, attempts := job.attempts + 1)]
      && t'.st.links == Attached(t.st.links, job.post, Link(env.hash(env.normalize(job.url).value), job.position))
      && t'.calls == t.calls && 0 in t'.workers && t'.workers[0].Idle?
  {
    RunSnoc(env, s, before, Claim(0, id));
    steps := before + [Claim(0, id)];
    RunSnoc(env, s, steps, Answer(0, Page(meta)));
    steps := steps + [Answer(0, Page(meta))];
    RunSnoc(env, s, steps, Upsert(0));
    steps := steps + [Upsert(0)];
    RunSnoc(env, s, steps, Attach(0));
    steps := steps + [Attach(0)];
    RunSnoc(env, s, steps, Finish(0));
    steps := steps + [Finish(0)];
  }

  /** A job for one URL of a two-URL post whose URLs normalise alike. */
  function TwinJob(env: Env, n: Str, post: Str, id: Str, position: nat): Job {
    Job(id, env.hash(n), n, post, position, 0, Queued, 0)
  }

  lemma TwoTurns(env: Env, w: nat, u: Str, v: Str, n: Str, post: Str, a: Str, b: Str) returns (steps: seq<Step>)
    requires env.normalize(u) == Some(n) && env.normalize(v) == Some(n) && post != [] && a != b
    ensures Run(env, Init(0, w), steps).Some?
    ensures
      var t := Run(env, Init(0, w), steps).value;
      && t.workers == Init(0, w).workers && t.st.links == map[]
      && post in t.calls && t.calls[post] == Call([u, v], 0, [ByJob(a), ByJob(b)], None)
      && t.st.jobs == map[a := TwinJob(env, n, post, a, 0), b := TwinJob(env, n, post, b, 1)]
  {
    var s := Init(0, w);
    assert Run(env, s, []) == Some(s);
    RunSnoc(env, s, [], Begin(post, [u, v]));
    steps := [] + [Begin(post, [u, v])];
    RunSnoc(env, s, steps, Lookup(post));
    steps := steps + [Lookup(post)];
    RunSnoc(env, s, steps, Act(post, a));
    steps := steps + [Act(post, a)];
    RunSnoc(env, s, steps, Lookup(post));
    steps := steps + [Lookup(post)];
    RunSnoc(env, s, steps, Act(post, b));
    steps := steps + [Act(post, b)];
    assert [] + [ByJob(a)] + [ByJob(b)] == [ByJob(a), ByJob(b)];
  }

  /** Two URLs of a post normalise alike, both jobs are done, and one link is all there is. */
  lemma BothWinOneLink(env: Env, w: nat, u: Str, v: Str, n: Str, post: Str, a: Str, b: Str) returns (steps: seq<Step>)
    requires 1 <= w && HashOk(env) && post != [] && a != b
    requires env.normalize(u) == Some(n) && env.normalize(v) == Some(n) && env.normalize(n) == Some(n)
    ensures Run(env, Init(0, w), steps).Some?
    ensures
      var s := Run(env, Init(0, w), steps).value;
      && Settles(s, post) && s.calls[post].urls == [u, v] && AllStable(env, [u, v])
      && Won(s.calls[post], s.st.jobs, 0) && Won(s.calls[post], s.st.jobs, 1)
      && LinksOf(s.st.links, post) == [Link(env.hash(n), 0)]
  {
    steps := TwoTurns(env, w, u, v, n, post, a, b);
    assert 0 in Run(env, Init(0, w), steps).value.workers;
    steps := FinishJob(env, Init(0, w), steps, a, []);
    steps := FinishJob(env, Init(0, w), steps, b, []);
  }
}
