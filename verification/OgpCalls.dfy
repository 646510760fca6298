/** Whole calls are runs of the interleaved machine, and their URLs are stable. */
module OgpCalls {
  import opened Text
  import opened Wrappers
  import opened OgpStores
  import opened OgpPipeline
  import opened OgpAttachment
  import opened OgpSlots
  import Normalizer

  lemma {:induction false} RunConcat(env: Env, s: State, a: seq<Step>, b: seq<Step>)
    requires Run(env, s, a).Some?
    ensures Run(env, s, a + b) == Run(env, Run(env, s, a).value, b)
    decreases |a|
  {
    if a == [] {
      assert a + b == b;
    } else {
      assert (a + b)[0] == a[0] && (a + b)[1..] == a[1..] + b;
      RunConcat(env, Apply(env, s, a[0]), a[1..], b);
    }
  }

  lemma RunOne(env: Env, s: State, step: Step)
    requires Enabled(env, s, step)
    ensures Run(env, s, [step]) == Some(Apply(env, s, step))
  {
    assert [step][1..] == [];
  }

  lemma RunTwo(env: Env, s: State, a: Step, b: Step)
    requires Enabled(env, s, a) && Enabled(env, Apply(env, s, a), b)
    ensures Run(env, s, [a, b]) == Some(Apply(env, Apply(env, s, a), b))
  {
    RunOne(env, s, a);
    RunOne(env, Apply(env, s, a), b);
    RunConcat(env, s, [a], [b]);
    assert [a] + [b] == [a, b];
  }

  // ----- Worker.process -----

  /** The steps one claimed job takes when its fetch gets this reply. */
  function ProcessSteps(env: Env, w: nat, job: Job, reply: Reply): seq<Step> {
    match Fetch(env, job.url, reply)
    case Got(_) => [Answer(w, reply), Upsert(w)] + [Attach(w), Finish(w)]
    case Broken(e) =>
      if Retries(job, e) then [Answer(w, reply), Requeue(w)]
      else [Answer(w, reply), Upsert(w)] + [Fail(w)]
  }

  ghost predicate EndsProcessed(env: Env, s: State, w: nat, reply: Reply, steps: seq<Step>)
    requires w in s.workers && s.workers[w].Fetching?
  {
    var job := s.workers[w].job;
    var end := Run(env, s, steps);
    && end.Some? && end.value.workers == s.workers[w := Idle]
    && end.value.st == Processed(s.st, job, Fetch(env, job.url, reply), s.clock)
  }

  lemma RetrySteps(env: Env, s: State, w: nat, reply: Reply)
    requires w in s.workers && s.workers[w].Fetching?
    requires var f := Fetch(env, s.workers[w].job.url, reply); f.Broken? && Retries(s.workers[w].job, f.error)
    ensures EndsProcessed(env, s, w, reply, [Answer(w, reply), Requeue(w)])
  {
    RunTwo(env, s, Answer(w, reply), Requeue(w));
  }

  lemma FailSteps(env: Env, s: State, w: nat, reply: Reply)
    requires w in s.workers && s.workers[w].Fetching?
    requires var f := Fetch(env, s.workers[w].job.url, reply); f.Broken? && !Retries(s.workers[w].job, f.error)
    ensures EndsProcessed(env, s, w, reply, [Answer(w, reply), Upsert(w)] + [Fail(w)])
  {
    RunTwo(env, s, Answer(w, reply), Upsert(w));
    var s2 := Run(env, s, [Answer(w, reply), Upsert(w)]).value;
    RunOne(env, s2, Fail(w));
    RunConcat(env, s, [Answer(w, reply), Upsert(w)], [Fail(w)]);
  }

  lemma DoneSteps(env: Env, s: State, w: nat, reply: Reply)
    requires w in s.workers && s.workers[w].Fetching? && Fetch(env, s.workers[w].job.url, reply).Got?
    ensures EndsProcessed(env, s, w, reply, [Answer(w, reply), Upsert(w)] + [Attach(w), Finish(w)])
  {
    RunTwo(env, s, Answer(w, reply), Upsert(w));
    var s2 := Run(env, s, [Answer(w, reply), Upsert(w)]).value;
    RunTwo(env, s2, Attach(w), Finish(w));
    RunConcat(env, s, [Answer(w, reply), Upsert(w)], [Attach(w), Finish(w)]);
  }

  /** Undisturbed, the steps leave the stores as the whole call does. */
  lemma ProcessIsItsSteps(env: Env, s: State, w: nat, reply: Reply)
    requires w in s.workers && s.workers[w].Fetching?
    ensures
      var job := s.workers[w].job;
      var end := Run(env, s, ProcessSteps(env, w, job, reply));
      && end.Some? && end.value.workers == s.workers[w := Idle]
      && end.value.st == Processed(s.st, job, Fetch(env, job.url, reply), s.clock)
  {
    var f := Fetch(env, s.workers[w].job.url, reply);
    if f.Got? {
      DoneSteps(env, s, w, reply);
    } else if Retries(s.workers[w].job, f.error) {
      RetrySteps(env, s, w, reply);
    } else {
      FailSteps(env, s, w, reply);
    }
  }

  // ----- Enqueuer.EnqueueForPost -----

  /** The steps of one turn of the loop: a lookup, and the act it decided on. */
  function TurnSteps(env: Env, s: State, post: Str, id: Str): seq<Step>
    requires Enabled(env, s, Lookup(post))
  {
    if Apply(env, s, Lookup(post)).calls[post].decision.Some? then [Lookup(post), Act(post, id)] else [Lookup(post)]
  }

  /** Between two turns of a call, nothing else having run. */
  predicate Between(s: State, post: Str, urls: seq<Str>, now: int, k: nat) {
    && post in s.calls && s.calls[post].urls == urls && s.calls[post].now == now
    && |s.calls[post].slots| == k <= |urls| && s.calls[post].decision.None?
  }

  lemma OneTurn(env: Env, s: State, post: Str, urls: seq<Str>, now: int, k: nat, id: Str)
    requires Between(s, post, urls, now, k) && k < |urls| && id !in s.st.jobs
    ensures
      var end := Run(env, s, TurnSteps(env, s, post, id));
      && end.Some? && Between(end.value, post, urls, now, k + 1) && end.value.clock == s.clock
      && end.value.st == Handled(env, s.st, post, urls[k], k, now, Ticket(id, s.clock))
  {
    var s1 := Apply(env, s, Lookup(post));
    if s1.calls[post].decision.Some? {
      RunTwo(env, s, Lookup(post), Act(post, id));
    } else {
      RunOne(env, s, Lookup(post));
    }
  }

  /** Ids nobody has yet, all taken at the same clock reading. */
  ghost predicate FreshTickets(s: State, ts: seq<Ticket>) {
    && (forall i :: 0 <= i < |ts| ==> ts[i].id !in s.st.jobs && ts[i].at == s.clock)
    && (forall i, j :: 0 <= i < j < |ts| ==> ts[i].id != ts[j].id)
  }

  lemma {:induction false} HandledJobs(env: Env, st: Stores, post: Str, urls: seq<Str>, now: int, ts: seq<Ticket>, id: Str)
    requires |ts| >= |urls| && id in HandledAll(env, st, post, urls, now, ts).jobs
    ensures id in st.jobs || exists i :: 0 <= i < |urls| && ts[i].id == id
    decreases |urls|
  {
    if urls != [] {
      var k := |urls| - 1;
      if id in HandledAll(env, st, post, urls[..k], now, ts).jobs {
        HandledJobs(env, st, post, urls[..k], now, ts, id);
      } else {
        assert ts[k].id == id;
      }
    }
  }

  lemma {:induction false} FirstTurns(env: Env, s: State, post: Str, urls: seq<Str>, ts: seq<Ticket>, k: nat)
    returns (steps: seq<Step>)
    requires Between(s, post, urls, s.clock, 0) && k <= |urls| <= |ts| && FreshTickets(s, ts)
    ensures
      var end := Run(env, s, steps);
      && end.Some? && Between(end.value, post, urls, s.clock, k) && end.value.clock == s.clock
      && end.value.st == HandledAll(env, s.st, post, urls[..k], s.clock, ts)
  {
    steps := [];
    if k > 0 {
      steps := FirstTurns(env, s, post, urls, ts, k - 1);
      var mid := Run(env, s, steps).value;
      if ts[k - 1].id in mid.st.jobs { HandledJobs(env, s.st, post, urls[..k - 1], s.clock, ts, ts[k - 1].id); }
      OneTurn(env, mid, post, urls, s.clock, k - 1, ts[k - 1].id);
      RunConcat(env, s, steps, TurnSteps(env, mid, post, ts[k - 1].id));
      steps := steps + TurnSteps(env, mid, post, ts[k - 1].id);
      assert urls[..k][..k - 1] == urls[..k - 1];
    }
  }

  /** A whole call on fresh ids, undisturbed, is a run of the machine. */
  lemma EnqueueIsItsSteps(env: Env, s: State, post: Str, urls: seq<Str>, ts: seq<Ticket>) returns (steps: seq<Step>)
    requires post != [] && post !in s.calls && |urls| <= |ts| && FreshTickets(s, ts)
    ensures
      var end := Run(env, s, steps);
      && end.Some? && post in end.value.calls
      && |end.value.calls[post].slots| == |urls| == |end.value.calls[post].urls|
      && end.value.st == HandledAll(env, s.st, post, urls, s.clock, ts)
  {
    var s1 := Apply(env, s, Begin(post, urls));
    RunOne(env, s, Begin(post, urls));
    var turns := FirstTurns(env, s1, post, urls, ts, |urls|);
    assert urls[..|urls|] == urls;
    RunConcat(env, s, [Begin(post, urls)], turns);
    steps := [Begin(post, urls)] + turns;
  }

  // ----- stable URLs -----

  ghost function EnvOf(host: Normalizer.Host, codec: Normalizer.Codec): Env {
    Env(raw => Normalizer.NormalizeText(host, codec, raw), codec.hash)
  }

  /**
   A normalised URL is its own normal form, so that the fetcher recomputes the stored key,
   exactly when its host conversion ended well and it does not end in white space.
   */
  lemma StableExactly(host: Normalizer.Host, codec: Normalizer.Codec, raw: Str)
    requires Normalizer.HostLaws(host) && Normalizer.CodecLaws(host, codec)
    requires Normalizer.NormalizeText(host, codec, raw).Some?
    ensures
      var name := Normalizer.SplitHostPort(codec.parse(codec.trim(raw)).value.host).0;
      var url := Normalizer.NormalizeText(host, codec, raw).value;
      Stable(EnvOf(host, codec), raw) <==> Normalizer.HostStays(host, name) && codec.trim(url) == url
  {
    Normalizer.FetchKeyAgrees(host, codec, raw);
    assert EnvOf(host, codec).normalize(raw) == Normalizer.NormalizeText(host, codec, raw);
  }

  /** A plain host with at most one trailing dot, in a text without a fragment, is enough. */
  lemma PlainIsStable(host: Normalizer.Host, codec: Normalizer.Codec, raw: Str)
    requires Normalizer.HostLaws(host) && Normalizer.PlainLaw(host) && Normalizer.CodecLaws(host, codec)
    requires Normalizer.NormalizeText(host, codec, raw).Some? && '#' !in raw
    requires Normalizer.Plain(Normalizer.Lower(Normalizer.SplitHostPort(codec.parse(codec.trim(raw)).value.host).0))
    ensures
      var name := Normalizer.SplitHostPort(codec.parse(codec.trim(raw)).value.host).0;
      Stable(EnvOf(host, codec), raw) <==> !Normalizer.TwoTrailingDots(name)
  {
    Normalizer.PlainKeyAgrees(host, codec, raw);
    assert EnvOf(host, codec).normalize(raw) == Normalizer.NormalizeText(host, codec, raw);
  }
}
