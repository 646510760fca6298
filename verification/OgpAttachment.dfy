/**
 A post's links are its winning slots, in position order, whatever the order of
 worker steps, retries and other posts' jobs was.
 */
module OgpAttachment {
  import opened Text
  import opened Wrappers
  import opened Order
  import opened OgpStores
  import opened OgpPipeline
  import opened OgpSlots

  /** Normalising a URL of the post again changes nothing. */
  ghost predicate AllStable(env: Env, urls: seq<Str>) {
    forall i :: 0 <= i < |urls| ==> Stable(env, urls[i])
  }

  /** No two URLs of the post share a hash. */
  ghost predicate Separate(env: Env, urls: seq<Str>) {
    forall i, j :: 0 <= i < j < |urls| && Key(env, urls[i]).Some? ==> Key(env, urls[i]) != Key(env, urls[j])
  }

  predicate Stable(env: Env, raw: Str) {
    var n := env.normalize(raw);
    n.Some? ==> env.normalize(n.value) == n
  }

  // ----- who has won a slot -----

  /** The job's link is in: it is done, or its worker has only the final mark left. */
  predicate Succeeded(s: State, id: Str) {
    && id in s.st.jobs
    && (|| s.st.jobs[id].status == Done
        || (s.st.jobs[id].status == Running && Owned(s, id) && s.workers[s.owner[id]].Linked?))
  }

  predicate SlotWins(s: State, slot: Slot) {
    slot.FromCache? || (slot.ByJob? && Succeeded(s, slot.id))
  }

  predicate WonLink(env: Env, s: State, post: Str, l: Link) {
    && post in s.calls
    && l.position < |s.calls[post].slots| <= |s.calls[post].urls|
    && SlotWins(s, s.calls[post].slots[l.position])
    && Key(env, s.calls[post].urls[l.position]) == Some(l.hash)
  }

  predicate HasHash(links: seq<Link>, hash: Str) {
    exists i :: 0 <= i < |links| && links[i].hash == hash
  }

  /** Every link has won, and every hash that has won is linked. */
  ghost predicate Exact(env: Env, s: State, post: Str) {
    && WellLinked(LinksOf(s.st.links, post))
    && (forall l :: l in LinksOf(s.st.links, post) ==> WonLink(env, s, post, l))
    && (forall l :: WonLink(env, s, post, l) ==> HasHash(LinksOf(s.st.links, post), l.hash))
  }

  ghost predicate LinksExact(env: Env, s: State) {
    && (forall post :: post !in s.calls ==> LinksOf(s.st.links, post) == [])
    && (forall post :: post in s.calls && AllStable(env, s.calls[post].urls) ==> Exact(env, s, post))
  }

  // ----- one post, one step -----

  lemma SameWonExact(env: Env, s: State, s': State, post: Str)
    requires Exact(env, s, post) && LinksOf(s'.st.links, post) == LinksOf(s.st.links, post)
    requires forall l :: WonLink(env, s', post, l) <==> WonLink(env, s, post, l)
    ensures Exact(env, s', post)
  {}

  lemma ExactFrame(env: Env, s: State, s': State, post: Str)
    requires Exact(env, s, post) && post in s.calls && post in s'.calls
    requires LinksOf(s'.st.links, post) == LinksOf(s.st.links, post)
    requires s'.calls[post].urls == s.calls[post].urls && s'.calls[post].slots == s.calls[post].slots
    requires forall slot :: slot in s.calls[post].slots ==> (SlotWins(s', slot) <==> SlotWins(s, slot))
    ensures Exact(env, s', post)
  {
    SameWonExact(env, s, s', post);
  }

  /** A slot that has not won is appended. */
  lemma ExactGrows(env: Env, s: State, s': State, post: Str, slot: Slot)
    requires Exact(env, s, post) && post in s.calls && post in s'.calls
    requires LinksOf(s'.st.links, post) == LinksOf(s.st.links, post)
    requires s'.calls[post].urls == s.calls[post].urls && s'.calls[post].slots == s.calls[post].slots + [slot]
    requires |s'.calls[post].slots| <= |s'.calls[post].urls|
    requires forall x :: x in s.calls[post].slots ==> (SlotWins(s', x) <==> SlotWins(s, x))
    requires !SlotWins(s', slot)
    ensures Exact(env, s', post)
  {
    forall l ensures WonLink(env, s', post, l) <==> WonLink(env, s, post, l) {
      if l.position < |s.calls[post].slots| {
        assert s.calls[post].slots[l.position] in s.calls[post].slots;
      }
    }
    SameWonExact(env, s, s', post);
  }

  /** What clashes with a link that has just won has its hash: a position has one hash. */
  lemma ClashHasHash(env: Env, s: State, s': State, post: Str, l: Link)
    requires Exact(env, s, post) && Clashes(LinksOf(s.st.links, post), l)
    requires forall x :: WonLink(env, s', post, x) <==> WonLink(env, s, post, x) || x == l
    ensures HasHash(LinksOf(s.st.links, post), l.hash)
  {
    var links := LinksOf(s.st.links, post);
    var k :| 0 <= k < |links| && Clash(links[k], l);
    assert links[k] in links && WonLink(env, s', post, links[k]) && WonLink(env, s', post, l);
  }

  lemma InsertKeepsHashes(links: seq<Link>, l: Link, hash: Str)
    requires HasHash(links, hash) || hash == l.hash
    ensures HasHash(Insert(ByPosition, l, links), hash)
  {
    var r := Insert(ByPosition, l, links);
    var x := l;
    if hash != l.hash {
      var i :| 0 <= i < |links| && links[i].hash == hash;
      x := links[i];
    }
    InsertMembers(links, l, x);
    var j :| 0 <= j < |r| && r[j] == x;
    assert r[j].hash == hash;
  }

  /** Attaching a link that has just won, whether or not it clashes. */
  lemma ExactAdds(env: Env, s: State, s': State, post: Str, l: Link)
    requires Exact(env, s, post)
    requires LinksOf(s'.st.links, post) == LinksOf(Attached(s.st.links, post, l), post)
    requires forall x :: WonLink(env, s', post, x) <==> WonLink(env, s, post, x) || x == l
    ensures Exact(env, s', post)
  {
    var links := LinksOf(s.st.links, post);
    if Clashes(links, l) {
      ClashHasHash(env, s, s', post, l);
    } else {
      InsertedLink(links, l);
      forall x | x in LinksOf(s'.st.links, post) ensures WonLink(env, s', post, x) { InsertMembers(links, l, x); }
      forall x | WonLink(env, s', post, x) ensures HasHash(LinksOf(s'.st.links, post), x.hash) {
        InsertKeepsHashes(links, l, x.hash);
      }
    }
  }

  // ----- steps of the enqueuer -----

  /** Jobs, workers and owners stay: so do the winners. */
  lemma SameWinners(s: State, s': State, id: Str)
    requires id in s.st.jobs && id in s'.st.jobs && s'.st.jobs[id] == s.st.jobs[id]
    requires s'.workers == s.workers && s'.owner == s.owner
    ensures Succeeded(s', id) <==> Succeeded(s, id)
  {}

  lemma SameSlots(env: Env, s: State, s': State, post: Str)
    requires Slotted(env, s) && post in s.calls
    requires forall id :: id in s.st.jobs ==> id in s'.st.jobs && s'.st.jobs[id] == s.st.jobs[id]
    requires s'.workers == s.workers && s'.owner == s.owner
    ensures forall slot :: slot in s.calls[post].slots ==> (SlotWins(s', slot) <==> SlotWins(s, slot))
  {
    assert CallOk(env, s, post);
    forall slot | slot in s.calls[post].slots ensures SlotWins(s', slot) <==> SlotWins(s, slot) {
      var i :| 0 <= i < |s.calls[post].slots| && s.calls[post].slots[i] == slot;
      assert SlotOk(env, s, post, i);
      if slot.ByJob? { SameWinners(s, s', slot.id); }
    }
  }

  lemma LookupKeepsExact(env: Env, s: State, post: Str)
    requires Slotted(env, s) && LinksExact(env, s) && Enabled(env, s, Lookup(post))
    ensures LinksExact(env, Apply(env, s, Lookup(post)))
  {
    var s' := Apply(env, s, Lookup(post));
    forall p | p in s'.calls && AllStable(env, s'.calls[p].urls) ensures Exact(env, s', p) {
      SameSlots(env, s, s', p);
      if s'.calls[p].slots == s.calls[p].slots {
        ExactFrame(env, s, s', p);
      } else {
        ExactGrows(env, s, s', p, Skipped);
      }
    }
  }

  lemma BeginKeepsExact(env: Env, s: State, post: Str, urls: seq<Str>)
    requires Slotted(env, s) && LinksExact(env, s) && Enabled(env, s, Begin(post, urls))
    ensures LinksExact(env, Apply(env, s, Begin(post, urls)))
  {
    var s' := Apply(env, s, Begin(post, urls));
    forall p | p in s'.calls && AllStable(env, s'.calls[p].urls) ensures Exact(env, s', p) {
      if p != post {
        SameSlots(env, s, s', p);
        ExactFrame(env, s, s', p);
      }
    }
  }

  lemma MissKeepsExact(env: Env, s: State, post: Str, id: Str)
    requires Slotted(env, s) && LinksExact(env, s)
    requires Enabled(env, s, Act(post, id)) && s.calls[post].decision.value.Miss?
    ensures LinksExact(env, Apply(env, s, Act(post, id)))
  {
    var s' := Apply(env, s, Act(post, id));
    forall p | p in s'.calls && AllStable(env, s'.calls[p].urls) ensures Exact(env, s', p) {
      SameSlots(env, s, s', p);
      if p != post {
        ExactFrame(env, s, s', p);
      } else {
        ExactGrows(env, s, s', p, ByJob(id));
      }
    }
  }

  lemma HitAdds(env: Env, s: State, post: Str, id: Str)
    requires Slotted(env, s) && LinksExact(env, s)
    requires Enabled(env, s, Act(post, id)) && s.calls[post].decision.value.Hit?
    requires AllStable(env, s.calls[post].urls)
    ensures Exact(env, Apply(env, s, Act(post, id)), post)
  {
    var s' := Apply(env, s, Act(post, id));
    var c := s.calls[post];
    var l := Link(env.hash(env.normalize(Current(c)).value), |c.slots|);
    SameSlots(env, s, s', post);
    forall x ensures WonLink(env, s', post, x) <==> WonLink(env, s, post, x) || x == l {
      if x.position < |c.slots| { assert c.slots[x.position] in c.slots; }
    }
    ExactAdds(env, s, s', post, l);
  }

  lemma HitKeepsExact(env: Env, s: State, post: Str, id: Str)
    requires Slotted(env, s) && LinksExact(env, s)
    requires Enabled(env, s, Act(post, id)) && s.calls[post].decision.value.Hit?
    ensures LinksExact(env, Apply(env, s, Act(post, id)))
  {
    var s' := Apply(env, s, Act(post, id));
    forall p | p in s'.calls && AllStable(env, s'.calls[p].urls) ensures Exact(env, s', p) {
      if p != post {
        SameSlots(env, s, s', p);
        ExactFrame(env, s, s', p);
      } else {
        HitAdds(env, s, post, id);
      }
    }
  }

  // ----- steps of a worker -----

  lemma OtherWinners(s: State, s': State, w: nat, id: Str, x: Str)
    requires Owning(s) && Moves(s, s', w, id) && x in s.st.jobs && x != id
    ensures Succeeded(s', x) <==> Succeeded(s, x)
  {
    assert JobOk(s, x);
    if s.st.jobs[x].status == Running { assert s.owner[x] != w; }
  }

  lemma ClaimMoves(env: Env, s: State, w: nat, id: Str)
    requires Owning(s) && Enabled(env, s, Claim(w, id))
    ensures Moves(s, Apply(env, s, Claim(w, id)), w, id)
  {
    forall v | Busy(s, v) ensures s.workers[v].job.id != id { assert WorkerOk(s, v); }
  }

  /** The job a worker step is about. */
  function Subject(s: State, step: Step): Str
    requires WorkerStep(step) && step.w in s.workers && (step.Claim? || Busy(s, step.w))
  {
    if step.Claim? then step.id else s.workers[step.w].job.id
  }

  /** Only attaching makes a job succeed, and nothing undoes it. */
  lemma WinnersAfter(env: Env, s: State, step: Step, x: Str)
    requires Owning(s) && Enabled(env, s, step) && WorkerStep(step) && x in s.st.jobs
    ensures Succeeded(Apply(env, s, step), x) <==> Succeeded(s, x) || (step.Attach? && x == Subject(s, step))
  {
    var s' := Apply(env, s, step);
    var id := Subject(s, step);
    if step.Claim? { ClaimMoves(env, s, step.w, id); } else { BusyMoves(env, s, step); }
    if x != id {
      OtherWinners(s, s', step.w, id, x);
    } else if !step.Claim? {
      SubjectWins(env, s, step);
    }
  }

  lemma SubjectWins(env: Env, s: State, step: Step)
    requires Owning(s) && Enabled(env, s, step) && WorkerStep(step) && !step.Claim?
    ensures Succeeded(Apply(env, s, step), Subject(s, step)) <==> Succeeded(s, Subject(s, step)) || step.Attach?
    ensures step.Attach? ==> !Succeeded(s, Subject(s, step))
  {
    assert WorkerOk(s, step.w);
  }

  lemma QuietWorkerKeepsExact(env: Env, s: State, step: Step)
    requires Owning(s) && Slotted(env, s) && LinksExact(env, s)
    requires Enabled(env, s, step) && WorkerStep(step) && !step.Attach?
    ensures LinksExact(env, Apply(env, s, step))
  {
    var s' := Apply(env, s, step);
    forall p | p in s'.calls && AllStable(env, s'.calls[p].urls) ensures Exact(env, s', p) {
      SlotsAfter(env, s, step, p);
      ExactFrame(env, s, s', p);
    }
  }

  lemma SlotsAfter(env: Env, s: State, step: Step, post: Str)
    requires Owning(s) && Slotted(env, s) && Enabled(env, s, step) && WorkerStep(step) && post in s.calls
    ensures forall slot :: slot in s.calls[post].slots ==>
      (SlotWins(Apply(env, s, step), slot) <==>
       SlotWins(s, slot) || (step.Attach? && slot == ByJob(Subject(s, step))))
  {
    assert CallOk(env, s, post);
    forall slot | slot in s.calls[post].slots
      ensures SlotWins(Apply(env, s, step), slot) <==>
              SlotWins(s, slot) || (step.Attach? && slot == ByJob(Subject(s, step)))
    {
      var i :| 0 <= i < |s.calls[post].slots| && s.calls[post].slots[i] == slot;
      assert SlotOk(env, s, post, i);
      if slot.ByJob? { WinnersAfter(env, s, step, slot.id); }
    }
  }

  /** The link a successful job attaches is the one its slot stands for. */
  lemma AttachAdds(env: Env, s: State, w: nat)
    requires Owning(s) && Slotted(env, s) && LinksExact(env, s) && Enabled(env, s, Attach(w))
    requires s.workers[w].job.post in s.calls && AllStable(env, s.calls[s.workers[w].job.post].urls)
    ensures Exact(env, Apply(env, s, Attach(w)), s.workers[w].job.post)
  {
    var s', job := Apply(env, s, Attach(w)), s.workers[w].job;
    var post, c := job.post, s.calls[job.post];
    var l := Link(s.workers[w].preview.urlHash, job.position);
    assert WorkerOk(s, w) && JobSlotted(env, s, job.id) && PageOk(env, s, w) && CallOk(env, s, post);
    assert Stable(env, c.urls[job.position]);
    SubjectWins(env, s, Attach(w));
    SlotsAfter(env, s, Attach(w), post);
    forall x ensures WonLink(env, s', post, x) <==> WonLink(env, s, post, x) || x == l {
      WonAfterAttach(env, s, w, x);
    }
    ExactAdds(env, s, s', post, l);
  }

  lemma WonAfterAttach(env: Env, s: State, w: nat, x: Link)
    requires Owning(s) && Slotted(env, s) && Enabled(env, s, Attach(w))
    requires s.workers[w].job.post in s.calls && AllStable(env, s.calls[s.workers[w].job.post].urls)
    ensures
      var job := s.workers[w].job;
      var l := Link(s.workers[w].preview.urlHash, job.position);
      WonLink(env, Apply(env, s, Attach(w)), job.post, x) <==> WonLink(env, s, job.post, x) || x == l
  {
    var job := s.workers[w].job;
    var c := s.calls[job.post];
    assert WorkerOk(s, w) && JobSlotted(env, s, job.id) && PageOk(env, s, w) && CallOk(env, s, job.post);
    assert Stable(env, c.urls[job.position]);
    SlotsAfter(env, s, Attach(w), job.post);
    if x.position < |c.slots| {
      assert c.slots[x.position] in c.slots;
      assert SlotOk(env, s, job.post, x.position);
    }
  }

  lemma AttachKeepsExact(env: Env, s: State, w: nat)
    requires Owning(s) && Slotted(env, s) && LinksExact(env, s) && Enabled(env, s, Attach(w))
    ensures LinksExact(env, Apply(env, s, Attach(w)))
  {
    var s', job := Apply(env, s, Attach(w)), s.workers[w].job;
    AttachKeepsUnknown(env, s, w);
    forall p | p in s'.calls && AllStable(env, s'.calls[p].urls) ensures Exact(env, s', p) {
      if p == job.post { AttachAdds(env, s, w); } else { AttachKeepsOther(env, s, w, p); }
    }
  }

  lemma AttachKeepsUnknown(env: Env, s: State, w: nat)
    requires Owning(s) && Slotted(env, s) && LinksExact(env, s) && Enabled(env, s, Attach(w))
    ensures Apply(env, s, Attach(w)).calls == s.calls
    ensures forall post :: post !in s.calls ==> LinksOf(Apply(env, s, Attach(w)).st.links, post) == []
  {
    assert WorkerOk(s, w) && JobSlotted(env, s, s.workers[w].job.id);
  }

  lemma AttachKeepsOther(env: Env, s: State, w: nat, post: Str)
    requires Owning(s) && Slotted(env, s) && LinksExact(env, s) && Enabled(env, s, Attach(w))
    requires post in s.calls && post != s.workers[w].job.post && AllStable(env, s.calls[post].urls)
    ensures Exact(env, Apply(env, s, Attach(w)), post)
  {
    OtherSlotsAfterAttach(env, s, w, post);
    ExactFrame(env, s, Apply(env, s, Attach(w)), post);
  }

  lemma OtherSlotsAfterAttach(env: Env, s: State, w: nat, post: Str)
    requires Owning(s) && Slotted(env, s) && Enabled(env, s, Attach(w))
    requires post in s.calls && post != s.workers[w].job.post
    ensures forall slot :: slot in s.calls[post].slots ==>
      (SlotWins(Apply(env, s, Attach(w)), slot) <==> SlotWins(s, slot))
  {
    SlotsAfter(env, s, Attach(w), post);
    assert WorkerOk(s, w) && CallOk(env, s, post);
    forall i | 0 <= i < |s.calls[post].slots| ensures s.calls[post].slots[i] != ByJob(s.workers[w].job.id) {
      assert SlotOk(env, s, post, i);
    }
  }

  lemma StepKeepsExact(env: Env, s: State, step: Step)
    requires Owning(s) && Slotted(env, s) && LinksExact(env, s) && Enabled(env, s, step)
    ensures LinksExact(env, Apply(env, s, step))
  {
    match step
    case Tick(_) =>
      forall p | p in s.calls && AllStable(env, s.calls[p].urls) ensures Exact(env, Apply(env, s, step), p) {
        SameSlots(env, s, Apply(env, s, step), p);
        ExactFrame(env, s, Apply(env, s, step), p);
      }
    case Begin(post, urls) => BeginKeepsExact(env, s, post, urls);
    case Lookup(post) => LookupKeepsExact(env, s, post);
    case Act(post, id) =>
      if s.calls[post].decision.value.Hit? { HitKeepsExact(env, s, post, id); } else { MissKeepsExact(env, s, post, id); }
    case Attach(w) => AttachKeepsExact(env, s, w);
    case _ => QuietWorkerKeepsExact(env, s, step);
  }

  lemma {:induction false} RunKeepsExact(env: Env, s: State, steps: seq<Step>)
    requires Owning(s) && Slotted(env, s) && LinksExact(env, s) && Run(env, s, steps).Some?
    ensures LinksExact(env, Run(env, s, steps).value)
    decreases |steps|
  {
    if steps != [] {
      StepKeepsExact(env, s, steps[0]);
      StepKeepsSlotted(env, s, steps[0]);
      StepKeepsOwning(env, s, steps[0]);
      RunKeepsExact(env, Apply(env, s, steps[0]), steps[1..]);
    }
  }

  // ----- every link has its row -----

  /** Rows are never removed, and each sits under its own hash. */
  ghost predicate RowsOk(env: Env, s: State) {
    && (forall h :: h in s.st.rows ==> s.st.rows[h].urlHash == h)
    && (forall post, l :: post in s.st.links && l in s.st.links[post] ==> l.hash in s.st.rows)
    && (forall post :: post in s.calls && s.calls[post].decision == Some(Hit) ==> HitRow(env, s, post))
    && (forall w :: w in s.workers && s.workers[w].Stored? && s.workers[w].preview.ok ==>
         s.workers[w].preview.urlHash in s.st.rows)
  }

  predicate HitRow(env: Env, s: State, post: Str)
    requires post in s.calls
  {
    var c := s.calls[post];
    |c.slots| < |c.urls| && env.normalize(Current(c)).Some? && env.hash(env.normalize(Current(c)).value) in s.st.rows
  }

  lemma AttachedMembers(m: LinkMap, post: Str, l: Link, p: Str, x: Link)
    requires p in Attached(m, post, l) && x in Attached(m, post, l)[p]
    ensures x == l || (p in m && x in m[p])
  {
    InsertMembers(LinksOf(m, post), l, x);
  }

  lemma LinkKeepsRows(env: Env, s: State, s': State, post: Str, l: Link)
    requires RowsOk(env, s) && l.hash in s.st.rows
    requires s'.st.rows == s.st.rows && s'.st.links == Attached(s.st.links, post, l)
    ensures forall p, x :: p in s'.st.links && x in s'.st.links[p] ==> x.hash in s'.st.rows
  {
    forall p, x | p in s'.st.links && x in s'.st.links[p] ensures x.hash in s'.st.rows {
      AttachedMembers(s.st.links, post, l, p, x);
    }
  }

  lemma ActKeepsRows(env: Env, s: State, post: Str, id: Str)
    requires RowsOk(env, s) && Enabled(env, s, Act(post, id))
    ensures RowsOk(env, Apply(env, s, Act(post, id)))
  {
    var s', c := Apply(env, s, Act(post, id)), s.calls[post];
    if c.decision.value.Hit? {
      assert HitRow(env, s, post);
      LinkKeepsRows(env, s, s', post, Link(env.hash(env.normalize(Current(c)).value), |c.slots|));
    }
    forall p | p in s'.calls && s'.calls[p].decision == Some(Hit) ensures HitRow(env, s', p) { assert HitRow(env, s, p); }
  }

  lemma AttachKeepsRows(env: Env, s: State, w: nat)
    requires RowsOk(env, s) && Enabled(env, s, Attach(w))
    ensures RowsOk(env, Apply(env, s, Attach(w)))
  {
    var s', job := Apply(env, s, Attach(w)), s.workers[w].job;
    if job.post != [] {
      LinkKeepsRows(env, s, s', job.post, Link(s.workers[w].preview.urlHash, job.position));
    }
    forall p | p in s'.calls && s'.calls[p].decision == Some(Hit) ensures HitRow(env, s', p) { assert HitRow(env, s, p); }
  }

  lemma UpsertKeepsRows(env: Env, s: State, w: nat)
    requires HashOk(env) && Slotted(env, s) && RowsOk(env, s) && Enabled(env, s, Upsert(w))
    ensures RowsOk(env, Apply(env, s, Upsert(w)))
  {
    var s' := Apply(env, s, Upsert(w));
    assert PageOk(env, s, w);
    forall p | p in s'.calls && s'.calls[p].decision == Some(Hit) ensures HitRow(env, s', p) { assert HitRow(env, s, p); }
  }

  lemma LookupKeepsRows(env: Env, s: State, post: Str)
    requires RowsOk(env, s) && Enabled(env, s, Lookup(post))
    ensures RowsOk(env, Apply(env, s, Lookup(post)))
  {
    var s' := Apply(env, s, Lookup(post));
    forall p | p in s'.calls && s'.calls[p].decision == Some(Hit) ensures HitRow(env, s', p) {
      if p != post { assert HitRow(env, s, p); }
    }
  }

  lemma OtherKeepsRows(env: Env, s: State, step: Step)
    requires RowsOk(env, s) && Enabled(env, s, step)
    requires !step.Act? && !step.Attach? && !step.Upsert? && !step.Lookup?
    ensures RowsOk(env, Apply(env, s, step))
  {
    var s' := Apply(env, s, step);
    assert s'.st.rows == s.st.rows && s'.st.links == s.st.links;
    forall p | p in s'.calls && s'.calls[p].decision == Some(Hit) ensures HitRow(env, s', p) { assert HitRow(env, s, p); }
  }

  lemma StepKeepsRows(env: Env, s: State, step: Step)
    requires HashOk(env) && Slotted(env, s) && RowsOk(env, s) && Enabled(env, s, step)
    ensures RowsOk(env, Apply(env, s, step))
  {
    match step
    case Lookup(post) => LookupKeepsRows(env, s, post);
    case Act(post, id) => ActKeepsRows(env, s, post, id);
    case Attach(w) => AttachKeepsRows(env, s, w);
    case Upsert(w) => UpsertKeepsRows(env, s, w);
    case _ => OtherKeepsRows(env, s, step);
  }

  lemma {:induction false} RunKeepsRows(env: Env, s: State, steps: seq<Step>)
    requires HashOk(env) && Owning(s) && Slotted(env, s) && RowsOk(env, s) && Run(env, s, steps).Some?
    ensures RowsOk(env, Run(env, s, steps).value)
    decreases |steps|
  {
    if steps != [] {
      StepKeepsRows(env, s, steps[0]);
      StepKeepsSlotted(env, s, steps[0]);
      StepKeepsOwning(env, s, steps[0]);
      RunKeepsRows(env, Apply(env, s, steps[0]), steps[1..]);
    }
  }

  // ----- main results -----

  /** The URL was a fresh ok hit, or its job is done. */
  predicate Won(c: Call, jobs: JobMap, i: nat)
    requires i < |c.slots|
  {
    match c.slots[i]
    case Skipped => false
    case FromCache => true
    case ByJob(id) => id in jobs && jobs[id].status == Done
  }

  /** The (hash, index) pairs of the first `n` URLs that won, by index. */
  function Winners(env: Env, c: Call, jobs: JobMap, n: nat): seq<Link>
    requires n <= |c.slots| <= |c.urls|
  {
    if n == 0 then []
    else
      var k := Key(env, c.urls[n - 1]);
      Winners(env, c, jobs, n - 1) + (if k.Some? && Won(c, jobs, n - 1) then [Link(k.value, n - 1)] else [])
  }

  lemma {:induction false} WinnersMembers(env: Env, c: Call, jobs: JobMap, n: nat)
    requires n <= |c.slots| <= |c.urls|
    ensures forall l :: l in Winners(env, c, jobs, n) <==>
      l.position < n && Won(c, jobs, l.position) && Key(env, c.urls[l.position]) == Some(l.hash)
    ensures Sorted(ByPosition, Winners(env, c, jobs, n))
  {
    if n > 0 { WinnersMembers(env, c, jobs, n - 1); }
  }

  /** Two position-sorted lists with the same links are the same list. */
  lemma {:induction false} SameLinksSameList(a: seq<Link>, b: seq<Link>)
    requires Sorted(ByPosition, a) && Sorted(ByPosition, b)
    requires forall l :: l in a <==> l in b
    ensures a == b
  {
    assert Elems(a) == Elems(b);
    ElemsEmpty(a);
    ElemsEmpty(b);
    if a != [] {
      assert a[0] in b;
      var j :| 0 <= j < |b| && b[j] == a[0];
      assert b[0] in a;
      var i :| 0 <= i < |a| && a[i] == b[0];
      assert i == 0 && j == 0;
      forall l ensures l in a[1..] <==> l in b[1..] {
        RestOf(a, l);
        RestOf(b, l);
      }
      SameLinksSameList(a[1..], b[1..]);
    }
  }

  lemma RestOf(a: seq<Link>, l: Link)
    requires Sorted(ByPosition, a) && a != []
    ensures l in a[1..] <==> l in a && l != a[0]
  {
    assert a == [a[0]] + a[1..];
    if l in a[1..] {
      var i :| 0 <= i < |a[1..]| && a[1..][i] == l;
      assert ByPosition(a[0], a[i + 1]);
    }
  }

  /** Every URL was looked at, and every job made for the post is done or failed. */
  ghost predicate Settles(s: State, post: Str) {
    && post in s.calls && |s.calls[post].slots| == |s.calls[post].urls|
    && (forall id :: id in s.st.jobs && s.st.jobs[id].post == post ==> Terminal(s.st.jobs[id]))
  }

  lemma WinnersAreWonLinks(env: Env, s: State, post: Str, l: Link)
    requires Slotted(env, s) && Settles(s, post)
    ensures
      var c := s.calls[post];
      l in Winners(env, c, s.st.jobs, |c.urls|) <==> WonLink(env, s, post, l)
  {
    var c := s.calls[post];
    WinnersMembers(env, c, s.st.jobs, |c.urls|);
    assert CallOk(env, s, post);
    if l.position < |c.slots| { assert SlotOk(env, s, post, l.position); }
  }

  /** No two winning URLs share a hash. */
  ghost predicate WinnersApart(env: Env, c: Call, jobs: JobMap) {
    |c.slots| <= |c.urls|
    && forall i, j :: 0 <= i < j < |c.slots| && Won(c, jobs, i) && Won(c, jobs, j) ==>
         Key(env, c.urls[i]) != Key(env, c.urls[j])
  }

  /** Links are winners, and every winning hash is linked. */
  ghost predicate Matches(links: seq<Link>, winners: seq<Link>) {
    && (forall l :: l in links ==> l in winners)
    && (forall l :: l in winners ==> HasHash(links, l.hash))
  }

  lemma SettledMatches(env: Env, s: State, post: Str)
    requires Slotted(env, s) && LinksExact(env, s) && Settles(s, post) && AllStable(env, s.calls[post].urls)
    ensures
      var c := s.calls[post];
      Matches(LinksOf(s.st.links, post), Winners(env, c, s.st.jobs, |c.urls|)) && WellLinked(LinksOf(s.st.links, post))
  {
    var c := s.calls[post];
    forall l ensures l in Winners(env, c, s.st.jobs, |c.urls|) <==> WonLink(env, s, post, l) {
      WinnersAreWonLinks(env, s, post, l);
    }
  }

  lemma ApartIsExact(env: Env, c: Call, jobs: JobMap, links: seq<Link>)
    requires WellLinked(links) && WinnersApart(env, c, jobs) && |c.slots| == |c.urls|
    requires Matches(links, Winners(env, c, jobs, |c.urls|))
    ensures links == Winners(env, c, jobs, |c.urls|)
  {
    var winners := Winners(env, c, jobs, |c.urls|);
    WinnersMembers(env, c, jobs, |c.urls|);
    forall l | l in winners ensures l in links {
      var k :| 0 <= k < |links| && links[k].hash == l.hash;
      assert links[k] in links && links[k] in winners;
      assert links[k].position == l.position;
    }
    SameLinksSameList(links, winners);
  }

  lemma ExactIsApart(env: Env, c: Call, jobs: JobMap, links: seq<Link>)
    requires WellLinked(links) && |c.slots| == |c.urls| && links == Winners(env, c, jobs, |c.urls|)
    requires forall i :: 0 <= i < |c.slots| && Won(c, jobs, i) ==> Key(env, c.urls[i]).Some?
    ensures WinnersApart(env, c, jobs)
  {
    WinnersMembers(env, c, jobs, |c.urls|);
    forall i, j | 0 <= i < j < |c.slots| && Won(c, jobs, i) && Won(c, jobs, j)
      ensures Key(env, c.urls[i]) != Key(env, c.urls[j])
    {
      var h := Key(env, c.urls[i]).value;
      if Key(env, c.urls[j]) == Some(h) { OneLinkPerHash(links, Link(h, i), Link(h, j)); }
    }
  }

  lemma WonHasKey(env: Env, s: State, post: Str, i: nat)
    requires Slotted(env, s) && post in s.calls && i < |s.calls[post].slots| && Won(s.calls[post], s.st.jobs, i)
    ensures |s.calls[post].slots| <= |s.calls[post].urls| && Key(env, s.calls[post].urls[i]).Some?
  {
    assert CallOk(env, s, post) && SlotOk(env, s, post, i);
    if s.calls[post].slots[i].ByJob? { assert JobSlotted(env, s, s.calls[post].slots[i].id); }
  }

  /**
   For every order of worker steps, retries and other posts' jobs: once the jobs of a
   post are terminal its links are winning (hash, index) pairs by index, every winning
   hash has one, and reading them back finds a row for each, in order. The links are all
   the winning pairs exactly when no two winning URLs share a hash.
   */
  lemma AttachmentIsExact(env: Env, clock: int, workers: nat, steps: seq<Step>, post: Str)
    requires HashOk(env) && Run(env, Init(clock, workers), steps).Some?
    requires
      var s := Run(env, Init(clock, workers), steps).value;
      Settles(s, post) && AllStable(env, s.calls[post].urls)
    ensures
      var s := Run(env, Init(clock, workers), steps).value;
      var c, links := s.calls[post], LinksOf(s.st.links, post);
      var winners, previews := Winners(env, c, s.st.jobs, |c.urls|), ReadBack(s.st.rows, links);
      && (links == winners <==> WinnersApart(env, c, s.st.jobs))
      && Matches(links, winners) && WellLinked(links)
      && |previews| == |links|
      && (forall i :: 0 <= i < |links| ==> previews[i].urlHash == links[i].hash)
  {
    var s0 := Init(clock, workers);
    var s := Run(env, s0, steps).value;
    RunKeepsSlotted(env, s0, steps);
    RunKeepsExact(env, s0, steps);
    RunKeepsRows(env, s0, steps);
    var c, links := s.calls[post], LinksOf(s.st.links, post);
    SettledMatches(env, s, post);
    forall i | 0 <= i < |c.slots| && Won(c, s.st.jobs, i) ensures Key(env, c.urls[i]).Some? { WonHasKey(env, s, post, i); }
    if WinnersApart(env, c, s.st.jobs) {
      ApartIsExact(env, c, s.st.jobs, links);
    } else if links == Winners(env, c, s.st.jobs, |c.urls|) {
      ExactIsApart(env, c, s.st.jobs, links);
    }
    LinksReadBack(env, s, post);
  }

  lemma LinksReadBack(env: Env, s: State, post: Str)
    requires RowsOk(env, s)
    ensures
      var links := LinksOf(s.st.links, post);
      var previews := ReadBack(s.st.rows, links);
      |previews| == |links| && forall i :: 0 <= i < |links| ==> previews[i].urlHash == links[i].hash
  {
    var links := LinksOf(s.st.links, post);
    forall i | 0 <= i < |links| ensures links[i].hash in s.st.rows { assert links[i] in links; }
    ReadBackIsComplete(s.st.rows, links);
  }

  /** URLs with pairwise distinct hashes, which a caller can check beforehand, are enough. */
  lemma SeparateUrlsAttach(env: Env, clock: int, workers: nat, steps: seq<Step>, post: Str)
    requires HashOk(env) && Run(env, Init(clock, workers), steps).Some?
    requires
      var s := Run(env, Init(clock, workers), steps).value;
      Settles(s, post) && AllStable(env, s.calls[post].urls) && Separate(env, s.calls[post].urls)
    ensures
      var s := Run(env, Init(clock, workers), steps).value;
      LinksOf(s.st.links, post) == Winners(env, s.calls[post], s.st.jobs, |s.calls[post].urls|)
  {
    var s := Run(env, Init(clock, workers), steps).value;
    RunKeepsSlotted(env, Init(clock, workers), steps);
    var c := s.calls[post];
    forall i | 0 <= i < |c.slots| && Won(c, s.st.jobs, i) ensures Key(env, c.urls[i]).Some? { WonHasKey(env, s, post, i); }
    AttachmentIsExact(env, clock, workers, steps, post);
  }

  lemma {:induction false} SameWinsSameWinners(env: Env, c1: Call, jobs1: JobMap, c2: Call, jobs2: JobMap, n: nat)
    requires n <= |c1.slots| <= |c1.urls| && n <= |c2.slots| && c1.urls == c2.urls
    requires forall i :: 0 <= i < n ==> (Won(c1, jobs1, i) <==> Won(c2, jobs2, i))
    ensures |c2.slots| <= |c2.urls| ==> Winners(env, c1, jobs1, n) == Winners(env, c2, jobs2, n)
  {
    if n > 0 && |c2.slots| <= |c2.urls| { SameWinsSameWinners(env, c1, jobs1, c2, jobs2, n - 1); }
  }

  /**
   Two runs of any shape in which the same URLs of a post won link the same hashes, and
   leave the same links when no two of those URLs share a hash.
   */
  lemma OrderDoesNotMatter(env: Env, post: Str, clock1: int, workers1: nat, steps1: seq<Step>,
                           clock2: int, workers2: nat, steps2: seq<Step>)
    requires HashOk(env)
    requires Run(env, Init(clock1, workers1), steps1).Some? && Run(env, Init(clock2, workers2), steps2).Some?
    requires
      var s1 := Run(env, Init(clock1, workers1), steps1).value;
      var s2 := Run(env, Init(clock2, workers2), steps2).value;
      && Settles(s1, post) && Settles(s2, post)
      && s1.calls[post].urls == s2.calls[post].urls && AllStable(env, s1.calls[post].urls)
      && (forall i :: 0 <= i < |s1.calls[post].slots| ==>
           (Won(s1.calls[post], s1.st.jobs, i) <==> Won(s2.calls[post], s2.st.jobs, i)))
    ensures
      var s1 := Run(env, Init(clock1, workers1), steps1).value;
      var links1 := LinksOf(s1.st.links, post);
      var links2 := LinksOf(Run(env, Init(clock2, workers2), steps2).value.st.links, post);
      && (forall h :: HasHash(links1, h) <==> HasHash(links2, h))
      && (WinnersApart(env, s1.calls[post], s1.st.jobs) ==> links1 == links2)
  {
    var s1 := Run(env, Init(clock1, workers1), steps1).value;
    var s2 := Run(env, Init(clock2, workers2), steps2).value;
    AttachmentIsExact(env, clock1, workers1, steps1, post);
    AttachmentIsExact(env, clock2, workers2, steps2, post);
    SameWinsSameWinners(env, s1.calls[post], s1.st.jobs, s2.calls[post], s2.st.jobs, |s1.calls[post].urls|);
    var winners := Winners(env, s1.calls[post], s1.st.jobs, |s1.calls[post].urls|);
    forall h ensures HasHash(LinksOf(s1.st.links, post), h) <==> HasHash(LinksOf(s2.st.links, post), h) {
      SameHashes(LinksOf(s1.st.links, post), LinksOf(s2.st.links, post), winners, h);
    }
  }

  lemma SameHashes(a: seq<Link>, b: seq<Link>, winners: seq<Link>, h: Str)
    requires Matches(a, winners) && Matches(b, winners)
    ensures HasHash(a, h) <==> HasHash(b, h)
  {
    if i :| 0 <= i < |a| && a[i].hash == h { assert a[i] in a && a[i] in winners; }
    if j :| 0 <= j < |b| && b[j].hash == h { assert b[j] in b && b[j] in winners; }
  }

  // ----- two URLs with one hash -----

  ghost predicate AllWellLinked(s: State) {
    forall post :: post in s.st.links ==> WellLinked(s.st.links[post])
  }

  lemma StepKeepsWellLinked(env: Env, s: State, step: Step)
    requires AllWellLinked(s) && Enabled(env, s, step)
    ensures AllWellLinked(Apply(env, s, step))
  {
    if step.Attach? {
      var job := s.workers[step.w].job;
      var l := Link(s.workers[step.w].preview.urlHash, job.position);
      if !Clashes(LinksOf(s.st.links, job.post), l) { InsertedLink(LinksOf(s.st.links, job.post), l); }
    } else if step.Act? {
      var c := s.calls[step.post];
      var l := Link(env.hash(env.normalize(Current(c)).value), |c.slots|);
      if !Clashes(LinksOf(s.st.links, step.post), l) { InsertedLink(LinksOf(s.st.links, step.post), l); }
    }
  }

  lemma {:induction false} RunKeepsWellLinked(env: Env, s: State, steps: seq<Step>)
    requires AllWellLinked(s) && Run(env, s, steps).Some?
    ensures AllWellLinked(Run(env, s, steps).value)
    decreases |steps|
  {
    if steps != [] {
      StepKeepsWellLinked(env, s, steps[0]);
      RunKeepsWellLinked(env, Apply(env, s, steps[0]), steps[1..]);
    }
  }

  /**
   Distinct hashes are needed: when two URLs of a post share a hash and both won, one
   of the two links is missing, for every post and every run.
   */
  lemma SharedHashLosesLink(env: Env, clock: int, workers: nat, steps: seq<Step>, post: Str, i: nat, j: nat)
    requires Run(env, Init(clock, workers), steps).Some?
    requires
      var s := Run(env, Init(clock, workers), steps).value;
      && Settles(s, post) && i < j < |s.calls[post].urls|
      && Key(env, s.calls[post].urls[i]).Some? && Key(env, s.calls[post].urls[i]) == Key(env, s.calls[post].urls[j])
      && Won(s.calls[post], s.st.jobs, i) && Won(s.calls[post], s.st.jobs, j)
    ensures
      var s := Run(env, Init(clock, workers), steps).value;
      var h := Key(env, s.calls[post].urls[i]).value;
      var links := LinksOf(s.st.links, post);
      && (Link(h, i) !in links || Link(h, j) !in links)
      && links != Winners(env, s.calls[post], s.st.jobs, |s.calls[post].urls|)
  {
    var s := Run(env, Init(clock, workers), steps).value;
    RunKeepsWellLinked(env, Init(clock, workers), steps);
    var c, links := s.calls[post], LinksOf(s.st.links, post);
    var h := Key(env, c.urls[i]).value;
    if Link(h, i) in links && Link(h, j) in links { OneLinkPerHash(links, Link(h, i), Link(h, j)); }
    WinnersMembers(env, c, s.st.jobs, |c.urls|);
  }

  lemma OneLinkPerHash(links: seq<Link>, a: Link, b: Link)
    requires WellLinked(links) && a in links && b in links && a.hash == b.hash
    ensures a == b
  {
    var i :| 0 <= i < |links| && links[i] == a;
    var j :| 0 <= j < |links| && links[j] == b;
    assert Clash(links[i], links[j]) && Clash(links[j], links[i]);
  }
}
