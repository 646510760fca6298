/**
 What becomes of one fetch and of one URL of a post, with the numbers written out: which
 answers are tried again, how long each outcome is kept, which link is set.
 */
module OgpOutcomes {
  import opened Text
  import opened Wrappers
  import opened Order
  import opened OgpStores

  // ----- links -----

  /** No link of the post has this hash or this position yet. */
  predicate Free(links: seq<Link>, hash: Str, position: nat) {
    forall i :: 0 <= i < |links| ==> links[i].hash != hash && links[i].position != position
  }

  /** A link is added exactly when its hash and its position are free; positions keep ascending. */
  lemma AttachedSeen(m: LinkMap, post: Str, l: Link)
    requires WellLinked(LinksOf(m, post))
    ensures
      var links, links' := LinksOf(m, post), LinksOf(Attached(m, post, l), post);
      && (forall x :: x in links' <==> x in links || (x == l && Free(links, l.hash, l.position)))
      && (forall i, j :: 0 <= i < j < |links'| ==> links'[i].position < links'[j].position)
    ensures forall p :: p != post ==> LinksOf(Attached(m, post, l), p) == LinksOf(m, p)
  {
    var links := LinksOf(m, post);
    assert Free(links, l.hash, l.position) <==> !Clashes(links, l) by {
      if i :| 0 <= i < |links| && (links[i].hash == l.hash || links[i].position == l.position) {
        assert Clash(links[i], l);
      }
    }
    if !Clashes(links, l) {
      InsertedLink(links, l);
      forall x ensures x in Insert(ByPosition, l, links) <==> x in links || x == l { InsertMembers(links, l, x); }
    }
    assert Sorted(ByPosition, LinksOf(Attached(m, post, l), post));
  }

  // ----- fetching -----

  /** Worth another try: a server error, a time-out, or any error that is not listed as final. */
  predicate Transient(e: FetchError) {
    (e.BadStatus? && 500 <= e.code) || e.DeadlineExceeded? || e.OtherError?
  }

  /** A preview comes from a page of a URL that normalises, under the normal form and its digest. */
  lemma FetchSeen(env: Env, url: Str, reply: Reply)
    ensures
      var r := Fetch(env, url, reply);
      && (r.Got? <==> env.normalize(url).Some? && reply.Page?)
      && (r.Got? ==>
            && r.preview.url == env.normalize(url).value && r.preview.urlHash == env.hash(r.preview.url)
            && r.preview.meta == reply.meta)
      && (env.normalize(url).Some? && reply.Refused? ==> r == Broken(reply.error))
  {}

  ghost predicate OnlyJob(jobs: JobMap, jobs': JobMap, id: Str, status: Status)
    requires id in jobs
  {
    jobs' == jobs[id := jobs[id].(status := status)]
  }

  /** A fetched page: three days in the cache under the page's own key, one link, and the job is done. */
  lemma PageSeen(st: Stores, job: Job, p: Preview, now: int)
    requires job.id in st.jobs && p.urlHash != ""
    ensures
      var st' := Processed(st, job, Got(p), now);
      && OnlyJob(st.jobs, st'.jobs, job.id, Done)
      && st'.rows == st.rows[p.urlHash := Preview(p.urlHash, p.url, p.meta, true, now + 259_200 * 1_000_000_000)]
      && (job.post == "" ==> st'.links == st.links)
      && (job.post != "" ==> st'.links == Attached(st.links, job.post, Link(p.urlHash, job.position)))
  {}

  /** A failed fetch: tried again while transient and claimed fewer than three times, else thirty minutes of error. */
  lemma FailureSeen(st: Stores, job: Job, e: FetchError, now: int)
    requires job.id in st.jobs && job.urlHash != ""
    ensures
      var st' := Processed(st, job, Broken(e), now);
      && st'.links == st.links
      && (Transient(e) && job.attempts < 3 ==> OnlyJob(st.jobs, st'.jobs, job.id, Queued) && st'.rows == st.rows)
      && (!(Transient(e) && job.attempts < 3) ==>
            && OnlyJob(st.jobs, st'.jobs, job.id, Failed)
            && st'.rows == st.rows[job.urlHash := Preview(job.urlHash, job.url, "", false, now + 1_800 * 1_000_000_000)])
  {}

  /** A preview without a key is not cached; the job and the link are settled all the same. */
  lemma UnkeyedIsNotCached(st: Stores, job: Job, result: Fetched, now: int)
    requires if result.Got? then result.preview.urlHash == "" else job.urlHash == ""
    ensures Processed(st, job, result, now).rows == st.rows
  {}

  /** Reading back goes link by link: a link with a row gives that row, one without gives nothing. */
  lemma {:induction false} ReadBackByLinks(rows: RowMap, a: seq<Link>, b: seq<Link>, l: Link)
    ensures ReadBack(rows, [l]) == if l.hash in rows then [rows[l.hash]] else []
    ensures ReadBack(rows, a + b) == ReadBack(rows, a) + ReadBack(rows, b)
  {
    assert [l][1..] == [];
    if a == [] {
      assert a + b == b;
    } else {
      assert (a + b)[1..] == a[1..] + b;
      ReadBackByLinks(rows, a[1..], b, l);
    }
  }

  // ----- one URL of a post -----

  /**
   A row that has not run out decides: a page is linked, an error is left alone. Otherwise one job is queued
   for the URL's normal form; a URL without one is passed over.
   */
  lemma HandledSeen(env: Env, st: Stores, post: Str, raw: Str, position: nat, now: int, t: Ticket)
    requires t.id !in st.jobs
    ensures
      var st' := Handled(env, st, post, raw, position, now, t);
      var n := env.normalize(raw);
      && st'.rows == st.rows
      && (n.None? ==> st' == st)
      && (n.Some? ==>
            var hash := env.hash(n.value);
            var young := hash in st.rows && now < st.rows[hash].expiresAt;
            && (young ==> st'.jobs == st.jobs)
            && (young && st.rows[hash].ok ==> st'.links == Attached(st.links, post, Link(hash, position)))
            && (young && !st.rows[hash].ok ==> st'.links == st.links)
            && (!young ==>
                  && st'.links == st.links
                  && st'.jobs == st.jobs[t.id := Job(t.id, hash, n.value, post, position, t.at, Queued, 0)]))
  {}

  /** A page fetched for a URL is linked, not fetched again, whenever it is posted in the next three days. */
  lemma FetchedOnceLinkedLater(env: Env, st: Stores, job: Job, meta: Str, now: int,
                               post: Str, raw: Str, position: nat, later: int, t: Ticket)
    requires job.id in st.jobs && t.id !in st.jobs
    requires env.normalize(job.url).Some? && env.normalize(raw) == env.normalize(job.url)
    requires env.hash(env.normalize(raw).value) != "" && later < now + 259_200 * 1_000_000_000
    ensures
      var st1 := Processed(st, job, Fetch(env, job.url, Page(meta)), now);
      var st2 := Handled(env, st1, post, raw, position, later, t);
      && st2.jobs == st1.jobs && st2.rows == st1.rows
      && st2.links == Attached(st1.links, post, Link(env.hash(env.normalize(raw).value), position))
  {
    FetchSeen(env, job.url, Page(meta));
    PageSeen(st, job, Fetch(env, job.url, Page(meta)).preview, now);
  }
}
