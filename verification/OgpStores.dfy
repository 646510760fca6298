/**
 The link previews of posts: the in-memory link table, cache and job queue, the
 worker that drains the queue and the enqueuer that fills it.
 */
module OgpStores {
  import opened Text
  import opened Wrappers
  import opened Order
  import Extractor

  // ----- links -----

  datatype Link = Link(hash: Str, position: nat)

  type LinkMap = map<Str, seq<Link>>

  predicate ByPosition(a: Link, b: Link) {
    a.position < b.position
  }

  predicate Clash(a: Link, b: Link) {
    a.hash == b.hash || a.position == b.position
  }

  predicate Clashes(links: seq<Link>, l: Link) {
    exists i :: 0 <= i < |links| && Clash(links[i], l)
  }

  /** One link per position, in order, and one per hash. */
  predicate WellLinked(links: seq<Link>) {
    && Sorted(ByPosition, links)
    && (forall i, j :: 0 <= i < j < |links| ==> !Clash(links[i], links[j]))
  }

  function LinksOf(m: LinkMap, post: Str): seq<Link> {
    if post in m then m[post] else []
  }

  /** First writer wins, for the hash and for the position. */
  function Attached(m: LinkMap, post: Str, l: Link): LinkMap {
    if Clashes(LinksOf(m, post), l) then m
    else m[post := Insert(ByPosition, l, LinksOf(m, post))]
  }

  lemma TailClash(links: seq<Link>, l: Link)
    requires links != []
    ensures Clashes(links[1..], l) ==> Clashes(links, l)
    ensures Clash(links[0], l) ==> Clashes(links, l)
  {
    var tail := links[1..];
    if i :| 0 <= i < |tail| && Clash(tail[i], l) {
      assert Clash(links[i + 1], l);
    }
  }

  /** Appending and sorting is inserting: the slice was sorted before. */
  lemma {:induction false} AppendSorts(links: seq<Link>, l: Link)
    requires Sorted(ByPosition, links) && !Clashes(links, l)
    ensures InsertAll(ByPosition, links + [l]) == Insert(ByPosition, l, links)
  {
    if links == [] {
      assert links + [l] == [l];
      assert InsertAll(ByPosition, [l][1..]) == [];
    } else {
      var head, tail := links[0], links[1..];
      TailClash(links, l);
      AppendSorts(tail, l);
      assert (links + [l])[1..] == tail + [l];
      var r := Insert(ByPosition, l, tail);
      assert InsertAll(ByPosition, links + [l]) == Insert(ByPosition, head, r);
      if ByPosition(l, head) {
        assert tail != [] ==> tail[0] == links[1];
        assert r == [l] + tail && r[1..] == tail;
        assert Insert(ByPosition, head, tail) == [head] + tail;
        assert links == [head] + tail;
      } else {
        assert ByPosition(head, l);
        assert r[0] == l || (tail != [] && r[0] == links[1]);
      }
    }
  }

  lemma PrependLink(l: Link, rest: seq<Link>)
    requires WellLinked(rest)
    requires forall k :: 0 <= k < |rest| ==> ByPosition(l, rest[k]) && !Clash(l, rest[k])
    ensures WellLinked([l] + rest)
  {
    var r := [l] + rest;
    assert r[0] == l;
    forall i, j | 0 <= i < j < |r| ensures ByPosition(r[i], r[j]) && !Clash(r[i], r[j]) {
      assert r[j] == rest[j - 1];
      if i > 0 { assert r[i] == rest[i - 1]; }
    }
  }

  lemma {:induction false} InsertMembers(links: seq<Link>, l: Link, x: Link)
    ensures x in Insert(ByPosition, l, links) <==> x in links || x == l
  {
    InsertElems(ByPosition, l, links);
    assert x in Elems(Insert(ByPosition, l, links)) <==> x in Elems(links) || x == l;
  }

  lemma {:induction false} InsertedLink(links: seq<Link>, l: Link)
    requires WellLinked(links) && !Clashes(links, l)
    ensures WellLinked(Insert(ByPosition, l, links))
  {
    if links == [] {
      assert WellLinked([l]);
    } else {
      var head, tail := links[0], links[1..];
      assert links == [head] + tail;
      TailClash(links, l);
      if ByPosition(l, head) {
        forall k | 0 <= k < |links| ensures ByPosition(l, links[k]) && !Clash(l, links[k]) {
          assert !Clash(links[k], l);
          assert k > 0 ==> ByPosition(head, links[k]);
        }
        PrependLink(l, links);
      } else {
        InsertedLink(tail, l);
        var rest := Insert(ByPosition, l, tail);
        forall k | 0 <= k < |rest| ensures ByPosition(head, rest[k]) && !Clash(head, rest[k]) {
          InsertMembers(tail, l, rest[k]);
          if rest[k] != l {
            var j :| 0 <= j < |tail| && tail[j] == rest[k];
            assert links[j + 1] == rest[k];
          }
        }
        PrependLink(head, rest);
      }
    }
  }

  class LinkStore {
    var postOGPs: LinkMap

    ghost predicate Valid()
      reads this
    {
      forall post :: post in postOGPs ==> WellLinked(postOGPs[post])
    }

    constructor ()
      ensures Valid() && postOGPs == map[]
    {
      postOGPs := map[];
    }

    method AttachOGP(post: Str, urlHash: Str, position: nat)
      requires Valid()
      modifies this
      ensures Valid()
      ensures postOGPs == Attached(old(postOGPs), post, Link(urlHash, position))
    {
      var links := LinksOf(postOGPs, post);
      var l := Link(urlHash, position);
      var i := 0;
      while i < |links|
        invariant 0 <= i <= |links|
        invariant forall k :: 0 <= k < i ==> !Clash(links[k], l)
      {
        if Clash(links[i], l) {
          assert Clashes(links, l);
          return;
        }
        i := i + 1;
      }
      assert !Clashes(links, l);
      AppendSorts(links, l);
      InsertedLink(links, l);
      postOGPs := postOGPs[post := InsertAll(ByPosition, links + [l])];
    }
  }

  // ----- cache -----

  const MINUTE: int := 60 * 1_000_000_000
  const SUCCESS_TTL: int := 3 * 24 * 60 * MINUTE
  const ERROR_TTL: int := 30 * MINUTE

  /** A cache row. `meta` stands for the parsed page; times are nanoseconds. */
  datatype Preview = Preview(urlHash: Str, url: Str, meta: Str, ok: bool, expiresAt: int)

  type RowMap = map<Str, Preview>

  predicate IsExpired(p: Preview, now: int) {
    !(now < p.expiresAt)
  }

  function Upserted(rows: RowMap, p: Preview): RowMap {
    if p.urlHash == [] then rows else rows[p.urlHash := p]
  }

  /** The rows behind a post's links, in link order; a link without a row is skipped. */
  function ReadBack(rows: RowMap, links: seq<Link>): seq<Preview> {
    if links == [] then []
    else (if links[0].hash in rows then [rows[links[0].hash]] else []) + ReadBack(rows, links[1..])
  }

  lemma {:induction false} ReadBackIsComplete(rows: RowMap, links: seq<Link>)
    requires forall i :: 0 <= i < |links| ==> links[i].hash in rows
    ensures |ReadBack(rows, links)| == |links|
    ensures forall i :: 0 <= i < |links| ==> ReadBack(rows, links)[i] == rows[links[i].hash]
  {
    if links != [] { ReadBackIsComplete(rows, links[1..]); }
  }

  class OGPCacheRepository {
    var rows: RowMap
    const links: LinkStore

    constructor (links: LinkStore)
      ensures rows == map[] && this.links == links
    {
      this.links := links;
      rows := map[];
    }

    method Get(urlHash: Str) returns (p: Option<Preview>)
      ensures p == if urlHash in rows then Some(rows[urlHash]) else None
    {
      if urlHash !in rows {
        return None;
      }
      p := Some(rows[urlHash]);
    }

    method Upsert(p: Preview)
      modifies this
      ensures rows == Upserted(old(rows), p)
    {
      if p.urlHash == [] {
        return;
      }
      rows := rows[p.urlHash := p];
    }

    method Previews(post: Str) returns (previews: seq<Preview>)
      ensures previews == ReadBack(rows, LinksOf(links.postOGPs, post))
    {
      var attached := LinksOf(links.postOGPs, post);
      previews := [];
      var i := 0;
      while i < |attached|
        invariant 0 <= i <= |attached|
        invariant previews + ReadBack(rows, attached[i..]) == ReadBack(rows, attached)
      {
        var hash := attached[i].hash;
        assert attached[i..][1..] == attached[i + 1..];
        i := i + 1;
        if hash !in rows {
          continue;
        }
        previews := previews + [rows[hash]];
      }
    }

    method ListByPostIDs(posts: seq<Str>) returns (out: map<Str, seq<Preview>>)
      ensures forall p :: p in out <==> p in posts && ReadBack(rows, LinksOf(links.postOGPs, p)) != []
      ensures forall p :: p in out ==> out[p] == ReadBack(rows, LinksOf(links.postOGPs, p))
    {
      out := map[];
      var i := 0;
      while i < |posts|
        invariant 0 <= i <= |posts|
        invariant forall p :: p in out <==> p in posts[..i] && ReadBack(rows, LinksOf(links.postOGPs, p)) != []
        invariant forall p :: p in out ==> out[p] == ReadBack(rows, LinksOf(links.postOGPs, p))
      {
        assert posts[..i + 1] == posts[..i] + [posts[i]];
        var previews := Previews(posts[i]);
        if |previews| > 0 {
          out := out[posts[i] := previews];
        }
        i := i + 1;
      }
    }
  }

  // ----- jobs -----

  const MAX_ATTEMPTS: nat := 3

  datatype Status = Queued | Running | Done | Failed

  datatype Job = Job(id: Str, urlHash: Str, url: Str, post: Str, position: nat,
                     enqueuedAt: int, status: Status, attempts: nat)

  type JobMap = map<Str, Job>

  function Enqueued(jobs: JobMap, job: Job): JobMap {
    if job.id in jobs then jobs else jobs[job.id := job]
  }

  predicate NoEarlier(jobs: JobMap, ids: set<Str>, at: int) {
    forall id :: id in ids && id in jobs && jobs[id].status.Queued? ==> !(jobs[id].enqueuedAt < at)
  }

  /** A queued job no other queued job is older than; ties go to any of them. */
  predicate Oldest(jobs: JobMap, id: Str) {
    && id in jobs && jobs[id].status.Queued?
    && NoEarlier(jobs, jobs.Keys, jobs[id].enqueuedAt)
  }

  function Claimed(jobs: JobMap, id: Str): JobMap
    requires id in jobs
  {
    jobs[id := jobs[id].(status := Running, attempts := jobs[id].attempts + 1)]
  }

  function MarkedDone(jobs: JobMap, id: Str): JobMap {
    if id in jobs then jobs[id := jobs[id].(status := Done)] else jobs
  }

  function MarkedFailed(jobs: JobMap, id: Str, retriable: bool): JobMap {
    if id in jobs then jobs[id := jobs[id].(status := if retriable then Queued else Failed)] else jobs
  }

  class OGPJobQueue {
    var jobs: JobMap

    constructor ()
      ensures jobs == map[]
    {
      jobs := map[];
    }

    method Enqueue(id: Str, urlHash: Str, url: Str, post: Str, position: nat, now: int)
      modifies this
      ensures jobs == Enqueued(old(jobs), Job(id, urlHash, url, post, position, now, Queued, 0))
    {
      if id in jobs {
        return;
      }
      jobs := jobs[id := Job(id, urlHash, url, post, position, now, Queued, 0)];
    }

    /** Scans the map in whatever order it enumerates. */
    method Claim() returns (job: Option<Job>, id: Str)
      modifies this
      ensures job.None? ==>
        && jobs == old(jobs)
        && (forall x :: x in jobs ==> !jobs[x].status.Queued?)
      ensures job.Some? ==>
        && Oldest(old(jobs), id)
        && jobs == Claimed(old(jobs), id)
        && job == Some(jobs[id])
    {
      var todo := jobs.Keys;
      var oldest: Option<Str> := None;
      while todo != {}
        invariant todo <= jobs.Keys && jobs == old(jobs)
        invariant oldest.None? ==> forall x :: x in jobs.Keys - todo ==> !jobs[x].status.Queued?
        invariant oldest.Some? ==>
          && oldest.value in jobs && jobs[oldest.value].status.Queued?
          && NoEarlier(jobs, jobs.Keys - todo, jobs[oldest.value].enqueuedAt)
        decreases |todo|
      {
        var x :| x in todo;
        todo := todo - {x};
        if !jobs[x].status.Queued? {
          continue;
        }
        if oldest.None? || jobs[x].enqueuedAt < jobs[oldest.value].enqueuedAt {
          oldest := Some(x);
        }
      }
      assert jobs.Keys - todo == jobs.Keys;
      if oldest.None? {
        return None, [];
      }
      id := oldest.value;
      jobs := jobs[id := jobs[id].(status := Running, attempts := jobs[id].attempts + 1)];
      job := Some(jobs[id]);
    }

    method MarkDone(id: Str)
      modifies this
      ensures jobs == MarkedDone(old(jobs), id)
    {
      if id in jobs {
        jobs := jobs[id := jobs[id].(status := Done)];
      }
    }

    method MarkFailed(id: Str, retriable: bool)
      modifies this
      ensures jobs == MarkedFailed(old(jobs), id, retriable)
    {
      if id !in jobs {
        return;
      }
      if retriable {
        jobs := jobs[id := jobs[id].(status := Queued)];
        return;
      }
      jobs := jobs[id := jobs[id].(status := Failed)];
    }
  }

  // ----- fetching -----

  datatype FetchError = BadStatus(code: int) | DeadlineExceeded | BlockedAddress | BlockedScheme | NotHTML | OtherError

  predicate Retriable(e: FetchError) {
    match e
    case BadStatus(code) => code >= 500
    case DeadlineExceeded => true
    case BlockedAddress => false
    case BlockedScheme => false
    case NotHTML => false
    case OtherError => true
  }

  /** URL normalisation and the digest of a normalised URL. */
  datatype Env = Env(normalize: Str -> Option<Str>, hash: Str -> Str)

  /** What the network answered: a parsed page or an error. */
  datatype Reply = Page(meta: Str) | Refused(error: FetchError)

  datatype Fetched = Got(preview: Preview) | Broken(error: FetchError)

  /** The fetcher normalises the URL once more and hashes what it gets. */
  function Fetch(env: Env, url: Str, reply: Reply): Fetched {
    var n := env.normalize(url);
    if n.None? then Broken(OtherError)
    else
      match reply
      case Page(meta) => Got(Preview(env.hash(n.value), n.value, meta, false, 0))
      case Refused(e) => Broken(e)
  }

  // ----- worker -----

  datatype Stores = Stores(jobs: JobMap, rows: RowMap, links: LinkMap)

  function OkRow(p: Preview, now: int): Preview {
    p.(ok := true, expiresAt := now + SUCCESS_TTL)
  }

  function ErrorRow(job: Job, now: int): Preview {
    Preview(job.urlHash, job.url, [], false, now + ERROR_TTL)
  }

  predicate Retries(job: Job, e: FetchError) {
    Retriable(e) && job.attempts < MAX_ATTEMPTS
  }

  /** The stores after a worker took one claimed job from fetch to final status. */
  function Processed(st: Stores, job: Job, result: Fetched, now: int): Stores {
    match result
    case Got(p) =>
      Stores(
        MarkedDone(st.jobs, job.id),
        Upserted(st.rows, OkRow(p, now)),
        if job.post == [] then st.links else Attached(st.links, job.post, Link(p.urlHash, job.position)))
    case Broken(e) =>
      if Retries(job, e) then st.(jobs := MarkedFailed(st.jobs, job.id, true))
      else Stores(MarkedFailed(st.jobs, job.id, false), Upserted(st.rows, ErrorRow(job, now)), st.links)
  }

  class Worker {
    const queue: OGPJobQueue
    const cache: OGPCacheRepository
    const posts: LinkStore

    constructor (queue: OGPJobQueue, cache: OGPCacheRepository, posts: LinkStore)
      ensures this.queue == queue && this.cache == cache && this.posts == posts
    {
      this.queue, this.cache, this.posts := queue, cache, posts;
    }

    function All(): Stores
      reads queue, cache, posts
    {
      Stores(queue.jobs, cache.rows, posts.postOGPs)
    }

    method Process(job: Job, result: Fetched, now: int)
      requires posts.Valid()
      modifies queue, cache, posts
      ensures posts.Valid()
      ensures All() == Processed(old(All()), job, result, now)
    {
      if result.Got? {
        var preview := result.preview.(ok := true);
        preview := preview.(expiresAt := now + SUCCESS_TTL);
        cache.Upsert(preview);
        if job.post != [] {
          posts.AttachOGP(job.post, preview.urlHash, job.position);
        }
        queue.MarkDone(job.id);
        return;
      }
      if Retriable(result.error) && job.attempts < MAX_ATTEMPTS {
        queue.MarkFailed(job.id, true);
        return;
      }
      var errPreview := Preview(job.urlHash, job.url, [], false, now + ERROR_TTL);
      cache.Upsert(errPreview);
      queue.MarkFailed(job.id, false);
    }

    /** One claim and its processing; an empty queue changes nothing. */
    method RunOnce(env: Env, network: Job -> Reply, now: int) returns (claimed: Option<Job>)
      requires posts.Valid()
      modifies queue, cache, posts
      ensures posts.Valid()
      ensures claimed.None? ==>
        && All() == old(All())
        && (forall x :: x in queue.jobs ==> !queue.jobs[x].status.Queued?)
      ensures claimed.Some? ==> exists id ::
        && Oldest(old(queue.jobs), id)
        && claimed == Some(Claimed(old(queue.jobs), id)[id])
        && All() == Processed(old(All()).(jobs := Claimed(old(queue.jobs), id)), claimed.value,
                              Fetch(env, claimed.value.url, network(claimed.value)), now)
    {
      var id;
      claimed, id := queue.Claim();
      if claimed.None? {
        return;
      }
      var job := claimed.value;
      Process(job, Fetch(env, job.url, network(job)), now);
      assert Oldest(old(queue.jobs), id);
    }
  }

  // ----- enqueuer -----

  /** The fresh id and the enqueue time one URL would get. */
  datatype Ticket = Ticket(id: Str, at: int)

  predicate FreshRow(rows: RowMap, hash: Str, now: int) {
    hash in rows && !IsExpired(rows[hash], now)
  }

  /** The stores after one URL of a post: attach, skip or enqueue. */
  function Handled(env: Env, st: Stores, post: Str, raw: Str, position: nat, now: int, t: Ticket): Stores {
    var n := env.normalize(raw);
    if n.None? then st
    else
      var hash := env.hash(n.value);
      if FreshRow(st.rows, hash, now) then
        if st.rows[hash].ok then st.(links := Attached(st.links, post, Link(hash, position))) else st
      else
        st.(jobs := Enqueued(st.jobs, Job(t.id, hash, n.value, post, position, t.at, Queued, 0)))
  }

  function HandledAll(env: Env, st: Stores, post: Str, urls: seq<Str>, now: int, ts: seq<Ticket>): Stores
    requires |ts| >= |urls|
  {
    if urls == [] then st
    else
      var k := |urls| - 1;
      Handled(env, HandledAll(env, st, post, urls[..k], now, ts), post, urls[k], k, now, ts[k])
  }

  class Enqueuer {
    const queue: OGPJobQueue
    const cache: OGPCacheRepository
    const posts: LinkStore

    constructor (queue: OGPJobQueue, cache: OGPCacheRepository, posts: LinkStore)
      ensures this.queue == queue && this.cache == cache && this.posts == posts
    {
      this.queue, this.cache, this.posts := queue, cache, posts;
    }

    function All(): Stores
      reads queue, cache, posts
    {
      Stores(queue.jobs, cache.rows, posts.postOGPs)
    }

    /** One turn of the loop over a post's URLs. */
    method Handle(env: Env, post: Str, raw: Str, position: nat, now: int, t: Ticket)
      requires posts.Valid()
      modifies queue, posts
      ensures posts.Valid()
      ensures All() == Handled(env, old(All()), post, raw, position, now, t)
    {
      var normalized := env.normalize(raw);
      if normalized.None? {
        return;
      }
      var urlHash := env.hash(normalized.value);
      var cached := cache.Get(urlHash);
      if cached.Some? && !IsExpired(cached.value, now) {
        if cached.value.ok {
          posts.AttachOGP(post, urlHash, position);
        }
        return;
      }
      queue.Enqueue(t.id, urlHash, normalized.value, post, position, t.at);
    }

    /** `matches` are the URL-shaped stretches of the post's content. */
    method EnqueueForPost(env: Env, post: Str, matches: seq<Str>, now: int, ts: seq<Ticket>)
      requires posts.Valid() && |ts| >= Extractor.MAX_EXTRACTED
      modifies queue, posts
      ensures posts.Valid() && |Extractor.Extracted(matches)| <= |ts|
      ensures All() == HandledAll(env, old(All()), post, Extractor.Extracted(matches), now, ts)
    {
      var urls := Extractor.ExtractURLs(matches);
      Extractor.ExtractedAreDistinct(matches);
      if |urls| == 0 {
        return;
      }
      var position := 0;
      while position < |urls|
        invariant 0 <= position <= |urls| && posts.Valid()
        invariant All() == HandledAll(env, old(All()), post, urls[..position], now, ts)
      {
        assert urls[..position + 1][..position] == urls[..position];
        Handle(env, post, urls[position], position, now, ts[position]);
        position := position + 1;
      }
      assert urls[..position] == urls;
    }
  }
}
