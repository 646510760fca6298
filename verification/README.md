# fuju-sns backend: verified model

A Dafny model of the concurrent and stateful core of the fuju SNS backend, with proofs that
hold for every input, every run or every interleaving:

- **Introspection cache** (`IntrospectCache`, `IntrospectInterleaving`, `IntrospectReuse`): the
  token cache with single-flight upstream calls. Each clock read, critical section, upstream return
  and channel close is a step, interleaved with `Invalidate` and `SweepExpired`.
- **Link previews** (`Extractor`, `UrlPath`, `UrlQuery`, `UrlQueryForm`, `Normalizer`,
  `UrlIdentity`, `OgpStores`, `OgpOutcomes`, `OgpPipeline`, `OgpSlots`, `OgpAttachment`, `OgpWindow`,
  `OgpCalls`, `OgpRuns`): from URL-shaped text to a normalised key, a cache hit or a queued job, a
  claim, a fetch with retries, a cache row and a link. Any number of workers and enqueue calls
  interleave, one repository call at a time. The fetch result is arbitrary in every attempt.
- **Cursor pagination** (`Paging`, `Posts`, `PostPaging`, `PostListing`, `Follows`, `FollowPaging`,
  `FollowOrder`, `FollowCursor`, `CursorForm`, `Base64`, `Rfc3339`, `Calendar`): the in-memory
  listings, walked page by page while rows come and go, and the composite follow cursor with its
  base64url (section 5 of RFC 4648) and timestamp (section 5.6 of RFC 3339) text forms written out
  byte by byte.
- **Outbound dispatcher** (`Lanes`, `DispatcherLedger`, `DispatcherLoop`): bounded channels with
  the three-step drop-oldest enqueue, the batching loop, the ticker and the final drain.
- **Denormalised counters, threads and the user mirror** (`Likes`, `LikeLedger`, `LikeCalls`,
  `Users`, `Hydration`, `FollowCounters`, `FollowLedger`, `FollowCalls`, `Threads`, `ReplyLedger`,
  `PostCalls`): use cases that write rows and counters in separate steps.

`Order`, `Text`, `Wrappers` and `Sums` hold sorted sequences, Go strings, option types and sums
over maps.

Two layers describe each stateful component. A class has the source's fields and methods, and
its contracts give the whole new state as a function of the old one. A state machine uses the same
functions step by step, so that the theorems cover interleavings; lemmas such as
`OgpCalls.ProcessIsItsSteps`, `FollowCalls.UnfollowIsItsSteps` and `IntrospectReuse.CallIsItsSteps`
show that an undisturbed call is a run of the machine.

What each call does is also said from outside, without the functions that compute it:
`IntrospectReuse`, `UrlIdentity`, `UrlQueryForm`, `OgpOutcomes`, `PostListing`, `Calendar`,
`FollowOrder`, `CursorForm`, `LikeCalls`, `Hydration`, `FollowCalls` and `PostCalls` state when a call
succeeds, what it changes and what a caller then sees, with every port, duration, status and limit
written as a number.

Where the code does less than one might expect, the theorems say exactly when, and a run or an
input shows the failure:

- The URL trimmer's comment promises to keep balanced closers; the code always strips `]` and `}`
  (`Extractor.DocumentedTrimAgreement`).
- The cursor round trip holds exactly for non-empty peers (`FollowCursor.CursorRoundTrip`).
- A record normalises to itself the second time exactly when the host conversion ended with a name
  that is neither empty nor followed by a dot (`Normalizer.NormalizeAgain`); two trailing dots, a
  host ending in U+3002 and a host of ignored code points are inputs that fail. Normalising a
  stored URL gives it back, so that the fetcher recomputes the stored key, exactly when, besides,
  the URL does not end in white space (`Normalizer.FetchKeyAgrees`); for a plain host name in a text
  without a fragment that means at most one trailing dot (`Normalizer.PlainKeyAgrees`).
- A post's links are all its winning (hash, index) pairs exactly when no two winning URLs share a
  hash (`OgpAttachment.AttachmentIsExact`; `OgpRuns.BothWinOneLink` is a run where two do).
- A lookup decides to enqueue exactly when the TTL of the row stored last under its hash has run
  out (`OgpWindow.LookupFollowsLastStore`). Inside the window of an outcome that takes another
  outcome read earlier and stored later (`OgpWindow.MissWasOvertaken`), which one worker never
  produces and any two workers can (`OgpRuns.WorkersShortenTheWindow`).
- An enqueue's own item is turned away only when another producer's item was accepted between its
  drop and its retry (`DispatcherLedger.TurnedAwayWasOvertaken`), and two producers can do that at
  every batch size and capacity (`DispatcherLedger.TwoProducersCanLoseAnItem`).
- At rest a like counter equals its rows exactly when no decrement was floored
  (`LikeLedger.AtRestNeverBelow`), a reply counter its live replies exactly when as many decrements
  were floored as deletes were repeated (`ReplyLedger.AtRestExact`), and a follow counter its edges
  exactly when as many increments missed a row as decrements were floored
  (`FollowLedger.AtRestExact`). `LikeLedger.FloorCausesDrift`, `ReplyLedger.RepeatedDeleteDrifts`
  and `FollowLedger.OvertakingUnfollowDrifts` are runs that drift.
- A bio stays as it was set exactly when no refresh writes back a copy with another non-empty bio
  (`FollowCounters.EditedBioSurvives`; `FollowCounters.StaleRefreshLosesBio` is a run that loses it).

Assumptions, stated as parameters or hypotheses: clocks do not run backwards; post and job ids are
fresh and non-empty; the in-memory repositories return no errors; an upstream introspection returns
either a session or an error; a digest is not the empty string; the host conversion gives lower-case
names that convert to themselves (`HostLaws`) and leaves plain names alone (`PlainLaw`); the text
of a normalised parsed record reads back as that record (`CodecLaws`).
`Normalizer.PlainHostsObeyLaws` and `Normalizer.BareCodecObeysLaws` show that these laws can be
met. Strings are finite byte sequences, times are nanoseconds, integers are unbounded.

## Model

| member | source | states |
|---|---|---|
| IntrospectCache.Cache.Introspect | pkg/authcore/cache.go:53-99 | with no other goroutine: a fresh entry is returned without an upstream call, otherwise the upstream answer is returned and only a success is cached under the clock reading taken before the lock |
| IntrospectCache.Cache.Enter | pkg/authcore/cache.go:54-77 | the first critical section: hit, join the call in flight, or register a new call |
| IntrospectCache.Cache.Leave | pkg/authcore/cache.go:81-92 | the second critical section: drop the in-flight entry, cache a success with the early clock reading |
| IntrospectCache.Cache.Invalidate | pkg/authcore/cache.go:108-112 | exactly the token's cached entry goes; calls in flight are untouched |
| IntrospectCache.Cache.SweepExpired | pkg/authcore/cache.go:116-126 | exactly the entries that are no longer fresh go |
| IntrospectInterleaving.BoundedStaleness | pkg/authcore/cache.go:53-99 | in every interleaving a returned session is the answer of an upstream call for that same token, and that call was the caller's own, or published after the caller's lookup, or read the clock less than the TTL before the caller did with any session expiry strictly later |
| IntrospectInterleaving.SingleUpstreamCall | pkg/authcore/cache.go:66-82 | two callers with an unpublished upstream call for one token are the same caller |
| IntrospectInterleaving.LeaderRemovesOwnEntry | pkg/authcore/cache.go:84-92 | a leader about to publish finds its own call in flight, so the entry it deletes is its own |
| IntrospectInterleaving.NoStrandedWaiter | pkg/authcore/cache.go:66-75 | a blocked waiter can wake now, or its call has one leader whose remaining steps are all enabled and wake it |
| IntrospectInterleaving.InvalidateForgets | pkg/authcore/cache.go:108-112 | an entry found after `Invalidate` was published after it |
| IntrospectReuse.PublishedIsServed | pkg/authcore/cache.go:54-62 | in every run: once a session was published on a clock reading, and until it is published over, invalidated, swept when over or found over, every caller that takes the lock less than the TTL after that reading, and before the session expires, gets it at once without an upstream call |
| IntrospectReuse.SecondCallIsServed | pkg/authcore/cache.go:53-99 | two calls in a row: the second returns the first one's session without an upstream call inside the window, and goes upstream outside it |
| IntrospectReuse.FailedCallIsRepeated | pkg/authcore/cache.go:86-97 | a failed call is returned and not cached: the next call goes upstream |
| IntrospectReuse.WaiterGetsLeadersAnswer | pkg/authcore/cache.go:66-75 | in every run: a waiter that wakes gets exactly what its call's leader got, session or error |
| IntrospectReuse.CallIsItsSteps | pkg/authcore/cache.go:53-99 | an undisturbed call's steps leave the memory and give the reply of the whole call |
| Extractor.TrimTrailing | pkg/ogp/extractor.go:59-81 | the loop returns the trimmed text |
| Extractor.TrimmedIsLongestCleanPrefix | pkg/ogp/extractor.go:59-81 | the result is the longest prefix that ends in no trim byte and in no unbalanced closing parenthesis |
| Extractor.CandidatesAreTrimmed | pkg/ogp/extractor.go:38-42 | each match gives its trimmed text in its place, or nothing when nothing is left of it |
| Extractor.DocumentedTrimAgreement | pkg/ogp/extractor.go:20-26 | code and comment agree exactly when the documented result does not end in `]` or `}` |
| Extractor.BalancedBracketIsStripped | pkg/ogp/extractor.go:26 | a concrete text on which they differ |
| Extractor.ExtractURLs | pkg/ogp/extractor.go:31-53 | the loop with its seen set and early stop gives the first five distinct trimmed matches |
| Extractor.ExtractedAreDistinct | pkg/ogp/extractor.go:31-53 | at most five, pairwise distinct, each a trimmed match, and all of them when there are fewer than five |
| Extractor.ExtractedInOrder | pkg/ogp/extractor.go:31-53 | the result is ordered by where each URL appears first among the trimmed matches, and every other one appears later |
| UrlPath.NormalizedIsJoined | pkg/ogp/normalizer.go:111-121 | a normalised absolute path is its non-empty segments joined by single slashes |
| UrlPath.PathKeyAgreement | pkg/ogp/normalizer.go:111-121 | two absolute or empty paths normalise alike exactly when their non-empty segments are the same |
| UrlPath.PathIdempotent | pkg/ogp/normalizer.go:111-121 | normalising twice is normalising once |
| UrlQuery.EscapeRoundTrip | pkg/ogp/normalizer.go:150-158 | percent-encoding (section 2.1 of RFC 3986) is undone by decoding, for every byte string |
| UrlQuery.RenderParses | pkg/ogp/normalizer.go:146-161 | parsing a rendered list of pairs gives the list back in order |
| UrlQuery.NormalizeQuery | pkg/ogp/normalizer.go:125-164 | the loops over tracking keys, sorted keys and values produce the canonical query |
| UrlQuery.QueryRoundTrip | pkg/ogp/normalizer.go:125-164 | parsing the canonical query gives the original key-to-values map without tracking keys, each key's value order kept |
| UrlQuery.QueryKeyAgreement | pkg/ogp/normalizer.go:125-164 | two parseable queries get the same string exactly when their filtered maps are equal |
| UrlQuery.QueryIdempotent | pkg/ogp/normalizer.go:125-164 | normalising twice is normalising once, unparseable queries included |
| UrlQueryForm.TrackingKeysGo | pkg/ogp/normalizer.go:22-33 | exactly the ten listed tracking keys are dropped, each other key keeps its values |
| UrlQueryForm.KeysAreSorted | pkg/ogp/normalizer.go:143-161 | the keys of a normalised query ascend byte by byte |
| UrlQueryForm.ReadByPieces | pkg/ogp/normalizer.go:129 | a query is read piece by piece between ampersands, empty pieces are skipped and one error fails it |
| UrlQueryForm.ReadPiece | pkg/ogp/normalizer.go:129 | the first `=` ends the key, a piece without one has an empty value, a semicolon or a malformed escape is an error |
| Text.LessIsLexicographic | pkg/ogp/normalizer.go:147 | string order: a proper prefix first, otherwise the first different byte decides |
| Normalizer.Parsed.NormalizeInPlace | pkg/ogp/normalizer.go:61-107 | the field-by-field update computes the normalised record, or fails on a scheme or host it refuses |
| Normalizer.SplitJoin | pkg/ogp/normalizer.go:177-185 | splitting a joined host and port gives both back, IPv6 literals included |
| UrlIdentity.PortDropped | pkg/ogp/normalizer.go:43-46 | the normal form has no port exactly when none was given, or 80 under http, or 443 under https; otherwise it has the given port |
| UrlIdentity.NameSpelling | pkg/ogp/normalizer.go:76-89 | every letter case of a name, with or without one trailing dot, ends up as the same host |
| UrlIdentity.SameHostSameEndpoint | pkg/ogp/normalizer.go:91-98 | two accepted URLs of one scheme get the same host field exactly when their converted names and the ports a client would connect to are equal |
| UrlIdentity.SameFormSameResource | pkg/ogp/normalizer.go:53-107 | two accepted URLs have one normal form exactly when scheme, converted name, effective port, user, path segments and remaining query are the same, the encoding hint included; fragments never matter |
| UrlIdentity.SameKeySameResource | pkg/ogp/normalizer.go:61-107 | texts with the same stored key name the same endpoint and the same target there |
| Normalizer.NormalizeAgain | pkg/ogp/normalizer.go:61-107 | a second normalisation changes nothing exactly when the host conversion, after one trailing dot was removed, ended with a name that is neither empty nor followed by a dot |
| Normalizer.TwoDotsAreNotStable | pkg/ogp/normalizer.go:77 | a host with two trailing dots normalises differently the second time |
| Normalizer.EmptiedHostFails | pkg/ogp/normalizer.go:76-90 | a host that converts to the empty name normalises once and fails the second time |
| Normalizer.MappedDotIsNotStable | pkg/ogp/normalizer.go:76-90 | a host ending in U+3002, which converts to a trailing dot, normalises differently the second time |
| Normalizer.PlainHostStays | pkg/ogp/normalizer.go:76-90 | for a plain host name the condition is that it has at most one trailing dot |
| Normalizer.FetchKeyAgrees | pkg/ogp/fetcher.go:104-147 | normalising a stored URL gives it back exactly when the host conversion of the original ended well and the URL does not end in white space; then the fetcher computes the stored hash |
| Normalizer.PlainKeyAgrees | pkg/ogp/fetcher.go:104-147 | for a plain host name in a text without a fragment the stored URL normalises to itself exactly when the name has at most one trailing dot |
| OgpStores.LinkStore.AttachOGP | internal/repository/inmemory/inmemory.go:232-244 | first writer wins per hash and per position; a new link is added and the list stays sorted with no two links sharing either |
| OgpStores.OGPCacheRepository.Upsert | internal/repository/inmemory/inmemory.go:1214-1223 | the row replaces any under its hash; an empty hash is ignored |
| OgpStores.OGPCacheRepository.ListByPostIDs | internal/repository/inmemory/inmemory.go:1227-1250 | per post, the rows of its links in link order; links without a row and posts without rows are absent |
| OgpStores.OGPJobQueue.Enqueue | internal/repository/inmemory/inmemory.go:1268-1284 | a new queued job; an id already present changes nothing |
| OgpStores.OGPJobQueue.Claim | internal/repository/inmemory/inmemory.go:1288-1309 | takes a queued job no other queued job is older than, runs it and counts the attempt; nothing exactly when none is queued |
| OgpStores.OGPJobQueue.MarkDone | internal/repository/inmemory/inmemory.go:1312-1321 | only the named job becomes done |
| OgpStores.OGPJobQueue.MarkFailed | internal/repository/inmemory/inmemory.go:1325-1342 | only the named job is queued again or failed |
| OgpStores.Worker.Process | internal/usecase/ogp/worker.go:94-139 | success: ok row for three days, link, done; retriable with budget left: queued again and nothing else; otherwise error row for thirty minutes and failed |
| OgpStores.Worker.RunOnce | internal/usecase/ogp/worker.go:78-90 | claims the oldest job and processes it, or leaves every store alone |
| OgpStores.Enqueuer.EnqueueForPost | internal/usecase/ogp/enqueue.go:45-88 | per extracted URL: unparseable skipped, fresh ok row attached at its index, fresh error row skipped, anything else enqueued |
| OgpStores.ReadBackIsComplete | internal/repository/inmemory/inmemory.go:1227-1250 | when every link has its row, reading back gives one preview per link in link order |
| OgpOutcomes.PageSeen | internal/usecase/ogp/worker.go:96-111 | a fetched page is cached for three days under its own key with its own content, its link is set and its job done |
| OgpOutcomes.FailureSeen | internal/usecase/ogp/worker.go:116-137 | a failed fetch is queued again exactly for a status of 500 or more, a time-out or an unlisted error with fewer than three claims; otherwise the job fails and an error row stands for thirty minutes |
| OgpOutcomes.AttachedSeen | internal/repository/inmemory/inmemory.go:232-244 | a link is added exactly when its hash and its position are both free, and positions keep ascending |
| OgpOutcomes.FetchedOnceLinkedLater | internal/usecase/ogp/enqueue.go:66-85 | a URL whose page was fetched is linked without a new job whenever it is posted in the next three days |
| OgpPipeline.StepKeepsOwning | internal/usecase/ogp/worker.go:94-139 | every step of any worker or enqueuer keeps: a busy worker's copy is the stored running row, every running row has its worker, attempts and fetches agree |
| OgpPipeline.JobLifecycle | internal/usecase/ogp/worker.go:94-139 | any number of workers: a running job is held by exactly one, a queued job has fewer than three attempts, no job is fetched more than three times |
| OgpPipeline.TerminalIsFinal | internal/repository/inmemory/inmemory.go:1288-1342 | a done or failed job stays as it is whatever runs afterwards |
| OgpPipeline.QueueDrains | internal/usecase/ogp/worker.go:63-139 | with no new jobs workers fetch at most as often as attempts are left, take at most five steps per attempt left plus what busy workers owe, and always have an enabled step while any job is not terminal |
| OgpPipeline.EnqueueOrderCompletion | internal/repository/inmemory/inmemory.go:1288-1342 | one worker: when a job is claimed, and ever after, every job with an earlier enqueue time is done or failed |
| OgpSlots.StepKeepsSlotted | internal/usecase/ogp/enqueue.go:55-87 | every job stands for one URL index of one post, with that URL's normal form and hash, and no two jobs share an index |
| OgpAttachment.StepKeepsExact | internal/usecase/ogp/worker.go:95-113 | after every step each link of a post with stable URLs is a cache hit or a succeeded job, and every hash of those has a link |
| OgpAttachment.AttachmentIsExact | internal/usecase/ogp/enqueue.go:55-87 | once a post's jobs are terminal its links are winning (hash, index) pairs by index, one per winning hash, each with a row when read back; they are all the winning pairs exactly when no two winning URLs share a hash |
| OgpAttachment.SeparateUrlsAttach | internal/usecase/ogp/enqueue.go:55-87 | URLs with pairwise distinct hashes, checkable beforehand, give exactly the winning pairs |
| OgpAttachment.OrderDoesNotMatter | internal/usecase/ogp/worker.go:95-113 | two runs of any shape in which the same URLs of a post won link the same hashes, and leave the same links when no two of them share a hash |
| OgpAttachment.SharedHashLosesLink | internal/repository/inmemory/inmemory.go:235-239 | when two winning URLs of a post share a hash one of their links is missing, stable URLs or not |
| OgpRuns.BothWinOneLink | internal/repository/inmemory/inmemory.go:235-239 | a run in which both jobs of two URLs with one hash are done and the post has one link |
| OgpWindow.LookupFollowsLastStore | internal/usecase/ogp/enqueue.go:63-81 | any number of workers: a lookup decides to enqueue exactly when nothing was stored under its hash or the TTL of the row stored last has run out when the call began |
| OgpWindow.TerminalWasStored | internal/usecase/ogp/worker.go:95-138 | any number of workers: a done or failed job with a stable URL was stored exactly once, under its own hash |
| OgpWindow.MissWasOvertaken | internal/usecase/ogp/worker.go:97-138 | any number of workers: a decision to enqueue inside the window of an outcome means another outcome for the hash was read earlier and stored later |
| OgpWindow.RefetchSuppressed | internal/usecase/ogp/enqueue.go:63-81 | one worker, every interleaving: after a job is done or failed, a lookup for its hash by a call begun less than thirty minutes after the outcome's clock reading never decides to enqueue |
| OgpWindow.WholeCallSuppressed | internal/usecase/ogp/enqueue.go:45-88 | the same for a whole call: it creates no job with that hash |
| OgpRuns.WorkersShortenTheWindow | internal/usecase/ogp/worker.go:121-138 | for any two workers or more a run in which a later outcome's window is cut short by an earlier clock reading stored last |
| OgpCalls.ProcessIsItsSteps | internal/usecase/ogp/worker.go:94-139 | an undisturbed worker's steps leave the stores as the whole call does |
| OgpCalls.EnqueueIsItsSteps | internal/usecase/ogp/enqueue.go:45-88 | an undisturbed enqueue call is a run of the machine with the same stores at its end |
| OgpCalls.StableExactly | pkg/ogp/fetcher.go:104-147 | a URL's normal form is its own normal form exactly when its host conversion ended well and the normal form does not end in white space |
| OgpCalls.PlainIsStable | pkg/ogp/fetcher.go:104-147 | for a plain host name in a text without a fragment that is at most one trailing dot |
| Posts.PostRepository.GetByID | internal/repository/inmemory/inmemory.go:323-335 | the row, unless absent or soft-deleted |
| Posts.PostRepository.Create | internal/repository/inmemory/inmemory.go:339-357 | stores the row under its id |
| Posts.PostRepository.Delete | internal/repository/inmemory/inmemory.go:361-371 | marks exactly that row deleted |
| Posts.PostRepository.CollectDescending | internal/repository/inmemory/inmemory.go:422-439 | the live matching ids below the cursor, sorted downwards, whatever order the map is scanned in |
| Posts.PostRepository.ListBy | internal/repository/inmemory/inmemory.go:374-452 | one page and its cursor, non-positive limits included |
| Paging.WalkIsSound | internal/repository/inmemory/inmemory.go:443-452 | over any strict total order and any sequence of snapshots, a walk is strictly ordered and shows every key present throughout |
| Paging.CallsForIsCeil | internal/repository/inmemory/inmemory.go:443-452 | the page count is max(1, ceil(n / limit)) |
| PostPaging.PagingUnderMutation | internal/repository/inmemory/inmemory.go:374-452 | whatever is created or soft-deleted between calls: ids strictly descend, each row was live and matching when read, a complete walk has every post live and matching throughout |
| PostPaging.PagingQuiet | internal/repository/inmemory/inmemory.go:374-452 | with no mutation the walk is the full filtered listing in max(1, ceil(n / limit)) calls |
| PostListing.PageSeen | internal/repository/inmemory/inmemory.go:374-452 | a page holds at most the limit of stored posts of that listing (live top-level posts of all, one or some authors, or direct replies) below the cursor, greatest ids first |
| PostListing.PostIsShownOrWaits | internal/repository/inmemory/inmemory.go:443-452 | a post of the listing below the cursor is on the page, or the page is full and the next cursor is greater |
| Base64.RoundTrip | internal/repository/sharedcursor/follow.go:21-47 | decoding undoes unpadded base64url encoding for every byte string |
| Rfc3339.RoundTrip | internal/repository/sharedcursor/follow.go:21-47 | parsing undoes formatting to the nanosecond for every UTC instant of years 0 to 9999 |
| Rfc3339.FormatHasNoBar | internal/repository/sharedcursor/follow.go:37-46 | a formatted instant never contains the separator |
| Rfc3339.BeforeIsStrictTotal | internal/repository/inmemory/inmemory.go:1168-1174 | instants are strictly and totally ordered |
| Calendar.DaysBeforeYear | internal/repository/inmemory/inmemory.go:1168-1174 | the days before a year by month lengths are 365 each, one more for every fourth year, not every hundredth, but every 400th |
| Calendar.BeforeIsEarlierInstant | internal/repository/inmemory/inmemory.go:1168-1174 | one timestamp is before another exactly when it is the earlier instant, counted in nanoseconds since year 0 |
| CursorForm.ReadTimestamp | internal/repository/sharedcursor/follow.go:42-45 | an accepted timestamp is a valid date and time written as formatting writes it, with at most a fraction before its final Z |
| CursorForm.DecodesExactly | internal/repository/sharedcursor/follow.go:34-37 | a text decodes exactly when all characters but line breaks are of the URL-safe alphabet and groups of four leave no lone one over |
| FollowCursor.CursorRoundTrip | internal/repository/sharedcursor/follow.go:21-47 | a cursor decodes to its instant and peer, even a peer containing the separator, exactly when the peer is not empty |
| FollowCursor.CursorInjective | internal/repository/sharedcursor/follow.go:21-25 | distinct positions get distinct cursors |
| FollowCursor.DecodeFollow | internal/repository/sharedcursor/follow.go:30-47 | whatever a client sends, an accepted cursor holds a valid instant and a non-empty peer |
| Follows.FollowRepository.Create | internal/repository/inmemory/inmemory.go:1020-1033 | adds the edge unless present and says which |
| Follows.FollowRepository.Delete | internal/repository/inmemory/inmemory.go:1037-1046 | removes the edge and says whether there was one |
| Follows.FollowRepository.List | internal/repository/inmemory/inmemory.go:1086-1139 | one page of a side after the decoded cursor, with the next cursor |
| Follows.EarlierIsStrictTotal | internal/repository/inmemory/inmemory.go:1168-1174 | (created_at DESC, peer DESC) is a strict total order |
| FollowPaging.NextDecodes | internal/repository/inmemory/inmemory.go:1132-1138 | the cursor given out decodes to the last row shown, and is empty exactly on the last page |
| FollowPaging.EncodedWalk | internal/repository/inmemory/inmemory.go:1086-1139 | walking with encoded cursors is walking with the positions themselves |
| FollowPaging.FollowWalkUnderMutation | internal/repository/inmemory/inmemory.go:1086-1139 | with follows and unfollows between calls: listing order is strict, every row was an edge when read, a complete walk shows every edge present throughout |
| FollowPaging.FollowWalkQuiet | internal/repository/inmemory/inmemory.go:1086-1139 | with no mutation every edge appears exactly once, in order, however many share a created_at |
| FollowOrder.WalkIsNewestFirst | internal/repository/inmemory/inmemory.go:1123-1130 | with follows and unfollows between calls a walk goes from later to earlier instants, and from greater to smaller peers at the same instant |
| FollowOrder.ListIsNewestFirst | internal/repository/inmemory/inmemory.go:1086-1139 | one page has at most the limit of edges of that side, newest first and all past the cursor |
| FollowOrder.EdgeIsShownOrWaits | internal/repository/inmemory/inmemory.go:1132-1138 | an edge past the cursor is on the page, or the page is full and ends with a newer one |
| Lanes.Dispatcher.constructor | internal/usecase/fuju/dispatcher.go:71-100 | defaults: batches of 50, capacity eight batches |
| Lanes.Dispatcher.EnqueueContent | internal/usecase/fuju/dispatcher.go:104-123 | alone: appended, after dropping the oldest when full |
| Lanes.Dispatcher.EnqueueEvent | internal/usecase/fuju/dispatcher.go:126-143 | the same for events |
| Lanes.Dispatcher.OnContent | internal/usecase/fuju/dispatcher.go:167-172 | moves one item to the buffer and hands over a full batch; events are untouched |
| Lanes.Dispatcher.OnEvent | internal/usecase/fuju/dispatcher.go:173-178 | the same for events |
| Lanes.Dispatcher.OnTimer | internal/usecase/fuju/dispatcher.go:179-187 | hands over both non-empty buffers |
| Lanes.Dispatcher.FlushFinal | internal/usecase/fuju/dispatcher.go:219-249 | empties both channels into the buffers in order and hands them over |
| DispatcherLedger.StreamLedger | internal/usecase/fuju/dispatcher.go:104-249 | every interleaving: batches, buffer and channel hold the accepted items in order with exactly the dropped-oldest ones missing; every non-final batch has 1 to batchSize items |
| DispatcherLedger.LoneProducerNeverRejected | internal/usecase/fuju/dispatcher.go:110-122 | while one producer is active its current item is never turned away |
| DispatcherLedger.OnlyTicksSendPartBatches | internal/usecase/fuju/dispatcher.go:167-178 | every interleaving without ticks or cancellation: every batch handed over has exactly the batch size and fewer items wait |
| DispatcherLedger.TurnedAwayWasOvertaken | internal/usecase/fuju/dispatcher.go:110-122 | any producers, batch and capacity: a turned-away item had another producer's item accepted between its drop and its retry |
| DispatcherLedger.TwoProducersCanLoseAnItem | internal/usecase/fuju/dispatcher.go:110-122 | for every batch size and capacity a two-producer run that turns the current item away |
| DispatcherLedger.EveryItemIsAccounted | internal/usecase/fuju/dispatcher.go:104-143 | every interleaving, item by item: started enqueues are accepted, turned away or still running, each exactly once |
| DispatcherLedger.EnqueueIsItsSteps | internal/usecase/fuju/dispatcher.go:104-123 | an undisturbed enqueue's steps give the channel the enqueue method gives |
| DispatcherLedger.FinalIsItsSteps | internal/usecase/fuju/dispatcher.go:219-249 | draining one item at a time and flushing gives what the final drain method gives |
| DispatcherLoop.RunProjects | internal/usecase/fuju/dispatcher.go:153-190 | every run of the whole loop is a run of each of its two streams |
| DispatcherLoop.TimerSendsBoth | internal/usecase/fuju/dispatcher.go:179-187 | one tick hands over both buffers, each as one batch unless it was empty |
| DispatcherLoop.DispatcherKeepsBothLedgers | internal/usecase/fuju/dispatcher.go:153-249 | both streams keep their ledger in every run |
| DispatcherLoop.ShutdownHandsOverEverything | internal/usecase/fuju/dispatcher.go:164-166 | after cancellation with producers stopped both buffers and channels end empty and the batches hold everything accepted and not dropped |
| DispatcherLoop.CancelledLoopExits | internal/usecase/fuju/dispatcher.go:219-249 | in every run after cancellation the loop has an enabled step until it exits, and each of its steps brings the exit closer |
| Likes.LikeRepository.Create | internal/repository/inmemory/inmemory.go:632-647 | adds the row and says whether it was new |
| Likes.LikeRepository.Delete | internal/repository/inmemory/inmemory.go:650-663 | removes the row and says whether there was one |
| Likes.LikePost | internal/usecase/post/usecase.go:299-323 | error cases change nothing; a new row raises the counter by one |
| Likes.UnlikePost | internal/usecase/post/usecase.go:340-357 | a removed row lowers the counter by one, not below zero |
| LikeLedger.LedgerBalances | internal/usecase/post/usecase.go:299-357 | every live post, every interleaving: count + pending increments = rows + pending decrements + decrements that hit the floor |
| LikeLedger.AtRestNeverBelow | internal/repository/inmemory/inmemory.go:488-495 | at rest the count is at least the rows, and equal exactly when no decrement hit the floor |
| LikeLedger.FloorCausesDrift | internal/repository/inmemory/inmemory.go:488-495 | a run that ends with count one and no rows |
| LikeLedger.CallSequenceStaysExact | internal/usecase/post/usecase.go:299-357 | calls run one at a time keep the count equal to the rows |
| LikeCalls.LikeSeen | internal/usecase/post/usecase.go:299-323 | a like succeeds exactly for a user and a live post; then the user likes it, nothing else changed and the count is the number of its likes |
| LikeCalls.UnlikeSeen | internal/usecase/post/usecase.go:340-357 | after an unlike the user does not like the post, no other like changed and a live post's count is the number of its likes |
| LikeCalls.LastCallDecides | internal/usecase/post/usecase.go:299-357 | after any whole calls a user likes a live post exactly when the last call of theirs about it was a like, or there was none and they did before |
| LikeCalls.LikeIsItsSteps | internal/usecase/post/usecase.go:299-323 | an undisturbed like is a run of the ledger with the same result |
| LikeCalls.UnlikeIsItsSteps | internal/usecase/post/usecase.go:340-357 | an undisturbed unlike is a run of the ledger with the same result |
| Users.UserRepository.Upsert | internal/repository/inmemory/inmemory.go:47-79 | writes the row but keeps the stored counters, IsAdmin, CreatedAt, DeletedAt and any profile text the copy lacks |
| Users.Follow | internal/usecase/follow/usecase.go:54-89 | error cases change nothing; a new edge raises both counters and the shown count includes it |
| Users.Unfollow | internal/usecase/follow/usecase.go:105-134 | a removed edge lowers both counters |
| Users.Hydrate | internal/usecase/user/usecase.go:86-159 | creates, reuses or refreshes the mirror row per TTL and profile answer |
| Hydration.FirstVisit | internal/usecase/user/usecase.go:112-134 | an unknown user gets a row with no followers and no rights, filled from the profile if there is one, and none when the profile is gone |
| Hydration.LaterVisit | internal/usecase/user/usecase.go:86-159 | a row refreshed less than the TTL ago comes back unchanged; an older one takes the profile fields, keeps a display name it had and all other fields |
| Hydration.RefreshLasts | internal/usecase/user/usecase.go:103-107 | after a refresh every visit within the TTL returns the same row and changes nothing |
| Hydration.HydrationIsItsSteps | internal/usecase/user/usecase.go:86-159 | an undisturbed hydration is one read and one write-back |
| FollowCounters.CountersSurviveStaleRefreshes | internal/usecase/user/usecase.go:112-159 | whole follow and unfollow calls interleaved with split read-then-write refreshes keep both counters of every user equal to its edges and both totals equal to the number of edges |
| FollowCalls.FollowSeen | internal/usecase/follow/usecase.go:54-89 | every run of whole calls: a follow succeeds exactly for two different users with a live target; then it holds, no other edge changed and the count returned is the target's number of followers |
| FollowCalls.UnfollowSeen | internal/usecase/follow/usecase.go:105-134 | every run of whole calls: after an unfollow that edge is gone and no other, and the count returned is the target's number of followers |
| FollowCalls.UnfollowUndoesFollow | internal/usecase/follow/usecase.go:54-134 | unfollowing right after a new follow restores edges and both counters |
| FollowCalls.FollowIsItsSteps | internal/usecase/follow/usecase.go:54-89 | a follow refuses exactly when its first step cannot start, and undisturbed is a run of the ledger with the same table and edges |
| FollowCalls.UnfollowIsItsSteps | internal/usecase/follow/usecase.go:105-134 | the same for an unfollow |
| FollowCounters.ServerFieldsSurvive | internal/repository/inmemory/inmemory.go:47-79 | no later step changes IsAdmin, CreatedAt or DeletedAt of an existing row |
| FollowCounters.FollowNeedsHydratedFollower | internal/usecase/follow/usecase.go:54-89 | after a follow the counters stay right once the follower's row exists exactly when it existed before |
| FollowCounters.EditedBioSurvives | internal/usecase/user/usecase.go:137-159 | every run: a bio set by a profile update stays, until it is updated again, exactly when no refresh writes back a copy with another non-empty bio |
| FollowCounters.StaleRefreshLosesBio | internal/usecase/user/usecase.go:137-159 | a refresh that read the row before the update brings the old bio back |
| FollowLedger.LedgerBalances | internal/usecase/follow/usecase.go:54-134 | both counters of every user, every interleaving of separate follow, unfollow and refresh steps: count + pending increments + increments of a missing row = edges + pending decrements + floored decrements; followers counts miss none |
| FollowLedger.AtRestExact | internal/usecase/follow/usecase.go:54-134 | at rest a counter equals its edges exactly when it missed as many increments as it floored decrements, and one that missed none is not below them |
| FollowLedger.OvertakingUnfollowDrifts | internal/usecase/follow/usecase.go:117-124 | an unfollow between a follow's edge and its increments leaves both counters at one with no edge |
| Threads.CreatePost | internal/usecase/post/usecase.go:60-137 | error cases, images and tags included, change nothing; a reply inherits its parent's root, or the parent itself, and raises the parent's counter |
| Threads.DeletePost | internal/usecase/post/usecase.go:193-216 | only the author deletes; a reply's parent counter goes down |
| Threads.ThreadRoots | internal/usecase/post/usecase.go:71-137 | every interleaving: each reply's parent chain is finite and ends at its root, which has neither parent nor root |
| Threads.ReplyCounts | internal/usecase/post/usecase.go:197-214 | after whole calls a live post's counter is its number of live direct replies |
| PostCalls.CreateSeen | internal/usecase/post/usecase.go:60-137 | a create succeeds exactly when all its conditions hold, each image being the user's own; then the post with its root is seen, its parent counts one more and nothing else changed |
| PostCalls.FirstBadImage | internal/usecase/post/usecase.go:90-101 | the first image that is missing or someone else's decides the error |
| PostCalls.DeleteSeen | internal/usecase/post/usecase.go:193-216 | a delete succeeds exactly when the post is live and the user is its non-empty author; then nobody sees it and every other post is seen as before |
| PostCalls.OnlyItsAuthorDeletes | internal/usecase/post/usecase.go:193-216 | every run of whole calls: a live post ends up deleted exactly when its non-empty author deletes it in that run |
| PostCalls.DeletedByItsAuthor | internal/usecase/post/usecase.go:197-208 | every interleaving: a deleted post was let through for deletion by a request of its author |
| PostCalls.RootsAfterCalls | internal/usecase/post/usecase.go:60-216 | after any whole calls each reply's parent chain ends at its root, a top-level post |
| PostCalls.CreateIsItsSteps | internal/usecase/post/usecase.go:60-137 | an undisturbed create is a run of the ledger with the same rows |
| PostCalls.DeleteIsItsSteps | internal/usecase/post/usecase.go:193-216 | a delete refuses exactly when its first step cannot start, and undisturbed is a run of the ledger with the same rows |
| ReplyLedger.LedgerBalances | internal/usecase/post/usecase.go:71-214 | every live post, every interleaving of creates and deletes: count + pending increments + repeated deletes = live replies + pending decrements + floored decrements |
| ReplyLedger.AtRestExact | internal/usecase/post/usecase.go:193-214 | at rest the count is right exactly when as many decrements were floored as deletes were repeated |
| ReplyLedger.RepeatedDeleteDrifts | internal/usecase/post/usecase.go:197-212 | two overlapping deletes of one reply leave the count below the live replies |

## Left out

- OgpWindow.RefetchSuppressed: covers lookups made after the outcome; a call that looked up the hash before the outcome may still enqueue afterwards, because lookup and enqueue are separate steps in the source.
- Rfc3339.RoundTrip: instants are validated UTC fields; numeric zone offsets and the lenient forms Go also parses are not modelled.
- Normalizer.FetchKeyAgrees: white-space trimming, URL parsing and rendering, internationalised host names and the digest are functions with the stated laws, not code.
- Extractor.ExtractURLs: takes the regular expression's matches as input; the matching itself is not modelled.
- OgpStores.Worker.Process: the cache write never fails, as in memory; the path that requeues after a failed write without checking the attempt budget is not modelled, nor are start, finish and error texts of a job.
- OgpAttachment.AttachmentIsExact: an ok row may later be replaced by an error row for the same hash; the theorem says the link has a row, not that it is still ok.
- Session values are immutable; sharing of slices and references between the cache and its callers is not modelled.
- Images, tags, badges, the tag extractor and the hydrator: pointwise lookups that would only add easy members.
- HTTP handlers, middleware, configuration and logging: plumbing.
- PostgreSQL repositories and migrations: the in-memory repositories give the semantics.
- Network clients, the address filter of outgoing requests and HTML parsing: taken as arbitrary answers.
- The service-token source: decided by one branch.
- 64-bit widths of counters and times: integers are unbounded.
