# Verified model of the OSINT platform's engines

The platform collects public Telegram data into a relationship graph. Around that graph sit
small engines whose correctness is not visible from any single function: a bounded graph
search, a job protocol over a queue and several workers, the merging of two entities, a
sliding-window rate limiter, rotating refresh tokens, timelines, watch polling, ingestion,
indicator extraction, target parsing and access tokens. This project models them and proves
what holds over every input and every run.

`dafny verify dfyconfig.toml` checks all of it.

Tables are maps from keys to rows, and every `session_scope` block is one atomic step. Code
that updates objects in place is a class whose methods are proved against functions on the
old and the new state; the lemmas are about those functions, over whole runs. Times, random
ids, collector answers, pattern hits and the results of foreign calls are parameters.

| file | what it is about |
|---|---|
| `Graph.dfy` | the depth-bounded, node-capped search over listed edges |
| `JobQueue.dfy`, `Jobs.dfy`, `JobProtocol.dfy` | the in-memory queue, the job table and its transactions, and every interleaving of submitters, cancellers and workers |
| `Relationships.dfy`, `Merge.dfy` | observed edges, and merging two entities as a graph quotient |
| `RateLimit.dfy` | the sliding-window limiter, with clock readings that reach the lock out of order |
| `RefreshTokens.dfy` | rotation, revocation and reuse detection |
| `StableSort.dfy`, `Timeline.dfy` | stable sorting, and timeline assembly |
| `Ipv6.dfy`, `Ioc.dfy` | which texts are IPv6 addresses; span coverage and deduplication of indicators, and when extraction raises |
| `Monitor.dfy` | watch polling and its markers |
| `Ingest.dfy`, `IngestRuns.dfy` | two-pass ingestion with the indicators in its texts, and what holds over whole batches |
| `TwoKeys.dfy` | finding Telegram rows by id or by username |
| `Enrichment.dfy` | what the texts of a batch give rise to, match by match |
| `Text.dfy`, `Target.dfy`, `TargetForms.dfy` | string operations, target parsing, and what each form of text stands for |
| `Token.dfy`, `TokenForms.dfy` | unpadded base64url and access tokens, and both written out symbol by symbol |
| `Options.dfy` | the option type |

## Where the code and its promises differ

Each of these is a theorem here, with the exact condition or a concrete input.

- A job whose retry cannot be enqueued stays RUNNING with nobody holding it
  (`workers/runner.py:159-164`): the enqueue runs inside the transaction, which rolls back to
  RUNNING. `JobProtocol.LostRetryRun` is such a run, and `JobProtocol.UnsettledExactly` says
  which jobs a drained system leaves unsettled.
- The limiter reads the clock before it takes the lock (`security/ratelimit.py:43-45`), so
  readings can be applied out of order, and then a window can hold more than the limit:
  `RateLimit.OutOfOrderExceedsLimit`. What still holds is `RateLimit.NeverMoreThanLimit`.
- An IPv6 address that ends with `::`, outside a link, email or hash, makes indicator extraction
  raise, because it is normalised without its colons (`intelligence/ioc/extract.py:227-239`). So
  does every URL with a bracketed address, because the URL pattern stops before the closing
  bracket (`intelligence/ioc/extract.py:59`). `Ioc.RaisesByText` is the exact condition, with
  `fe80::` and `http://[::1]/` as inputs.
- Nothing in ingestion catches that, so one such text ends the ingestion of its whole batch
  (`intelligence/ingest.py:225-234`), although one bad record is not meant to sink it
  (`intelligence/ingest.py:98`). `IngestRuns.RaisesExactly` says when, and the results about
  stored batches are stated for the others.
- Ingesting a batch again changes nothing, as promised, but the summary then reports every match
  as evidence recorded (`intelligence/ioc/enrich.py:180`): `IngestRuns.IngestIsIdempotent`.
- A Telegram row known by id can take on a username that another row has
  (`database/repositories/entities.py:134-140`); after that, records that have only the username
  fail. `TwoKeys.NameOnTwoRows` is an input, and `TwoKeys.SkippedAgainExactly` says which records
  fail when they come again.
- The comment in `intelligence/investigation/target.py:70-72` says that nothing the normaliser
  would strip may become a username. That holds without a link (`Target.BareIsNeverTrimmed`) but
  not behind one: `t.me/bad-name` is read as `badname`. When a link and its handle agree is
  `Target.LinkAgreesExactly`.
- `t.me/abcde#frag` is read as `abcdefrag` but `https://t.me/abcde#frag` as `abcde`, and
  `t.me//abcde` is rejected but `https://t.me//abcde` accepted (`database/normalize.py:23-30`).
  When the two kinds of link agree is `Target.SchemesAgreeExactly`.
- A message that first appears with an id at or below the marker is never notified
  (`intelligence/monitoring.py:122-125`). `Monitor.NothingMissedExactly` says when none is.
- The timeline's `truncated` flag misses one case, in which the events left out are all of one
  container (`intelligence/timeline/builder.py:104`, `:170`): `Timeline.FlagIsExactUnlessLone`,
  with `Timeline.FlagMissesLone` as input.
- The graph's `truncated` flag is also set when the cap is met exactly
  (`intelligence/relationships/graph.py:154-156`): `Graph.ListedCount`.
- A merge fails as a whole exactly when the two entities carry the same message id or the same
  observation, which the documentation of `merge_entities` does not mention.

## Model

| member | source | states |
|---|---|---|
| Graph.BallIsPaths | intelligence/relationships/graph.py:136-186 | the balls used as distance are exactly what paths of listed rows reach: within k hops if and only if some path of at most k rows leads there |
| Graph.NearerIsListed | intelligence/relationships/graph.py:146-181 | the FIFO argument: every node nearer than all queued entries has been listed |
| Graph.PopIsExact | intelligence/relationships/graph.py:149-153 | a node's first pop carries its exact hop distance |
| Graph.Expand | intelligence/relationships/graph.py:160-181 | one expansion queues the other end of every listed row not yet visited and records each edge key once |
| Graph.Search | intelligence/relationships/graph.py:148-181 | for every listing, asymmetric ones included: distinct nodes in non-decreasing distance, nothing omitted nearer than anything listed, all of the depth when not truncated; the rows recorded are exactly those listed inside the depth |
| Graph.Bfs | intelligence/relationships/graph.py:136-186 | the view, without the functions that build it: its nodes as in Search; its edges distinct, both ends listed, each carrying the columns of a row read at an expanded node; every row read there with both ends listed has an edge of its source, target and type |
| Graph.NothingFiltered | intelligence/relationships/graph.py:183-185 | in an untruncated view the final edge filter removes nothing |
| Graph.ListedCount | intelligence/relationships/graph.py:154-156 | the view lists min(cap, size of the ball) nodes, and the flag is set if and only if the ball has at least cap nodes |
| Graph.RefsAreUnique | intelligence/relationships/graph.py:183-185 | `type:id` names one entity when types hold no colon, so filtering by reference is filtering by entity |
| Graph.EdgesAreDistinct | intelligence/relationships/graph.py:160-185 | the view's edges differ pairwise in source, target or type, run from the source to the target of their row, and both ends are listed entities |
| Graph.Neighbourhood | intelligence/relationships/graph.py:106-115 | the view from one entity: there is a depth d, the one asked for where it lies in 1..3 and otherwise 1 or 3, for which nodes and edges are as in Bfs, both ways; untruncated, an entity is listed if and only if a path of at most d listed rows leads to it, and every row listed inside d is an edge |
| Graph.ForTarget | intelligence/relationships/graph.py:117-123 | the same from a target and the entities it resolved to |
| Graph.BfsViews | intelligence/relationships/graph.py:106-123 | nodes and edges that are right for a depth, with captions, are a right view |
| JobQueue.InMemoryJobQueue.Enqueue | workers/queue.py:40-45 | the new state: a positive delay sets a timer at now plus delay, otherwise the id is ready |
| JobQueue.InMemoryJobQueue.Promote | workers/queue.py:47-51 | due timers move to the end of the ready ids in the order they were set, the others stay |
| JobQueue.InMemoryJobQueue.Dequeue | workers/queue.py:53-62 | with other threads acting during every sleep: it takes the first id of the first round that has one, and gives up only when nothing was ready or due at its last check and the deadline had passed |
| JobQueue.FruitlessWritten | workers/queue.py:54-62 | every round before the last took nothing and ended before the start reading plus the timeout |
| JobQueue.StepRefines | workers/queue.py:40-62 | each operation does to the plain queue what it does to the queue with tickets and history |
| JobQueue.LogRefines | workers/queue.py:40-62 | over every run, forgetting tickets and history gives the queue itself |
| JobQueue.QueueRuns | workers/queue.py:40-66 | over every run: each enqueued entry is held or has left exactly once; entries leave in the order they became ready; none leaves before its enqueue time plus delay |
| JobQueue.DueIncreasing | workers/queue.py:49-51 | timers that come due together become ready in the order they were set |
| JobQueue.PollsNothing | workers/queue.py:53-61 | a poll takes nothing if and only if nothing is ready and no timer is due |
| Jobs.JobRepository.Create | database/repositories/jobs.py:34-48 | a new PENDING row and nothing else changes |
| Jobs.JobRepository.Move | database/repositories/jobs.py:50-81 | every column of the row after a legal move, written out, or LookupError or IllegalJobStateTransition with the rows unchanged |
| Jobs.JobRunner.Submit | apps/bot/jobs.py:21-46 | the row is PENDING and its id queued, or the enqueue raised and the row is FAILED |
| Jobs.JobRunner.Begin | workers/runner.py:103-120 | the first transaction: RUNNING, FAILED without a handler, or nothing for a terminal or missing job |
| Jobs.JobRunner.Progress | workers/runner.py:145-147 | the progress of a RUNNING job, clamped to 0..100; for a finished or cancelled job it raises and nothing changes |
| Jobs.JobRunner.Finish | workers/runner.py:128-134 | COMPLETED with progress 100, the summary as result and the time, or nothing when the job was cancelled meanwhile |
| Jobs.JobRunner.OnFailure | workers/runner.py:152-168 | FAILED, or FAILED then PENDING with one enqueue at the backoff delay; an exception anywhere restores the rows |
| Jobs.JobRunner.Cancel | apps/bot/jobs.py:63-73 | CANCELLED, or false and no change for a terminal or missing job |
| JobProtocol.StepKeepsInv | workers/runner.py:91-168 | every step of every party keeps the invariant tying each row to its custodians and its history |
| JobProtocol.PlacesAfter | workers/runner.py:91-168 | a step moves only its own job's id between submit windows, queue slots and workers |
| JobProtocol.Custody | workers/runner.py:102-168 | in every reachable state a job has at most one custodian; PENDING and RUNNING jobs that are not stranded have exactly one, of the right kind |
| JobProtocol.UnsettledExactly | workers/runner.py:102-168 | once drained, a job is not terminal if and only if in some step its holder died, or a retry of it lost its enqueue, before it was terminal, and it was not cancelled since |
| JobProtocol.DrainedIsSettled | workers/runner.py:102-168 | once drained, a job that is not terminal is stranded; without deaths and lost enqueues every job is COMPLETED, FAILED or CANCELLED |
| JobProtocol.LossStrands | workers/runner.py:152-168 | a live job becomes stranded exactly by a death of its holder or a lost retry enqueue, and that leaves its row as it is |
| JobProtocol.TerminalIsAbsorbing | database/repositories/jobs.py:18-24 | over every run, a committed terminal row never changes again and gains no custodian, whatever a cancel interleaves with |
| JobProtocol.TerminalStays | workers/runner.py:128-164 | the one-step form: progress, success, failure and retry leave a terminal row alone |
| JobProtocol.StrandedForGood | workers/runner.py:159-164 | over every run without a cancellation of it, a stranded job keeps its row and has no custodian ever again |
| JobProtocol.LostRetryRun | workers/runner.py:159-164 | a run of one job and one worker that ends drained with the job RUNNING and nobody holding it |
| JobProtocol.AttemptsAreBounded | workers/runner.py:160-164 | over every run: handler starts <= retry_count + 1 <= max_retries + 1, the same bound on dequeues, and the exact total of the delays given |
| JobProtocol.BackoffClosedForm | workers/runner.py:162 | the delays of n retries add up to base * (2^(n+1) - 2) |
| JobProtocol.DrainingEnds | workers/runner.py:91-168 | over every run the queue gives out at most the sum of (max_retries + 1) ids, and workers commit at most three transactions for each |
| JobProtocol.NeverStuck | workers/runner.py:91-168 | while anything is queued or in flight some party can move it on, if need be once time has passed |
| Relationships.RelationshipRepository.Observe | database/repositories/relationships.py:19-58 | the row created or bumped, and whether it was created |
| Relationships.EdgeIsFold | database/repositories/relationships.py:40-58 | over every log: an edge exists if and only if it was observed; it counts its observations and keeps the highest clamped confidence and the first and last times |
| Merge.Store.RepointEdges | intelligence/entity_resolution/resolver.py:214-240 | in whatever order the rows come, delete and re-observe computes the quotient graph |
| Merge.RepointKeeps | intelligence/entity_resolution/resolver.py:215-240 | the loop invariant: one iteration re-observes exactly one more touched row |
| Merge.QuotientIsUnique | intelligence/entity_resolution/resolver.py:210-240 | the quotient is determined, so the order of the rows does not matter: confidence is the maximum over preimages, the count is the untouched count plus the number of touched preimages |
| Merge.QuotientIsMerged | intelligence/entity_resolution/resolver.py:214-240 | the quotient, written out: an edge is there if and only if it does not touch the dropped entity and was there before or a touched row renames to it without becoming a self-loop; its confidence is the highest of those rows, its count the one it had plus one for each touched row, and it is as before where none merges into it |
| Merge.QuotientEdges | intelligence/entity_resolution/resolver.py:215-240 | the edge keys are the old keys renamed without the new self-loops, and none touches the dropped entity |
| Merge.MessagesStayUnique | intelligence/entity_resolution/resolver.py:242-256 | the messages' unique key survives if and only if the two entities share no message id |
| Merge.EvidenceStaysUnique | intelligence/entity_resolution/resolver.py:258-270 | the evidence's unique key survives if and only if the two entities share no observation |
| Merge.Store.MergeEntities | intelligence/entity_resolution/resolver.py:191-280 | ValueError; IntegrityError, with everything restored, if and only if, in tables that met their unique keys, the two share a message id or an observation; or all three tables repointed, row by row: a message or evidence row of the dropped entity is now of the kept one in that column, every other column and row is as before, and the counts are those of the rows that named it |
| Merge.NothingNamesDropped | intelligence/entity_resolution/resolver.py:242-270 | afterwards no message and no evidence row names the dropped entity, and evidence rows are conserved |
| Merge.MessagesConserved | intelligence/entity_resolution/resolver.py:242-256 | the kept entity has the messages that the two had before, as author and as source |
| RateLimit.InMemoryRateLimiter.Hit | security/ratelimit.py:42-53 | the key's deque and the answer after one hit; other keys unchanged |
| RateLimit.InMemoryRateLimiter.Enforce | security/ratelimit.py:109-122 | the first k keys are hit in turn, each hit written out on its deque, where k is the number of keys when all pass and otherwise the first that trips; other keys keep their deques, and the answer is that of the rejection or of the fewest hits remaining |
| RateLimit.EnforceIsCalls | security/ratelimit.py:115-122 | over every run of enforce calls, the limiter is the one that their hits leave one by one |
| RateLimit.EnforceNeverExceeds | security/ratelimit.py:109-122 | over every run of enforce calls whose readings for a key go back by at most e, no interval of length window - e holds more than limit allowed hits of that key |
| RateLimit.LogIsAllowed | security/ratelimit.py:42-53 | the log of a key is exactly the readings of the hits that were answered as allowed |
| RateLimit.AnswersAreOwn | security/ratelimit.py:42-53 | the answer of a hit is the one that the key's own hits alone would give |
| RateLimit.EnforceIsWorst | security/ratelimit.py:115-122 | allowed if and only if every key's hit is; the answer has the fewest hits remaining, or is the rejection |
| RateLimit.HitKeepsGood | security/ratelimit.py:42-53 | whatever the jitter of readings, each hit keeps the deque an end of the log of allowed hits, no longer than the limit, and the log spaced by it |
| RateLimit.AllowedByWindow | security/ratelimit.py:43-53 | with readings that go back by at most e, an allowed hit found fewer than limit allowed hits in the window narrowed by e, a rejected one at least limit in the window widened by e |
| RateLimit.DequeIsBetween | security/ratelimit.py:43-53 | with jitter e the deque is an end of the log: all it dropped is older than the narrowed window, all it keeps is inside the widened one |
| RateLimit.DequeIsWindow | security/ratelimit.py:47-53 | with readings in order the deque is the log of allowed hits filtered to the closed window; a hit is allowed if and only if fewer than limit were in it; remaining is limit minus its length |
| RateLimit.RemainingIsRoom | security/ratelimit.py:49-53 | over every run, the remaining count answered is the room left in the window, up to the jitter |
| RateLimit.NeverMoreThanLimit | security/ratelimit.py:42-53 | over every run whose readings go back by at most e, no closed interval of length window - e holds more than limit allowed hits |
| RateLimit.OutOfOrderExceedsLimit | security/ratelimit.py:43-45 | limit 3, window 10, readings 0, 0, 10.02, 10, 10: all allowed, four of them within [0, 10] |
| RateLimit.RetryAfterIsExact | security/ratelimit.py:49-51 | whatever the jitter e before, after a rejection with no hit in between, a hit at retry_after is allowed and one at retry_after - 1 is not, and 1 <= retry_after <= window + e + 1 |
| RateLimit.KeysAreIndependent | security/ratelimit.py:46 | each key's deque is what its own hits alone would leave |
| RefreshTokens.RefreshTokenRepository.Issue | database/repositories/refresh_tokens.py:25-40 | one row more, active until its time to live ends |
| RefreshTokens.RefreshTokenRepository.Rotate | database/repositories/refresh_tokens.py:51-71 | column by column: the successor issued and linked, or every unrevoked row of the family revoked when the token is used or expired, or nothing for an unknown token or an unavailable user |
| RefreshTokens.RefreshTokenRepository.Revoke | database/repositories/refresh_tokens.py:73-79 | true if and only if an unrevoked row has the digest; that row is revoked now, and nothing else changes |
| RefreshTokens.RefreshTokenRepository.RevokeAll | database/repositories/refresh_tokens.py:81-95 | every unrevoked row of the user revoked, and how many |
| RefreshTokens.StepKeepsInv | database/repositories/refresh_tokens.py:51-95 | login, rotation, reuse and logout keep the links and chains of every login |
| RefreshTokens.WrittenOnce | database/repositories/refresh_tokens.py:68-69 | over every run, revoked_at and replaced_by are written once and no row is lost |
| RefreshTokens.FrozenForGood | database/repositories/refresh_tokens.py:51-95 | over every run, a revoked row never changes in any column |
| RefreshTokens.LogoutIsFinal | apps/api/routers/auth.py:147-152 | over every run, after a logout with a known digest that token is never active again, and presenting it revokes the family and issues nothing |
| RefreshTokens.SuccessorsAreChains | database/repositories/refresh_tokens.py:66-69 | over every run, replaced_by is injective and leads to a later row of the same user and login, so it never cycles |
| RefreshTokens.OneActivePerLogin | database/repositories/refresh_tokens.py:54-71 | over every run, each login has at most one unrevoked token, the end of its chain |
| RefreshTokens.ReuseRevokesAll | database/repositories/refresh_tokens.py:57-60 | presenting a known inactive token leaves its user without an unrevoked one |
| RefreshTokens.NoTokenUntilLogin | apps/api/routers/auth.py:118-129 | over every run, after such a reuse the user holds no active token until the next login |
| StableSort.SortIsStable | intelligence/timeline/builder.py:103 | sorting keeps the order inside every key |
| StableSort.SortedIsUnique | intelligence/ioc/extract.py:284-286 | a sorted sequence is determined by the order inside every key |
| StableSort.SortFilter | intelligence/ioc/extract.py:284-286 | sorting commutes with filtering |
| Timeline.Build | intelligence/timeline/builder.py:85-105 | the view is the first events of the sorted merge of capped sources, with the flag as computed |
| Timeline.AssembledIsWhole | intelligence/timeline/builder.py:85-105 | the timeline before the limit holds every dated event of the sources as often as it comes up there, with at most 500 messages of each container, by time |
| Timeline.CountsGiveTimes | intelligence/timeline/builder.py:103-105 | sorted timelines with the same counts up to n have the same first n times |
| Timeline.CapDoesNotShow | intelligence/timeline/builder.py:160-174 | for any number of containers, capping each at its n earliest messages leaves the first n times of the merge unchanged |
| Timeline.FlagIsExactUnlessLone | intelligence/timeline/builder.py:104 | the flag tells whether events are left out if and only if no container with more than n messages is all there is |
| Timeline.FlagMissesLone | intelligence/timeline/builder.py:104 | a lone container with n + 1 messages: the flag is not set and one is left out |
| Timeline.GroupByYear | intelligence/timeline/builder.py:55-59 | the loop computes the groups in order of first appearance |
| Timeline.YearsFlattenBack | intelligence/timeline/builder.py:55-59 | for a sorted timeline the years ascend, and the groups one after another are the events in order |
| Timeline.GroupsAreYears | intelligence/timeline/builder.py:57-58 | each group holds exactly the events of its year, in order |
| Ioc.ExtractIocs | intelligence/ioc/extract.py:128-269 | the scan of all eleven patterns followed by deduplication, or ValueError |
| Ioc.CollectedInv | intelligence/ioc/extract.py:138-267 | for any hits, at every stage: the covered spans are those of the links, emails and hashes emitted, and no gated match starts inside one emitted before it |
| Ioc.CollectAccounts | intelligence/ioc/extract.py:138-267 | for any hits, every one is emitted, or starts inside a covered span, or fails its own test, or its domain is known |
| Ioc.CollectFromHits | intelligence/ioc/extract.py:138-267 | every match is a hit of its pattern or derived from one |
| Ioc.EveryHitCounts | intelligence/ioc/extract.py:138-267 | every hit of every pattern brings its match, and the domain or handle inside a link or mail address, or is excused for one of the reasons written out |
| Ioc.EveryMatchIsBrought | intelligence/ioc/extract.py:138-267 | and every match is one that a hit brings, with its text, place and type |
| Ioc.BareDomainsAreLone | intelligence/ioc/extract.py:241-253 | a bare domain is emitted only when nothing else in the text brings that domain, link, mail address or an earlier bare one |
| Ipv6.ValidWritten | intelligence/ioc/extract.py:227-231 | what counts as an address: eight groups of one to four hexadecimal digits, or at most seven around one `::`, as in section 2.2 of RFC 4291 |
| Ipv6.StripInvalidates | intelligence/ioc/extract.py:227-239 | stripping its colons leaves an IPv6 address one if and only if it neither begins nor ends with `::` |
| Ioc.RaisesByText | intelligence/ioc/extract.py:138-239 | read off the text, extraction raises if and only if a URL does not normalise or an address outside the covered spans begins or ends with `::` |
| Ioc.BracketedUrlRaises | intelligence/ioc/extract.py:59-141 | a URL hit with an opening bracket at its host and no closing one makes extraction raise |
| Ioc.GroupAndGapRaises | intelligence/ioc/extract.py:227-239 | any group of digits followed by `::` makes extraction raise |
| Ioc.AddressUrlRaises | intelligence/ioc/extract.py:59-141 | so does `http://[::1]/` |
| Ioc.Ipv6WithTrailingColonsRaises | intelligence/ioc/extract.py:227-239 | a lone `fe80::`, read as the address it is, makes extraction raise |
| Ioc.Dedupe | intelligence/ioc/extract.py:282-286 | the dictionary loop computes the first match of each key, sorted again |
| Ioc.EarliestIsLexicographic | intelligence/ioc/extract.py:284 | the numeric sort key orders by start and then by length, longest first |
| Ioc.OnePerKey | intelligence/ioc/extract.py:282-286 | exactly one match of every key is kept: the one that starts earliest, then is longest, then was emitted first |
| Ioc.KeptOnce | intelligence/ioc/extract.py:282-286 | for every match exactly one in the result has its type and normalised value, and it is the preferred one, written out |
| Ioc.ResultIsOrdered | intelligence/ioc/extract.py:286 | the result is by start and then by the name of the type |
| Ioc.DedupedInOrder | intelligence/ioc/extract.py:286 | no other key appears, and the order is by start and then by type |
| Ioc.DedupeIsIdempotent | intelligence/ioc/extract.py:282-286 | deduplicating twice is deduplicating once |
| Ioc.NothingNests | intelligence/ioc/extract.py:175-286 | in the final result no email, hash, address, bare domain or handle starts inside a link, email or hash of an earlier stage |
| Ioc.NothingStartsInside | intelligence/ioc/extract.py:138-286 | the same with the types and their order written out |
| Monitor.Watch.Poll | intelligence/monitoring.py:72-84 | the new marker, the activities and the notes of one poll |
| Monitor.Watch.PollTelegram | intelligence/monitoring.py:86-136 | the marker's highest id and one activity for every stored message above the old marker |
| Monitor.Watch.PollUsernamePlatforms | intelligence/monitoring.py:139-167 | the platforms known and one activity for every new one |
| Monitor.MarkersNeverRegress | intelligence/monitoring.py:122-136 | over every sequence of polls the highest id and the platforms only grow |
| Monitor.MarkerIsHighest | intelligence/monitoring.py:112-136 | over every sequence of polls the marker is the highest id shown, or zero |
| Monitor.ErrorsChangeNothing | intelligence/monitoring.py:90-92 | a part that fails leaves its marker and notifies nothing, and the other part is unaffected |
| Monitor.FailedPollLeavesNoTrace | intelligence/monitoring.py:90-151 | over every sequence of polls, one in which both parts fail or have nothing to look at changes no later marker and no notification |
| Monitor.NotifiedAtMostOnce | intelligence/monitoring.py:112-136 | over every sequence of polls a message is notified at most once, and only with a positive id |
| Monitor.PlatformsAreNotifiedOnce | intelligence/monitoring.py:152-167 | over every sequence of polls a platform is notified exactly once if some poll reported it, and otherwise never |
| Monitor.NotifiedExactlyWhenAbove | intelligence/monitoring.py:122-125 | a message is notified if and only if it was above the marker at the first poll that showed it |
| Monitor.NothingMissedExactly | intelligence/monitoring.py:112-136 | the notifications are exactly the positive ids shown if and only if each was above the marker when first shown |
| Monitor.LateMessageIsMissed | intelligence/monitoring.py:122-125 | ids 5, then 3 and 5: message 3 is never notified |
| Ingest.IngestionService.Ingest | intelligence/ingest.py:68-92 | the four loops carry out the plan: entities, then messages, then evidence, then relationships; nothing without records; an exception from a text leaves it at once |
| Ingest.IngestionService.IngestEntity | intelligence/ingest.py:95-133 | the row found or created, blank columns filled, the ref resolved, biography and description scanned; or the record skipped |
| Ingest.IngestionService.IngestMessage | intelligence/ingest.py:183-237 | the message found or created under its container, its columns overwritten, its text scanned; or the record skipped |
| Ingest.IngestionService.Enrich | intelligence/ioc/enrich.py:85-228 | what a text gives rise to: rows, sightings and edges for every match, or the exception of the scan |
| Enrichment.TextIsStored | intelligence/ioc/enrich.py:85-228 | every link that some match of the text calls for, written out with its names and numbers, is there afterwards: the row, the evidence on it and an edge at least as confident |
| Enrichment.MessageMatchIsStored | intelligence/ioc/enrich.py:145-228 | a match in a message has its indicator, its evidence, its MESSAGE_CONTAINS_IOC edge, and for addresses, domains, links and handles the row of the value with an edge of its own type |
| Enrichment.ProfileMatchIsStored | intelligence/ioc/enrich.py:85-130 | a domain, link or mail address in a biography or description has its indicator, its evidence and its edge |
| Enrichment.NothingElseIsStored | intelligence/ioc/enrich.py:85-228 | no row, evidence or edge is new that no match calls for; what was there stays, up to the edges observed again |
| Enrichment.TextIsCounted | intelligence/ioc/enrich.py:120-228 | the summary grows by the new indicators and edges and by the matches recorded |
| Enrichment.EveryTextIsStored | intelligence/ingest.py:114-237 | over every batch that does not raise: what each biography, description and message calls for is there in the end |
| Ingest.IngestionService.RecordEvidence | intelligence/ingest.py:247-269 | one evidence row per observation key, counted when new |
| Ingest.IngestionService.ObserveRelationship | intelligence/ingest.py:271-287 | the edge between resolved refs observed once more, counted when new |
| Ingest.ApplyAttributes | intelligence/ingest.py:239-244 | only settable columns that hold nothing are filled |
| Ingest.ContainerWritten | intelligence/ingest.py:183-199 | which container a message is stored under: the one it names, or else the only one resolved |
| IngestRuns.RaisesExactly | intelligence/ingest.py:68-237 | ingestion raises if and only if a scanned text of a record that it stores raises; which records it stores is read off the batch alone |
| IngestRuns.OneTextRaisesAll | intelligence/ingest.py:225-234 | a group and a message whose text is such an address: ingestion raises |
| IngestRuns.EveryRecordIsAccounted | intelligence/ingest.py:68-92 | for every batch that does not raise and all tables, created + updated + skipped is the number of records |
| IngestRuns.EveryEntityLands | intelligence/ingest.py:95-112 | after such a batch, every entity record has the row of its key, with something in each settable column it had something for |
| IngestRuns.EveryDraftIsStored | intelligence/ingest.py:85-90 | after such a batch, every evidence draft and relationship whose refs resolved is in the tables, under the entities they resolved to |
| IngestRuns.EntityResolves | intelligence/ingest.py:73-81 | with unique refs, each entity record's ref resolves to the row of its key |
| IngestRuns.RunGrows | database/repositories/evidence.py:46-73 | ingestion loses nothing, raising or not: ids and filled columns stay, evidence rows are never changed, edges stay |
| IngestRuns.MirrorStep | intelligence/ingest.py:68-92 | one step of a second ingestion finds what the first one left |
| IngestRuns.IngestIsIdempotent | intelligence/ioc/enrich.py:1-6 | ingesting a batch again, texts included, changes no entity, message or evidence row, adds no edge, resolves and skips the same refs, creates nothing, and raises if the first did; its evidence count is the number of matches |
| IngestRuns.ColumnsAreOverlaid | database/repositories/messages.py:17-39 | a message's columns are what was there overlaid with what its records bring, in order |
| IngestRuns.LastWriterWins | database/repositories/messages.py:35-38 | the last record that has a column decides it |
| IngestRuns.EdgesStayFolds | intelligence/ingest.py:271-287 | over every run the edges remain the fold of all observations made, those that texts give rise to included |
| IngestRuns.MessageFindsContainer | intelligence/ingest.py:73-84 | with unique refs, a message is stored under the record it names wherever the two stand in the batch |
| TwoKeys.TelegramRepository.GetOrCreate | database/repositories/entities.py:113-154 | the row found by id, else by name, completed; or created; or the exception |
| TwoKeys.ResolveGrows | database/repositories/entities.py:113-154 | ids stay unique, and keys once there stay |
| TwoKeys.NamesStayUnique | database/repositories/entities.py:134-140 | names stay unique if and only if no row found by id takes on a name that another row has |
| TwoKeys.AgainCompletes | database/repositories/entities.py:113-154 | presenting the same records again only gives rows known by id the first name the records have for them |
| TwoKeys.SkippedAgainExactly | database/repositories/entities.py:113-154 | of the records found or created before, exactly those fail again whose id is unknown and whose name is then on two rows; none is created |
| TwoKeys.NameOnTwoRows | database/repositories/entities.py:134-140 | three records after which the second fails when presented again |
| Text.KeepsAll | database/normalize.py:31 | filtering drops nothing if and only if everything passes |
| Target.NormalizeUsername | database/normalize.py:20-31 | the prefix loop strips the one host prefix there is |
| Target.NormalizedAlphabet | database/normalize.py:31 | the result is over [a-z0-9_.] |
| Target.NormalizeIsIdempotent | database/normalize.py:20-31 | normalising twice is normalising once |
| Target.NetlocOfLink | database/normalize.py:23-24 | splitting and rejoining an http link gives its host and its path, without scheme, query, fragment and leading slashes |
| Target.LinkForm | intelligence/investigation/target.py:48-88 | a word behind a link, any scheme and host in either case, stands for what the word stands for |
| Target.BareForm | intelligence/investigation/target.py:62-88 | so does a word behind any number of @ signs |
| Target.FormsAgree | intelligence/investigation/target.py:48-88 | for a word u: u, @u, t.me/u and https://t.me/u all parse to the same target, or none does |
| Target.DisplayParsesBack | intelligence/investigation/target.py:44-88 | every accepted username meets the grammar (5 to 32 characters, no double underscore), every id is positive, and display parses back to the same target |
| Target.BareIsNeverTrimmed | intelligence/investigation/target.py:70-78 | without a link, only a word behind @ signs is accepted |
| Target.LinkIsTrimmed | intelligence/investigation/target.py:65-88 | behind any link prefix, whatever the text: what is read is what remains of the handle over the alphabet, if that is a handle or an id |
| Target.HandlesDiffer | database/normalize.py:23-30 | behind a scheme leading slashes and the fragment are dropped; without one a leading slash ends the handle and the fragment stays |
| Target.SchemesAgreeExactly | intelligence/investigation/target.py:65-88 | a link with a scheme and one without agree if and only if the same remains of both handles or neither remainder is acceptable |
| Target.SchemesAgreeWithoutFragment | intelligence/investigation/target.py:65-88 | in particular whenever the handle has no fragment and no slash before it |
| Target.FragmentIsReadTwice | database/normalize.py:23-30 | for handles a and a + c, the link to a#c is a + c without a scheme and a with one |
| Target.FragmentExample | database/normalize.py:23-30 | `t.me/abcde#frag` and `https://t.me/abcde#frag` |
| Target.SlashIsReadTwice | database/normalize.py:23-30 | with a slash before the handle only the link with a scheme is accepted |
| Target.LinkAgreesExactly | intelligence/investigation/target.py:70-80 | behind any link prefix, a link and the text behind it agree if and only if the text is a word behind @ signs or what remains of it is neither a handle nor an id |
| Target.BadNameIsTrimmed | intelligence/investigation/target.py:73-80 | `t.me/bad-name` is accepted as `badname`, `bad-name` is not accepted |
| Target.LinkKeptWhole | database/normalize.py:30-31 | normalising drops nothing of the handle if and only if it is over the alphabet |
| TargetForms.LinkReads | intelligence/investigation/target.py:48-88 | behind a link head in either case, up to the next slash, question mark or, with a scheme, fragment: what remains of the letters, digits and underscores is an id of 3 to 15 digits, a handle of the grammar, or refused |
| TargetForms.BareReads | intelligence/investigation/target.py:59-88 | any other text is a word behind @ signs, read the same way, or refused, foreign links included |
| TargetForms.OthersNormalized | database/normalize.py:20-31 | any other text is normalised up to its first slash or question mark |
| TargetForms.BlanksDoNotMatter | intelligence/investigation/target.py:51 | blanks around a text do not matter |
| TargetForms.Refused | intelligence/investigation/target.py:48-57 | nothing, a blank text, one of more than 128 characters and one with a control character are refused |
| TargetForms.BracketRaises | database/normalize.py:23-24 | a host with one bracket and not the other is an error |
| TargetForms.BreaksDoNotMatter | database/normalize.py:23-24 | tabs and line breaks inside a link with a scheme do not matter |
| Token.DecodeBase64 | security/auth.py:127-128 | the lenient decoder's loop computes its front-to-back reading |
| Token.DecodePadded | security/auth.py:127-128 | decoding undoes padded encoding on all byte strings |
| Token.EncodeRepads | security/auth.py:123-128 | stripping the padding and adding -len % 4 characters restores it |
| Token.DecodeUndoesEncode | security/auth.py:123-128 | unpadded base64url (section 5 of RFC 4648) round-trips all byte strings, and its symbols hold no dot |
| Token.TokenParts | security/auth.py:86-94 | a created token always splits into exactly its three parts |
| Token.DecodeUndoesCreate | security/auth.py:79-108 | a created token decodes to its claims up to and including its expiry second, and is expired after it |
| Token.AcceptedWasSigned | security/auth.py:90-108 | whatever is accepted carries the key's signature of its first two parts, and its claims are those of the signed text |
| TokenForms.ThreeBytes | security/auth.py:123-124 | three bytes are four symbols of six bits each in the URL-safe alphabet, as in section 5 of RFC 4648 |
| TokenForms.LastBytes | security/auth.py:123-124 | one byte at the end is two symbols and two bytes are three, with zeros for the bits left over |
| TokenForms.FourSymbols | security/auth.py:127-128 | four symbols are read back as three bytes |
| TokenForms.ShortGroups | security/auth.py:127-128 | a group cut short by padding is one byte or two and ends the text; one cut short without it is an error |
| TokenForms.ForeignSkipped | security/auth.py:127-128 | foreign characters are skipped wherever they stand |
| TokenForms.StandardSymbols | security/auth.py:127-128 | the symbols of the standard alphabet are read as those of the URL-safe one |
| TokenForms.EarlyPadding | security/auth.py:127-128 | padding that completes no group is skipped |
| TokenForms.DecodeWritten | security/auth.py:127-128 | what a text is padded with, and that it is refused outside ASCII |
| TokenForms.TokenWritten | security/auth.py:79-88 | the parts of a created token and the claims in it |
| TokenForms.MalformedExactly | security/auth.py:92-95 | a token is malformed if and only if it does not have two dots |
| TokenForms.Verdicts | security/auth.py:96-108 | the verdict on every token with two dots: which of the four errors, or accepted |

## Left out

- Bot handlers, dashboard, routers, middleware, migrations, renderers, adapters and configuration: wiring.
- The Redis queue and the Redis limiter; the latter also differs at the window boundary.
- Regular expressions, refanging, IPv4 parsing and URL normalisation: their results are inputs.
- `urlsplit`: modelled for http URLs as far as `normalize_username` uses it, including unbalanced brackets; its check of bracketed addresses is not.
- Letter case, digits and case-insensitive matching outside ASCII in target parsing.
- Scrypt, HMAC, SHA-256 and JSON: functions with the properties stated where they are used; a payload that is not an object is not modelled.
- Rounding of floating-point times: the limiter and the queue use real numbers.
- The listing of edges: any finite listing, so the limit of 100 rows and their order by confidence are one case.
- Several clock readings inside one transaction are one; a worker's death is modelled only as stranding the job it holds.
- Delivery of notifications and the rows that handlers write.
- `JobRepository.pending`, `recent`, `find_job_id` and the scheduling queries of watch lists: plain queries.
- Enum validation of entity and relationship types: keys are taken as valid.
- `TargetResolver.link` and the resolution of targets: one observation and one evidence row for each entity found.
- IOC links of merged entities, which the merge does not repoint.
- Label and link text of timeline events, and the account events' contents: carried along as titles.
- The counter of IOC observations, and the link from an IOC row to its typed row.
- The columns that repositories derive from a key, and message attributes that are no columns.
- `due_watchlist_ids` and `mark_scheduled`: single queries.
- IngestRuns.IngestIsIdempotent: about kinds with one natural key; how Telegram rows with two are found again is `TwoKeys.SkippedAgainExactly`.
- IngestRuns.MessageFindsContainer: the container has one natural key.
- Ingest.IngestionService.IngestEntity: finds a row by one natural key; `TwoKeys.TelegramRepository.GetOrCreate` is the lookup by two.
- Target.NormalizeUsername: letter case is that of ASCII, and what urlsplit checks inside a bracketed host or by Unicode normalisation is not modelled.
- Monitor.Watch.Poll: activity labels, texts and times are not part of the model, nor is the storing of what was collected.
- Ioc.RaisesByText: other reasons for which urlsplit rejects a URL than its brackets are an input; the other normalisers cannot fail.
