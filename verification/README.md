# ArenaRank: a verified model of its core

ArenaRank ingests League of Legends Arena matches through the Riot API, rates the players in them and explains every
rating change. This project models the parts of its backend whose behaviour spans many steps, and proves what they
promise:

- **Shared access to the Riot API.** Token buckets in Redis with lazy refill, penalties and key expiry (`RateLimit`),
  the limiter's acquire loop for a lone caller of one bucket (`Limiter`) and of several (`LimiterPasses`), and with a
  whole fleet's calls in between (`LimiterFleet`); a lease-based request coalescer (`Coalesce`) and a sliding-window
  circuit breaker (`CircuitBreaker`). Each script or locked section is one atomic step on shared state; the steps of all
  workers interleave freely on a clock that does not run backwards, and the results hold for every such run.
- **The co-player crawl.** `CrawlGraph` defines the graph of players joined by the new matches they list, and its crawl
  one player at a time; `Crawler` is the batched breadth-first crawl with its two deduplication sets and two budgets,
  proved against it.
- **Rating.** Parameters, caps, modifiers and the engine (`Params`, `Caps`, `Modifiers`, `RatingTypes`, `Engine`), what
  the engine keeps (`EngineLaws`), seasons of matches and resets (`Season`), and the points ledger rebuilt backwards from
  a stored row (`Explain`, `ExplainLaws`, with concrete results in `ExplainCases`).
- **Windows, parsing, replay.** Trimmed and expiring sorted sets against plain history (`Fingerprint`), the match parser
  and its backlog codec (`Json`, `Arena`, `ArenaPayload`, `Codec`), and chronological replay (`Replay`), on a stable sort (`Sorting`).

Code that updates state in place is a class or a method with loops, proved equal to a function; the theorems are lemmas
about the function. Floats are reals. Calls into foreign code are parameters: the Riot API, the Plackett-Luce update,
the logistic curve, SHA-256, the rating service under replay. `dafny verify dfyconfig.toml` checks everything.

## Where the code differs from its documentation

The model follows the code. The differences found, each with its exact condition or a run that shows it:

- `acquire` is documented never to hold a token of one bucket while it waits on another. It consumes from every granting
  bucket on every pass. With a first wait that fits the longest sleep it waits on what it has taken exactly when on its
  first pass some bucket holds enough and some does not (`LimiterPasses.HoldsWhileWaitingIff`). It ends if and only if
  its first pass finds enough everywhere or, after some refused pass, what granted holds enough again in time, and what
  refused too where the sleep was cut short (`LimiterPasses.AcquireFinishesIff`); a single caller of two buckets can go
  on for ever (`Limiter.LoneCallerCanLivelock`).
- An API key is documented to share no bucket state with another. Keys that end in the same eight characters share all
  of it, and no others do (`Limiter.KeysAreOwn`).
- The key of a bucket is documented as kept alive for its penalty. A denied acquire resets the TTL, so a penalty is
  honoured exactly when its release and the refill after it fit into the key TTL (`RateLimit.PenaltyHonouredIff`).
- The key TTL is documented as housekeeping. The bucket limits its rate exactly when the TTL is at least the refill
  window (`RateLimit.CeilingIff`).
- An open breaker is documented to reject for its cooldown. It does unless a success that was on its way is recorded
  after the trip (`CircuitBreaker.CooldownIsKeptIff`, `CircuitBreaker.LateSuccessCloses`).
- A half-open breaker is documented to let exactly one trial through. It lets every caller through until the first
  outcome (`CircuitBreaker.HalfOpenAdmitsAll`, `CircuitBreaker.TwoTrialsHappen`).
- A key is documented as fetched at most once across the fleet. Two loaders run at once after a lost lease or an
  impatient follower (`Coalesce.LostLeaseTwoLoaders`, `Coalesce.ImpatientFollowerTwoLoaders`), and otherwise at most
  one (`Coalesce.AtMostOneLoader`). One after the other, a stored value is loaded again by exactly those tasks that had
  looked before it was stored (`Coalesce.LoadsAgainIff`, `Coalesce.LoadedTwiceInSequence`).
- A crawl with `max_matches` of zero still yields one match, and a seed given twice is queued twice
  (`Crawler.MatchCrawler.Discover`, `CrawlGraph.QueuedAtHopDistance`).
- A crawl is documented to yield everything reachable, matches outside the window being parsed to find their
  participants. It follows neither those nor known nor incomplete matches; that makes no difference exactly when nobody
  is met only in one of them (`CrawlGraph.AllHopsIff`).
- The CR identity is documented to hold after every match. `to_cr` floors without re-deriving the mean, so it holds
  exactly when the uncapped result was not below zero or the cap layer moved it (`EngineLaws.IdentityHoldsIff`); what
  always holds is `cr == to_cr(mu, sigma)`, for new rows when they start at or above zero (`Season.PointsSoundIff`).
- The residual of an explanation is documented as below 1e-9. It reaches 1e-6 (`ExplainCases.ResidualReachesEps`).
- A gap that the zero floor does not explain is documented as not happening for well-formed input. It is there exactly
  when the floor swallowed before the cap over 1e-6 more or less than before the match, and the points did not end at
  zero with the other entries below (`ExplainLaws.FreshIsPartialIff`): when a cap lifts a result that had fallen below
  zero (`ExplainCases.LiftedResultIsPartial`), and after an uncapped loss to zero points, where the next gain is
  misexplained (`ExplainCases.NextGainIsPartial`).

## Model

| member | source | states |
|---|---|---|
| RateLimit.TokenBucketConfig.Args | backend/arena/riot/rate_limit.py:143-146 | The rate handed to the script refills exactly the capacity in `refill_seconds` |
| RateLimit.CeilingHolds | backend/arena/riot/rate_limit.py:43-119 | In every run of acquires, penalties and expiries, a window of any length gets at most a full bucket plus its refill |
| RateLimit.CeilingBroken | backend/arena/riot/rate_limit.py:43-90 | With a shorter key TTL a run exists that exceeds the ceiling |
| RateLimit.CeilingIff | backend/arena/riot/rate_limit.py:43-119 | The ceiling holds for all runs and windows if and only if the key TTL is at least the refill window |
| RateLimit.PenaltyFreezes | backend/arena/riot/rate_limit.py:63-119 | For one key TTL after a penalty everyone together gets only what accrues after it ends, and no event brings the release forward |
| RateLimit.PenaltyHonouredIff | backend/arena/riot/rate_limit.py:63-119 | Whatever penalty stood before, no continuation takes n tokens before the release plus n/rate, if and only if that time fits into the key TTL |
| RateLimit.PenaltyLost | backend/arena/riot/rate_limit.py:71-89 | Otherwise one denied acquire and the expiry it causes hand out n tokens early |
| RateLimit.ServedExactly | backend/arena/riot/rate_limit.py:63-76 | Within the key's life n tokens are there exactly from one computed time on, penalised or not |
| RateLimit.DeniedTakesNothing | backend/arena/riot/rate_limit.py:78-89 | A denied request leaves the tokens at every later time as they were |
| RateLimit.WaitIsHonest | backend/arena/riot/rate_limit.py:78-89 | Left alone, a request is served at any time from the reported wait on, and before expiry at no time over 2 ms earlier |
| RateLimit.WaitCoversNeed | backend/arena/riot/rate_limit.py:82-86 | The reported wait rounds the exact serving time up by less than 2 ms and is positive |
| Limiter.RedisTokenBucketLimiter.constructor | backend/arena/riot/rate_limit.py:158-176 | A new limiter has its buckets, TTL and maximum wait, and an empty database |
| Limiter.RedisTokenBucketLimiter.FindApplicable | backend/arena/riot/rate_limit.py:207-209 | Named buckets that are not configured are ignored, the others kept in order |
| Limiter.ApplicableIsConfigured | backend/arena/riot/rate_limit.py:207-209 | An acquire is for exactly the configured buckets it names, each as often as named and in that order |
| Limiter.NamedIsApplicable | backend/arena/riot/rate_limit.py:201-209 | So every named configured bucket is tried, and nothing that was not named |
| Limiter.KeysAreOwn | backend/arena/riot/rate_limit.py:184-187 | Two buckets have the same key if and only if they have the same name and their API keys the same last eight characters |
| Limiter.RedisTokenBucketLimiter.TryOne | backend/arena/riot/rate_limit.py:189-199 | One atomic script call on the bucket's key, answering 0 or the seconds to wait |
| Limiter.RedisTokenBucketLimiter.OnePass | backend/arena/riot/rate_limit.py:211-212 | One pass tries every bucket in order, granted ones consuming, and gives the longest wait |
| Limiter.RedisTokenBucketLimiter.Acquire | backend/arena/riot/rate_limit.py:201-220 | The retry loop: passes and bounded sleeps until one pass is granted everywhere |
| Limiter.RedisTokenBucketLimiter.Penalize | backend/arena/riot/rate_limit.py:222-255 | The penalty script on every applicable bucket with the doubled TTL, and the longest penalty left |
| Limiter.PenaltyReachesNamed | backend/arena/riot/rate_limit.py:222-255 | A penalty empties exactly the keys an acquire reads for the named buckets until `seconds` from the call on, a longer standing penalty stays, and the reply is the longest time left, to the millisecond |
| Limiter.FinishedMeansGrantedByAll | backend/arena/riot/rate_limit.py:210-219 | The loop ends with a pass exactly when that pass took its tokens from every configured bucket the acquire names |
| Limiter.LoneCallerFinishesBy | backend/arena/riot/rate_limit.py:201-220 | A lone caller of one bucket is through within a number of passes computed from its due time |
| Limiter.TooLargeNeverFinishes | backend/arena/riot/rate_limit.py:71-89 | A request above the capacity is refused on every pass |
| Limiter.LoneCallerFinishesIff | backend/arena/riot/rate_limit.py:201-220 | A lone caller of one bucket finishes in finitely many passes if and only if its request fits the bucket |
| Limiter.OutOfStepPass | backend/arena/riot/rate_limit.py:210-220 | Two buckets out of step: a pass takes one's token, is refused by the other, and leaves them out of step |
| Limiter.LoneCallerCanLivelock | backend/arena/riot/rate_limit.py:210-220 | From there the loop does not end, for any number of passes: a run in which `LimiterPasses.AcquireFinishesIff` says no |
| LimiterPasses.PassTriesEach | backend/arena/riot/rate_limit.py:211-211 | A pass over distinct buckets is one script call on each, at its own time, and nothing else |
| LimiterPasses.GrantedEverywhere | backend/arena/riot/rate_limit.py:211-219 | A pass is granted everywhere exactly when it finds n tokens in every bucket |
| LimiterPasses.RefuserRecovers | backend/arena/riot/rate_limit.py:78-89 | A bucket that refused holds n tokens when the next pass comes to it, unless the sleep was cut short |
| LimiterPasses.NextPassFinishesIff | backend/arena/riot/rate_limit.py:210-220 | After any refused pass over any distinct buckets the next is granted everywhere if and only if every bucket that granted, and where the sleep was cut short every bucket, holds n tokens by then |
| LimiterPasses.AcquireFinishesIff | backend/arena/riot/rate_limit.py:201-220 | An acquire over several buckets ends if and only if its first pass finds n tokens everywhere or that happens after some refused pass |
| LimiterPasses.HoldsFromFirstGrant | backend/arena/riot/rate_limit.py:149-156 | A caller ever waits on tokens it has taken if and only if the first pass that takes any is refused by another bucket |
| LimiterPasses.HoldsWhileWaitingIff | backend/arena/riot/rate_limit.py:149-156 | As long as the first wait fits the longest sleep, that is if and only if on the first pass some bucket holds n tokens and some holds less |
| LimiterPasses.TwoPassesSuffice | backend/arena/riot/rate_limit.py:201-220 | A lone caller whose buckets each hold less than n or at least 2n tokens is through in two passes |
| LimiterPasses.LookedUpBeforehand | backend/arena/riot/rate_limit.py:63-69 | Without lag what a pass finds is what the caller can look up before the call |
| Limiter.LivelockIsReachable | backend/arena/riot/rate_limit.py:189-199 | One earlier request on one of the buckets brings about that state |
| LimiterFleet.EachKeyRunsItsBucket | backend/arena/riot/rate_limit.py:184-199 | However the calls of all workers on all buckets interleave, each key goes through a run of its own bucket |
| LimiterFleet.FleetCeiling | backend/arena/riot/rate_limit.py:184-255 | So what the scripts grant the whole fleet on one key obeys the ceiling |
| LimiterFleet.PenaltyStopsEverybody | backend/arena/riot/rate_limit.py:222-255 | After a penalty in the fleet no script call of any worker on that key hands out a token before it is over, within the key TTL |
| LimiterFleet.FleetKeeps | backend/arena/riot/rate_limit.py:201-220 | In every interleaving of acquires, each step one script call, the replies of a pass are grants in the log, and a finished acquire's last pass was granted everywhere |
| LimiterFleet.NobodyIsStuck | backend/arena/riot/rate_limit.py:210-220 | In every interleaving an unfinished acquire can make its next call from its wake on |
| LimiterFleet.RefusedPassSleeps | backend/arena/riot/rate_limit.py:212-220 | After a refused pass an acquire makes no call before its longest wait, or the longest sleep, has gone by, whatever the fleet does |
| LimiterFleet.FinishedAcquiresCeiling | backend/arena/riot/rate_limit.py:184-255 | In every interleaving, n times the number of finished acquires of n tokens that name a bucket and took it inside a window is at most its ceiling |
| CircuitBreaker.CircuitBreaker.Prune | backend/arena/riot/circuit_breaker.py:79-83 | Stale failures are popped off the front of the deque |
| CircuitBreaker.CircuitBreaker.BeforeCall | backend/arena/riot/circuit_breaker.py:85-96 | The gate: rejects while the cooldown runs, else admits, opening half-way when it was open |
| CircuitBreaker.CircuitBreaker.Succeed | backend/arena/riot/circuit_breaker.py:98-101 | A success clears the failures and closes |
| CircuitBreaker.CircuitBreaker.Fail | backend/arena/riot/circuit_breaker.py:103-116 | A failure reopens a half-open breaker, else is remembered, and trips at the threshold |
| CircuitBreaker.PrunedCounts | backend/arena/riot/circuit_breaker.py:79-83 | On an ordered deque, popping the front leaves exactly the failures inside the window |
| CircuitBreaker.ClosedRemembers | backend/arena/riot/circuit_breaker.py:98-116 | In every interleaving a closed breaker's deque counts all failures since the last success that can still matter |
| CircuitBreaker.TripsExactly | backend/arena/riot/circuit_breaker.py:103-116 | A failure trips a closed breaker if and only if the threshold of failures since the last success lie in the window |
| CircuitBreaker.DequeIsHeld | backend/arena/riot/circuit_breaker.py:98-116 | In every state the deque is the failures since the last success or trip by count, without those that only reopened the breaker |
| CircuitBreaker.TripsIff | backend/arena/riot/circuit_breaker.py:103-116 | A failure trips a breaker, closed or already open, if and only if the threshold of these lies in the window, or it is half open |
| CircuitBreaker.NeverHalfOpenBetween | backend/arena/riot/circuit_breaker.py:118-131 | Between calls that do not overlap the breaker is never half open |
| CircuitBreaker.StaysOpen | backend/arena/riot/circuit_breaker.py:85-131 | After a trip, until a call succeeds, it is open between calls, one cooldown later for each upstream call |
| CircuitBreaker.RetriesAreSpaced | backend/arena/riot/circuit_breaker.py:85-131 | The k-th upstream call after a trip starts at least k cooldowns after it, until one succeeds |
| CircuitBreaker.CooldownIsKeptIff | backend/arena/riot/circuit_breaker.py:85-116 | Over every ordered interleaving, a gate within one cooldown of a trip lets its call through if and only if a success was recorded since and no trip after it |
| CircuitBreaker.CooldownEndsIff | backend/arena/riot/circuit_breaker.py:91-96 | After its last trip, with no success and no gate past the cooldown since, a gate passes if and only if a full cooldown is over, and then turns the breaker half open |
| CircuitBreaker.RefusedIff | backend/arena/riot/circuit_breaker.py:85-116 | Over every ordered interleaving a gate is refused if and only if it comes less than one cooldown after the last trip with no success in between |
| CircuitBreaker.HalfOpenAdmitsAll | backend/arena/riot/circuit_breaker.py:85-116 | From the gate that turns the breaker half open to the next outcome every gate lets its call through, so there is a single trial if and only if no other gate comes before that outcome |
| CircuitBreaker.TwoTrialsHappen | backend/arena/riot/circuit_breaker.py:85-116 | For every configuration a run of genuine calls sends two trials through one half-open breaker |
| CircuitBreaker.LateSuccessCloses | backend/arena/riot/circuit_breaker.py:98-116 | For every configuration a run of genuine calls in which a success recorded after a trip lets a call upstream less than one cooldown after it |
| Coalesce.FetchCoordinated | backend/arena/riot/coalesce.py:107-156 | Leader and follower paths go through exactly the modelled steps and end within 3 awaits per poll plus 5 |
| Coalesce.AdvanceProgresses | backend/arena/riot/coalesce.py:136-156 | Every step keeps the poll budget and leaves fewer steps to go |
| Coalesce.TraceIsBounded | backend/arena/riot/coalesce.py:107-156 | Whatever the environment answers, a fetch is over within its bound |
| Coalesce.RunKeeps | backend/arena/riot/coalesce.py:70-156 | Registry, joiners, lease and values stay consistent over every run of calls, steps, expiries, evictions and crashes |
| Coalesce.AtMostOneLoader | backend/arena/riot/coalesce.py:121-156 | While no lease is lost under its holder and no follower gives up, at most one loader runs in the fleet |
| Coalesce.OneFetchPerWorker | backend/arena/riot/coalesce.py:85-105 | Per process at most one coordinated fetch of a key is in flight |
| Coalesce.JoinersGetTheOutcome | backend/arena/riot/coalesce.py:86-105 | A joiner returns the outcome of the fetch it joined, value or exception |
| Coalesce.OnlyLoadedValues | backend/arena/riot/coalesce.py:116-156 | Whatever is returned was stored from the start or loaded by somebody |
| Coalesce.NobodyWaitsForEver | backend/arena/riot/coalesce.py:136-156 | A task inside a fetch is never blocked and each step of its own takes it nearer to the end |
| Coalesce.LostLeaseTwoLoaders | backend/arena/riot/coalesce.py:143-154 | For every configuration a run in which a lease expires under its loader has two loaders |
| Coalesce.ImpatientFollowerTwoLoaders | backend/arena/riot/coalesce.py:136-156 | For every poll interval and timeout a run in which a follower uses up its polls has two loaders |
| Coalesce.StoredIsReturned | backend/arena/riot/coalesce.py:116-142 | In every run a task about to read or poll when a value is stored returns what is stored by then, however many steps of others come first |
| Coalesce.LoaderOutcomeIsReturned | backend/arena/riot/coalesce.py:121-156 | In every run a task returns what its own loader gave, value or exception, at once or after releasing the lease, however many steps of others come between; a value is stored |
| Coalesce.LoadsAgainOnlyPastRead | backend/arena/riot/coalesce.py:107-156 | While a value stays stored nobody starts loading but a task that was past its read when it was stored, whatever leases and followers do |
| Coalesce.LoadsAgainIff | backend/arena/riot/coalesce.py:107-156 | With a value stored, some continuation without eviction, lost lease or impatient follower takes a task into the loader if and only if it is past its read |
| Coalesce.LoadedTwiceInSequence | backend/arena/riot/coalesce.py:115-133 | And that is reached for every configuration: a run without lost lease or impatient follower in which a stored value is loaded again |
| CrawlGraph.ListedIsFirstIds | backend/arena/ingest/crawler.py:95-109 | A list is exactly the first `ids_page*ids_max_pages` ids of each queue, queue by queue |
| CrawlGraph.IdsFailIff | backend/arena/ingest/crawler.py:95-109 | A list fails if and only if behind full pages some queue has a page whose request fails |
| CrawlGraph.FailureListsNothing | backend/arena/ingest/crawler.py:154-167 | One failed page leaves the whole list empty, whatever came before it |
| CrawlGraph.WindowsAdjoin | backend/arena/ingest/crawler.py:116-125 | The window is half open: of two windows that meet a match with a start time is in exactly one |
| CrawlGraph.NewMatchInNumbers | backend/arena/ingest/crawler.py:188-199 | A match is new if and only if unknown, readable, eight teams of two or six of three by mode, and inside the window in milliseconds |
| CrawlGraph.PlayersAreEverybody | backend/arena/ingest/crawler.py:206-210 | The players followed from a match are exactly the participants of all its teams |
| CrawlGraph.PlayersBySeat | backend/arena/ingest/crawler.py:206-210 | They come team by team, each participant at its own place |
| CrawlGraph.FreshEffect | backend/arena/ingest/crawler.py:205-210 | Those enqueued are the named ones not queued before, once each, in order of first appearance |
| CrawlGraph.AfterRests | backend/arena/ingest/crawler.py:144-210 | The crawl's invariant after any number of entries taken off the queue |
| CrawlGraph.FinishedIsEmpty | backend/arena/ingest/crawler.py:149-150 | On a finite player universe the queue runs empty within the seeds plus everyone in reach |
| CrawlGraph.QueueSpansOneLevel | backend/arena/ingest/crawler.py:145-210 | Queue depths never fall and what is left spans at most one level |
| CrawlGraph.QueuedAtHopDistance | backend/arena/ingest/crawler.py:145-210 | Exactly the players within the depth are queued, each at its shortest hop distance; each once iff the seeds are distinct |
| CrawlGraph.ListedIsFound | backend/arena/ingest/crawler.py:168-210 | What a player within d hops lists is found at depth d at most |
| CrawlGraph.YieldsExactlyTheNewMatches | backend/arena/ingest/crawler.py:172-210 | The yield is each new, readable, complete, in-window match listed within the depth, once, and nothing else |
| CrawlGraph.FoundAtNearestLister | backend/arena/ingest/crawler.py:172-210 | Matches come in order of the hop distance of the nearest player who lists them |
| CrawlGraph.AllHopsIff | backend/arena/ingest/crawler.py:48-60 | Hops over the matches the crawl follows and over all listed matches reach the same players if and only if nobody is met only in a known, incomplete or out-of-window match |
| Crawler.PopBatch | backend/arena/ingest/crawler.py:150-185 | Working a batch at once equals taking its entries one by one |
| Crawler.CandidatesSuffice | backend/arena/ingest/crawler.py:172-179 | Fetching each id of a batch once has the effect of resolving it wherever it is listed |
| Crawler.PagesCounted | backend/arena/ingest/crawler.py:98-108 | The calls counted for a queue are its full pages from the first on and the one that ends them, up to the page limit |
| Crawler.MatchCrawler.constructor | backend/arena/ingest/crawler.py:89-93 | A crawler starts from the caller's set of known ids with no calls made |
| Crawler.MatchCrawler.Tick | backend/arena/ingest/crawler.py:111-114 | Counts a call and signals the budget as soon as it is exceeded |
| Crawler.MatchCrawler.PagesFor | backend/arena/ingest/crawler.py:98-108 | One queue's pages up to the first short or empty one, or the budget signal |
| Crawler.MatchCrawler.IdsFor | backend/arena/ingest/crawler.py:95-109 | All queues' ids in order, the first failure, or the budget signal |
| Crawler.MatchCrawler.ListBatch | backend/arena/ingest/crawler.py:154-167 | A list per entry, empty where it failed, unless the budget ran out |
| Crawler.MatchCrawler.AddCandidates | backend/arena/ingest/crawler.py:172-179 | Ids known to the crawl or listed earlier in the batch are skipped |
| Crawler.MatchCrawler.KeepWithin | backend/arena/ingest/crawler.py:151-153 | Entries beyond the depth are dropped and list nothing |
| Crawler.MatchCrawler.BuildCandidates | backend/arena/ingest/crawler.py:172-179 | The ids of a whole batch to fetch, each where it is listed first |
| Crawler.MatchCrawler.EnqueueTeam | backend/arena/ingest/crawler.py:207-210 | The players of a team join the queue once, in order, unless queued before |
| Crawler.MatchCrawler.Enqueue | backend/arena/ingest/crawler.py:205-210 | The players of a yielded match join the queue one level down |
| Crawler.MatchCrawler.TickAll | backend/arena/ingest/crawler.py:180-181 | Every fetch of a batch is counted before the first is made |
| Crawler.MatchCrawler.ResolveOne | backend/arena/ingest/crawler.py:185-210 | One payload: resolved, filtered, yielded, followed; the match limit is looked at right after the yield |
| Crawler.MatchCrawler.ResolveBatch | backend/arena/ingest/crawler.py:185-210 | All payloads of a batch in turn, up to the match limit |
| Crawler.MatchCrawler.WorkBatch | backend/arena/ingest/crawler.py:150-212 | One batch equals the graph crawl of its entries, or stops at a budget |
| Crawler.BudgetDecides | backend/arena/ingest/crawler.py:111-114 | Without a match limit the call budget ends a crawl if and only if some number of its batches costs more calls than it |
| Crawler.MatchCrawler.Discover | backend/arena/ingest/crawler.py:127-212 | The yield is the finished crawl's; on a call-budget stop exactly that of the batches the budget pays in full; on a match limit at least one and exactly the limit; calls to the source never exceed the budget |
| Arena.AddToTeam | backend/arena/riot/arena.py:291-299 | A participant joins the team with its id, which takes its first positive placement, or opens one behind the others |
| Arena.ParseArenaMatch | backend/arena/riot/arena.py:236-309 | The parser, loop and errors, computes the parsed match |
| Arena.SubteamsPartition | backend/arena/riot/arena.py:257-301 | Each participant is in one subteam, that of its id, in payload order; ids are distinct; placement is the first positive one; teams come out by ascending placement, unplaced last, ties as listed |
| Arena.CompleteHeadcount | backend/arena/riot/arena.py:144-150 | A complete match has the 16 or 18 participants of its mode |
| Arena.CompleteParse | backend/arena/riot/arena.py:236-309 | A complete parse came from a payload with 16 or 18 participants |
| Arena.EligibleIff | backend/arena/riot/arena.py:214-236 | A participant is eligible if and only if the match ran 90 seconds without early surrender, it was placed, and played 90 seconds where its time is given |
| Arena.EligibleInMatch | backend/arena/riot/arena.py:214-299 | So in a parsed match an eligible participant is placed, its team too, and the match long enough |
| ArenaPayload.ParsedCounters | backend/arena/riot/arena.py:271-290 | Each counter of a parsed participant is the one its Riot name stands for |
| ArenaPayload.ParsedStanding | backend/arena/riot/arena.py:259-272 | Ids, names and placement come from their own fields, the subteam's placement first |
| ArenaPayload.ParsedPicks | backend/arena/riot/arena.py:188-206 | Augments are the positive numbers of slots 1 to 6, items those of slots 0 to 6, in slot order with repeats, without the trinket |
| ArenaPayload.ReadableIff | backend/arena/riot/arena.py:257-290 | A participant is read if and only if its numbers are numbers or, where that may be, left empty |
| ArenaPayload.ParsedHeader | backend/arena/riot/arena.py:243-255 | Id, queue, duration and mode are the payload's; the start is the start stamp, else the creation, else the end less the duration |
| Arena.TallyCounts | backend/arena/riot/arena.py:177-179 | The counter lists every value once with its number of occurrences |
| Arena.TallyInOrder | backend/arena/riot/arena.py:177-179 | And in the order of first appearance |
| Arena.UnlistedQueueMode | backend/arena/riot/arena.py:172-185 | An unlisted queue in Arena's game mode gets the mode of the subteam size that occurs most often, the first seen among ties, and is refused only without participants or for a size that no mode has |
| Codec.ParticipantRoundTrip | backend/arena/riot/arena.py:336-363 | A participant survives the codec, augment repeats and item order included |
| Codec.SubteamRoundTrip | backend/arena/riot/arena.py:332-364 | So does a subteam, with the order of its participants |
| Codec.RoundTrip | backend/arena/riot/arena.py:323-414 | Decoding an encoded match gives the match back |
| Fingerprint.CountIsHistory | backend/arena/integrity/fingerprint.py:86-99 | The count is the number of match ids last observed under the key inside the window: no trimming, expiry or redelivery shows |
| Fingerprint.RunFaithful | backend/arena/integrity/fingerprint.py:86-99 | After any history the live part of a set inside any later window is what the history says |
| Fingerprint.RedisStore.Pipeline | backend/arena/integrity/fingerprint.py:92-97 | The four piped commands and their replies |
| Fingerprint.RedisStore.ObserveLobby | backend/arena/integrity/fingerprint.py:86-99 | One lobby observation and the count it returns |
| Fingerprint.RedisStore.PipelineAll | backend/arena/integrity/fingerprint.py:143-152 | In the pipeline of all keys the third reply of each group of four is that key's own count |
| Fingerprint.RedisStore.ObservePairs | backend/arena/integrity/fingerprint.py:133-152 | Each distinct pair key gets its own count from history, in one observation per key |
| Fingerprint.SubteamPairKeys | backend/arena/integrity/fingerprint.py:46-53 | The nested loops list the keys of every member with everyone after it |
| Fingerprint.PairKeysForgetOrder | backend/arena/integrity/fingerprint.py:46-49 | The keys depend only on who is in the subteam |
| Fingerprint.EveryPairIsKeyed | backend/arena/integrity/fingerprint.py:36-53 | Any two players of a subteam have a key, the same whichever is named first |
| Fingerprint.KeyNamesItsPair | backend/arena/integrity/fingerprint.py:36-43 | With ids without commas and a hash without collisions two pairs have the same key if and only if they are the same pair |
| Fingerprint.OnlyPairsAreKeyed | backend/arena/integrity/fingerprint.py:46-53 | Then the keys of a subteam are those of its pairs and no others |
| Params.RenormHasMeanOne | backend/arena/rating/params.py:28-31 | A renormalised weight curve has mean 1 |
| Params.DefaultsAreSound | backend/arena/rating/params.py:37-130 | The shipped parameters pass validation, and a new player starts at 650 points |
| Caps.DecisionIsCandidate | backend/arena/rating/caps.py:200-233 | The decision is the raw delta, a bound or the floor, the label says which, and "none" means nothing moved |
| Caps.DecisionIsWithin | backend/arena/rating/caps.py:200-233 | Between ordered bounds the decision stays within them and reaches the floor as far as the gain cap allows |
| Caps.DecisionIsMonotoneProjection | backend/arena/rating/caps.py:200-233 | A larger raw delta never gets less, and deciding again changes nothing |
| Caps.CompositeIsBounded | backend/arena/rating/caps.py:145-147 | The win-side multiplier stays between its floor and ceiling |
| Caps.CompositeIsNearest | backend/arena/rating/caps.py:145-147 | It is as near to the product of override and high-CR scale as those allow |
| Caps.LossCapsMirrorGains | backend/arena/rating/caps.py:150-170 | The loss cap is that of the loss curve, without one the flat clamp, without that the gain cap of the mirrored placement |
| Caps.OverrideOnlyRaises | backend/arena/rating/caps.py:119-131 | The mismatch override lies between 1 and its maximum, and exceeds 1 only for a trusted estimate above the threshold |
| Caps.OverrideRises | backend/arena/rating/caps.py:119-131 | For a trusted estimate above the threshold each spread of the mean over the lobby adds the slope, up to the maximum |
| Caps.HighCrTakesAShare | backend/arena/rating/caps.py:134-142 | The high-CR scale takes off a share of its maximum reduction, never none and never all |
| Caps.HighCrFalls | backend/arena/rating/caps.py:134-142 | With a rising logistic curve more points never mean a larger scale |
| Modifiers.MultipliersAreBounded | backend/arena/rating/modifiers.py:45-90 | Streak, soft-cap and penalty multipliers are bounded and act only on the side they are meant for |
| Modifiers.StreakGrowsEvenly | backend/arena/rating/modifiers.py:45-57 | Each win adds the same part of the bonus and each loss of the dampener, up to the threshold |
| Modifiers.StreakCountsTheLastRun | backend/arena/rating/modifiers.py:60-63 | After any list of results the streak is the signed length of the last run of equal ones |
| Engine.RatePlayer | backend/arena/rating/engine.py:107-234 | One player's pipeline with points and mean reassigned by cap and floor |
| Engine.Rate | backend/arena/rating/engine.py:63-236 | The whole match: errors, void, canonical order, one result per player |
| EngineLaws.RatedIff | backend/arena/rating/engine.py:63-91 | A match is rated if and only if parameters are valid, there are two teams or more and none is empty, and voided if and only if nobody is eligible |
| EngineLaws.RatedByPlacement | backend/arena/rating/engine.py:76-116 | The update is asked once, about the match's teams in order of placement, each under its own placement and each player with its own mean and sigma; every result is that seat's own answer, base step, win and streak included |
| EngineLaws.BetterPlacedGainsNoLess | backend/arena/rating/engine.py:97-112 | Under an update that never favours the worse rank of two teams rated alike, the better placed of two equal players never gets the smaller base step |
| EngineLaws.FactorsAreThePlayers | backend/arena/rating/engine.py:109-118 | The multipliers of a step are those of the player's own placement, placement matches, streak, points and flags |
| EngineLaws.PointsMatchMean | backend/arena/rating/engine.py:126-203 | Through dispersion clamp, sigma freeze, back-solved mean and both floors, `cr_after == to_cr(mu_after, sigma_after) >= 0` |
| EngineLaws.IdentityHoldsIff | backend/arena/rating/engine.py:137-203 | The unfloored identity survives a match if and only if the uncapped result was not below zero or the cap layer moved it |
| ExplainCases.UncappedLossLosesIdentity | backend/arena/rating/engine.py:137-203 | A loss of 20 from 10 points leaves 0 points and a mean that stands for -10 |
| EngineLaws.FreezeInterpolates | backend/arena/rating/engine.py:131-135 | A boosting flag leaves sigma between its old and its updated value: the old one at factor 1, the updated one unflagged |
| EngineLaws.StepIsLimited | backend/arena/rating/modifiers.py:93-98 | Whatever the multipliers, no step is longer than the dispersion limit |
| EngineLaws.CutIsFlagged | backend/arena/rating/engine.py:118-127 | A step is flagged as clamped exactly when it is not the product of the recorded multipliers |
| EngineLaws.MeanLeavesOutSelf | backend/arena/rating/engine.py:100-156 | The lobby mean of a player is the mean over everybody else |
| EngineLaws.SigmaStaysPositive | backend/arena/rating/engine.py:131-135 | Freezing any share of the shrinkage keeps sigma positive |
| EngineLaws.SettledDelta | backend/arena/rating/engine.py:147-214 | Points move by the decided delta, cut off where the display reaches zero |
| EngineLaws.FactsAreDecided | backend/arena/rating/engine.py:154-193 | The recorded cap facts are one decision's bounds, floor, value and label; a boosting factor takes its share of the floor, all of it at 1 |
| EngineLaws.DeltaWithinCaps | backend/arena/rating/engine.py:154-203 | For any parameters whose bounds lie around zero, the delta lies within them and, unflagged, reaches the floor |
| EngineLaws.DefaultCurves | backend/arena/rating/caps.py:50-84 | The shipped curves: gain caps at most 50, loss caps 30 to 68, floors exactly in the top half and below the gain cap |
| EngineLaws.DefaultsPayFairly | backend/arena/rating/engine.py:154-203 | With the shipped caps the delta lies between the negated loss cap and 1.25 gain caps; an unflagged top-half finisher gains its floor |
| EngineLaws.CanonicalForgetsOrder | backend/arena/rating/engine.py:76-78 | Listings that differ in order have the same canonical order |
| EngineLaws.ListingOrderIsIrrelevant | backend/arena/rating/engine.py:63-98 | Permuting teams and participants with distinct ids leaves the whole result unchanged |
| Season.PointsSoundIff | backend/arena/services/rating_service.py:177-195 | Over every run of matches and resets `cr == to_cr(mu, sigma) >= 0` and `peak_cr >= cr`, if and only if new rows start at or above zero |
| Season.RunKeepsPoints | backend/arena/services/rating_service.py:318-334 | The same, from the start condition |
| Season.ResetKeepsPoints | backend/arena/services/season_service.py:182-240 | The soft reset of everyone who has played leaves points, mean, sigma and peak in step |
| Season.ResetPullsToAnchor | backend/arena/rating/modifiers.py:104-117 | The reset carries exactly those who have played: means keep the factor's share of their distance to the anchor, sigma grows up to its cap, counters start over |
| Season.ResetKeepsOrder | backend/arena/rating/modifiers.py:104-117 | Between two carried players it keeps the factor's share of the gap, and with a positive factor the order |
| Season.VoidLobbyEnrols | backend/arena/services/rating_service.py:177-195 | A voided match creates rows with unfloored points, which is how a bad start gets in |
| Season.RunKeepsSigmas | backend/arena/rating/engine.py:92-98 | The engine never hands Plackett-Luce a sigma that is not positive, over any run |
| Season.RunCountsPlacements | backend/arena/services/rating_service.py:318-334 | Over every run the placement matches left are what the matches of the season have not used up |
| Season.SeasonPaysFairly | backend/arena/rating/engine.py:154-203 | After any season every rated player of the next 6- or 8-team match is paid within the shipped caps and floors |
| Season.PersistedTouchesRated | backend/arena/services/rating_service.py:318-334 | Persisting counts one match per rated result and leaves everybody else's row alone |
| Explain.ExplainRow | backend/arena/rating/explain.py:200-428 | The ledger built entry by entry on a running total is the list of contributions with its prefix sums |
| ExplainLaws.LedgerReconciles | backend/arena/rating/explain.py:242-428 | At every fidelity running totals are prefix sums, entries plus residual make up the delta, and the residual is at most 1e-6 |
| ExplainLaws.ChainTelescopes | backend/arena/rating/explain.py:227-263 | The chain's entries make up the engine's final step, in points |
| ExplainLaws.EntriesFollowTheChain | backend/arena/rating/explain.py:226-263 | Entry by entry, for every eligible row: each multiplier takes the running total to its own multiple, in the engine's order, and dispersion takes it to the final step |
| ExplainLaws.MissingPartIsDerived | backend/arena/rating/explain.py:279-313 | A row with cap facts but without raw delta or confidence shows what is stored and ends its cap entry on the decided value |
| ExplainLaws.UncappedRowCloses | backend/arena/rating/explain.py:272-278 | Without caps a missing confidence is what the chain leaves of the delta, with nothing left over |
| ExplainLaws.UnrecoverableSays | backend/arena/rating/explain.py:314-393 | A row without cap facts says that its bounds are gone exactly when its lobby is, and that zero points are ambiguous exactly when it ended there |
| ExplainLaws.FreshRetellsTheEngine | backend/arena/rating/explain.py:165-197 | Explaining a fresh result gives the engine's confidence, bound, limits, raw delta and capped value back |
| ExplainLaws.FreshChainIsTheEngines | backend/arena/rating/explain.py:227-262 | Its multiplier entries carry the engine's own multipliers, the recomputed soft cap included, and the dispersion entry is not zero exactly when the engine clamped |
| ExplainLaws.FreshGap | backend/arena/rating/explain.py:279-313 | What its entries miss is what the zero floor swallowed before the cap, less what it had swallowed before the match |
| ExplainLaws.FreshIsExactIff | backend/arena/rating/explain.py:394-428 | It is exact, with no adjustment, no zero-floor entry and no residual, if and only if those two amounts agree |
| ExplainLaws.FreshIsPartialIff | backend/arena/rating/explain.py:399-428 | Every fresh explanation: a gap up to 1e-6 is the residual; a larger one is the last entry, and the explanation partial with an unexplained adjustment if and only if the points did not end at zero with the other entries below |
| ExplainCases.ResidualReachesEps | backend/arena/rating/explain.py:406-416 | A concrete result with a residual of 1e-6 |
| ExplainCases.LiftedResultIsPartial | backend/arena/rating/explain.py:403-415 | A concrete result lifted by the loss cap, with 45 points in an adjustment |
| ExplainCases.NextGainIsPartial | backend/arena/rating/explain.py:403-415 | The gain of 20 after an uncapped loss that lost the identity, with -10 points in an adjustment |
| ExplainLaws.ProbeIsSound | backend/arena/rating/explain.py:314-393 | With the true lobby context, the probe says "none" exactly when the delta is 1e-6 away from every limit; then the cap moved nothing, a moved delta is lumped, and the bound named is the engine's unless limits nearly coincide |
| ExplainLaws.ProbeAgreesIff | backend/arena/rating/explain.py:347-366 | Where the probe says "none" its entries are those of the persisted facts if and only if the state was on the unfloored identity |
| ExplainCases.BothVerdictsHappen | backend/arena/rating/explain.py:343-384 | Concrete rows: one the probe calls untouched, one it finds on the loss cap |
| Replay.RatingService.ProcessMatch | backend/arena/ingest/replay.py:98-98 | The service rates one match with the integrity check it has been given |
| Replay.ReplayChronological | backend/arena/ingest/replay.py:54-100 | Sort, skip, swap the integrity check, process and count |
| Replay.Prepare | backend/arena/ingest/replay.py:70-97 | The two loops over a match collect its participants in order and the ineligible players |
| Replay.ToldOneByOne | backend/arena/ingest/replay.py:70-97 | Participant by participant the service is told the player of the puuid under the team's id and placement, and as ineligible exactly the players of participants that do not count |
| Replay.ReplayRatesTheKnown | backend/arena/ingest/replay.py:60-100 | Exactly the matches in which everybody has a puuid and a player are rated, by ascending start time, and counted; the others might as well not be listed |
| Replay.TiesAsListed | backend/arena/ingest/replay.py:60-60 | Matches that start together are rated in the order listed |
| Replay.DiscoveryOrderIsIrrelevant | backend/arena/ingest/replay.py:60-100 | With distinct start times the order of discovery changes neither the state nor the count |
| Sorting.SortForgetsOrder | backend/arena/rating/engine.py:77-78 | Sorting without ties does not depend on the order of its input |
| Sorting.SortIsStable | backend/arena/riot/arena.py:301-301 | Elements that tie keep the order they were listed in |

## Left out

- Limiter.RedisTokenBucketLimiter.Acquire: the loop takes a number of passes at most, because it need not end; what it does without a limit is stated by `LoneCallerFinishesIff`, `AcquireFinishesIff` and `LoneCallerCanLivelock` over all numbers of passes.
- LimiterPasses.AcquireFinishesIff: of a lone caller of distinct buckets; its condition is on the passes as they come, and only the first wait on held tokens is characterised by what can be looked up before the call.
- LimiterFleet.FinishedAcquiresCeiling: API keys that share their last eight characters share their buckets, as in the source; keys of Redis that coincide are taken to configure the same bucket.
- Crawler.MatchCrawler.ListBatch: the gathered requests of a batch are made one after another, and the whole batch is listed before the budget signal is acted on, as the gather does; concurrent interleavings within one batch are not modelled, nor is a source that changes during a crawl.
- Crawler.MatchCrawler.Discover: requires a batch size of at least one; with zero the source's loop does not end.
- Coalesce.AtMostOneLoader: for one key; cancellation and Redis outages are absent steps, a crash of a worker is modelled.
- Season.SeasonPaysFairly: takes the placements to be between 1 and the number of teams, as the match contract says; other placements have no caps.
- ExplainLaws.ProbeIsSound: the lobby mean and floor multiplier supplied are the true ones; what the service layer assumes for old rows is not modelled.
- Engine.Rate: parameters with a zero scale, streak threshold, mismatch spread or steepness, or cap curves whose length is not their team count, raise arithmetic or index errors in the source and are excluded.
- Arena.ParseArenaMatch: numerals in strings, fractional numbers and the text of nested values are not converted; a value of those kinds where a number is expected is an error here; only ASCII letters change case.
- Fingerprint.RedisStore.ObserveLobby: the fingerprint of a lobby, a hash of its sorted player ids, is an input.
- Fingerprint.CountIsHistory: windows of at least one second and a clock that does not run backwards.
- Float rounding, infinities and NaN: numbers are reals, and the infinite bounds of a placement without a curve are a case of their own.
- The Plackett-Luce update, the logistic curve and SHA-256: parameters, of which shape, positive sigmas and values in (0, 1) are used, and a rising curve, a hash without collisions or an update that does not favour worse ranks only where a lemma says so.
- Rows written by the rating service other than season states, the integrity verdicts themselves, premade and RDS scoring.
- The random match id and the clock reading that replay puts into a match without a start time.
- HTTP, retries and backoff, header parsing, routers, database models, migrations, front ends, the tournament engine, simulations and diagnostics.
