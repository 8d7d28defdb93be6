# SAGE: drains, breakers, blocks, leases and feeds, verified

SAGE is a gateway that runs as many replicas and keeps its routing decisions in memory while
sharing them through Redis. This project models the parts of it that must stay right across
expiry, lost writes, retries and other replicas, and proves what each of them promises over whole
runs. `dafny verify dfyconfig.toml` checks it.

Each component has the same shape. What an operation does is given once as a function on values:
per key, per host, per slot, or per step of a protocol. Where the code changes fields in place, a
class with those fields is proved to do exactly that function. The theorems are about every run of
those functions.

* **Drain propagation** (`DrainKeys`, `DrainMemory`, `DrainRecords`, `DrainProtocol`,
  `DrainAccounts`, `DrainPromise`). One key on one replica and in Redis, as a transition system: admin calls that
  change the local map and then take the lock, writes that are sent, land and finish at different
  moments, deletes that may be lost, and a refresh in seven phases. Its history fields (the number
  of decisions, the last one, the last local change, whether a delete was lost) are what the
  theorems speak of. Time does not go back, a write lands before it finishes or never, and one
  refresh runs at a time.
* **Circuit breaker** (`BreakerModel`, `BreakerRuns`). The failure-rate window with its hysteresis
  and escalation memory against a log of outcomes per domain, and the merge with the shared view.
* **Auto-drain engine** (`MinuteRing`, `AutoDrainCounts`, `AutoDrainMethods`, `AutoDrainWindow`,
  `AutoDrainMethodSums`, `AutoDrainOutlier`, `AutoDrainLogged`, `AutoDrainEngine`, `AutoDrainRuns`,
  `AutoDrainCalls`, `Medians`, `AutoDrainPeers`, `AutoDrainDecisions`,
  `AutoDrainDecider`, `AutoDrainLimits`, `AutoDrainReleases`, `AutoDrainFleet`). Counters in a ring of ten minutes
  against the log of accepted hook calls; the chain-answer comparison; the pool-wide guard; and the
  caps, rate limits and suppression over every run in which people set and release drains too.
  Shares and rates are reals.
* **Method blocks** (`MethodBlocks`, `MethodBlockStore`, `MethodBlockRuns`). Marks with two
  lifetimes and sticky evidence, escalation to a host-level block, the cap and the sweep.
* **Leader lease** (`Lease`). Any number of instances and one Redis key, with replies, timeouts,
  fallbacks, and requests executed after their sender gave up on them.
* **Probe stream reader** (`ProbeIds`, `ProbeStream`, `ProbeRuns`, `ProbeGaps`). Runs that end
  anywhere, a panic in the callback included, on a stream that is trimmed while it is read, and
  what restarts skip or go back for.
* **`${VAR}` expansion** (`EnvExpansion`). The scanner against a tokenizer and a renderer.

## What the proofs found

* *"This pod only" is not kept when Redis still holds a field for the key that runs out before the
  drain does.* The refresh that sees that field expired retries the pending drain, lands it, and
  then its own clean-up deletes the field by name. A refresh later the drain is gone although its
  time is not up. `PromiseKeptExactlyWhen` proves, for every reachable state in which a Set's write
  has failed, that the promise is kept if and only if Redis holds no such field and no refresh that
  may still retry the drain has seen one; `StaleParkedReachable` is a run that reaches the broken
  case.
* *The fleet cap counts only services the instance has a pool for.* Over live auto drains left on
  other services by an earlier leader it can set more than five. `FleetCapExactlyWhen` proves that
  the cap holds over every run if and only if at most five are live at the start and none of them
  is elsewhere; `FleetCapMissesUnknown` is one input.
* *Leadership flags overlap from one TTL on, not later.* `StaleLeaderOverlaps` shows that the bound in
  `LeaseSafety` is tight.
* *A feed without a replay window never reads.* Before anything was read, a window of zero or less
  asks XRANGE to start at `$`, which Redis refuses, so every Run ends there (`NoWindowNeverReads`).
  `NeverReadsExactlyWhen` proves that a fresh reader can read nothing if and only if none of its
  Runs has a window to start from.
* *The resume point does reach back past the window*, against the comment on it: after an empty
  replay the reader goes on from the resume point. `OlderExactlyWhen` proves that a Run may hand out
  an entry from before its window if and only if the resume point is before it, nothing is replayed,
  and an untrimmed foreign entry lies between; `OlderEntryHanded` is one input.
* *A restart after an outage longer than the window skips what lies between*, and so does one after
  the entry to resume at was trimmed. `ExactlyOnce` proves when nothing is missed, in both
  directions; `RestartSkips` and `TrimmedSkipped` are inputs on which something is.

## Model

| member | source | states |
|---|---|---|
| DrainKeys.FieldRoundTrip | drain/redis.go:499-520 | parsing a key's field gives the key back if and only if service and operator are non-empty, no part holds a colon, the operator is lower-case and the RPC type is not spelled "all" |
| DrainKeys.ParsedFieldIsJoin | drain/redis.go:507-520 | a field that parses is the one text that spells its key, so no two fields parse alike |
| DrainKeys.PartsGlued | drain/redis.go:511-514 | splitting a field at its colons loses nothing |
| DrainKeys.LowerExactly | drain/memory.go:43-45 | a capital letter becomes its small one and nothing else changes |
| DrainCells.CellsStayValid | drain/memory.go:43-69 | set, release and replace keep setAt within entries and releasedAt apart from them, at every key |
| DrainMemory.MemoryStore.constructor | drain/memory.go:33-39 | an empty store |
| DrainMemory.MemoryStore.Set | drain/memory.go:43-59 | installs under the lower-cased key, or lifts it when the time is not ahead; no other key changes |
| DrainMemory.MemoryStore.Release | drain/memory.go:61-73 | the key is gone and its release dated; no other key changes |
| DrainMemory.MemoryStore.Drained | drain/memory.go:76-86 | true exactly when some live drain, scoped or unscoped, covers the triple |
| DrainMemory.MemoryStore.Active | drain/memory.go:89-101 | every live drain of the service once, nothing else, in operator and RPC order |
| DrainMemory.DrainedIffListed | drain/memory.go:76-101 | the two lookups agree with the listing |
| DrainMemory.ListingExactly | drain/memory.go:89-101 | a listing has every drain of the service with time left, no other, and no key twice |
| DrainMemory.MemoryStore.ReplaceAll | drain/memory.go:118-147 | key by key: the snapshot, less what was released after it began, its holes filled by live entries installed after it began; timestamps stay consistent |
| DrainMemory.MemoryStore.DropReleased | drain/memory.go:124-128 | exactly the keys released after the snapshot began leave it |
| DrainMemory.MemoryStore.CarryNewer | drain/memory.go:130-139 | exactly the live, newer local entries fill holes, and none replaces a snapshot value |
| DrainMemory.MemoryStore.KeepInstalled | drain/memory.go:141-145 | install times survive exactly for the keys that do |
| DrainRedis.RedisStore.BeginSetKey | drain/redis.go:263-273 | a new generation, one more write in flight, not released; other keys untouched |
| DrainRedis.RedisStore.BeginReleaseKey | drain/redis.go:277-286 | a new generation, released and not pending, forgotten when nothing is in flight |
| DrainRedis.RedisStore.FinishWriteKey | drain/redis.go:304-340 | the three verdicts on a finished write and the record each leaves |
| DrainRedis.RedisStore.TakePendingAll | drain/redis.go:464-482 | every pending record is retried once or, when its time is up, dropped |
| DrainRedis.ScanHash | drain/redis.go:383-413 | the map and the expired fields a scan of the hash yields, whatever order it comes in |
| DrainProtocol.RunKeepsInv | drain/redis.go:204-482 | every step keeps the records, the release and the local cell consistent with the history |
| DrainProtocol.ReleaseWins | drain/redis.go:204-221 | once the last decision is a release, nothing is outstanding and no delete was lost, Redis has no field and nothing is remembered, even when stale writes landed after the release's own delete |
| DrainProtocol.GenerationTellsOvertaken | drain/redis.go:100-122 | inflight counts the writes on the wire, no generation is ahead of its record's, equal generations mean exactly that no decision followed, and pending or current means not released |
| DrainProtocol.ForgottenMeansNothingInFlight | drain/redis.go:255-261 | a record that is gone has no write left to mistake its successor for its own |
| DrainProtocol.FinishVerdict | drain/redis.go:304-340 | a write is undone exactly when a release followed it and is the last word; a current write keeps its entry; one overtaken by a Set hands on that Set's entry and leaves it pending |
| DrainProtocol.RefreshRespectsLocalChanges | drain/redis.go:383-451 | what a refresh lays down, from the history of local changes: nothing where the key was last released after it began; else what it brings, whatever was released before; else the last Set if that came after it began and has time left; else nothing |
| DrainAccounts.EverythingAccounted | drain/redis.go:204-381 | over every run, calls not yet decided, writes on the wire and deletes on the wire are exactly those begun and not done with: one decision per call, one finish per write, one delete per release decided and per write that finds itself overtaken by a release |
| DrainAccounts.RefreshHoldsLive | drain/redis.go:383-462 | over every run, what a refresh holds to lay down had time left when it read its clock |
| DrainAccounts.SentExactlyWhen | drain/redis.go:230-243 | a write goes out exactly when its entry has time left and can be encoded |
| DrainPromise.HeldRun | drain/redis.go:383-482 | while nobody else touches the key, a parked drain stays pending or in Redis until its time is up, and later refreshes lay it down |
| DrainPromise.PromiseKept | drain/redis.go:43-53 | in whatever phase a refresh is: with no staler field in Redis, and none seen by a refresh that may still retry the drain, every later refresh leaves the drain in the local map until its time is up, and it stops being pending only by reaching Redis or expiring |
| DrainPromise.StaleFieldBreaksPromise | drain/redis.go:415-438 | in whatever phase a refresh is, a field that runs out first breaks the promise |
| DrainPromise.SeenFieldBreaksPromise | drain/redis.go:383-451 | so does one a refresh has already seen and will delete after retrying the drain, though it may have left Redis since |
| DrainPromise.PromiseKeptExactlyWhen | drain/redis.go:43-53 | for every reachable state after a failed Set, kept if and only if neither holds |
| DrainPromise.FailedSetParks | drain/redis.go:204-228 | a Set that is the last word, alone on the wire, and fails to propagate leaves the drain parked |
| DrainPromise.StaleParkedReachable | drain/redis.go:383-482 | a run that reaches a parked drain whose promise is broken |
| BreakerRuns.BreakLasts | circuitbreaker/breaker.go:216-228 | after a break, until the service is cleared or merged, the domain reads as broken at every time up to the TTL its chain gives, and at none after unless it is marked again by then |
| BreakerStore.Breaker.WindowLocked | circuitbreaker/breaker.go:245-268 | the window an outcome is counted in: the old one, a rolled one that keeps the episode memory, or a new one |
| BreakerStore.Breaker.RecordSuccess | circuitbreaker/breaker.go:231-242 | counts one success for the domain and changes nothing else |
| BreakerStore.Breaker.ShouldBreak | circuitbreaker/breaker.go:282-319 | the gate's verdict, the hit count and the window it leaves |
| BreakerStore.Breaker.MarkBroken | circuitbreaker/breaker.go:330-376 | nothing while a break is in effect; otherwise one counted failure and, when the gate opens, the break it stores |
| BreakerStore.Breaker.Clear | circuitbreaker/breaker.go:379-410 | every trace of the service goes and the count is the domains held |
| BreakerStore.Breaker.MergeRedisEntries | circuitbreaker/breaker.go:517-556 | the merge, domain by domain |
| BreakerModel.MergeLookup | circuitbreaker/breaker.go:517-556 | what a merge leaves at each domain depends on that domain alone, so map order plays no part |
| BreakerRuns.CountersRefineLog | circuitbreaker/breaker.go:231-319 | after every run with an ordered clock, every domain's counters are the outcomes logged since its window opened, and its episode memory the log's last break and chain |
| BreakerRuns.EveryBreakJustified | circuitbreaker/breaker.go:282-376 | MarkBroken returns true if and only if the log's own window holds enough failures at the threshold, or threshold plus margin when an earlier break is within memory |
| BreakerRuns.MeetsExactly | circuitbreaker/breaker.go:282-300 | the gate without its division: at least minFailures failures, and at least the threshold times the outcomes |
| BreakerRuns.WindowSpan | circuitbreaker/breaker.go:245-268 | the outcomes counted span at most the failure window and hold no earlier break |
| BreakerRuns.WindowReach | circuitbreaker/breaker.go:245-268 | and reach back as far as they may: to the start, to a break, or to where an earlier outcome is too old |
| BreakerRuns.EscalationIsDoubling | circuitbreaker/breaker.go:446-448 | the capped shift is min(1m * 2^n, 30m) for every n, and never decreases |
| BreakerRuns.ChainMeaning | circuitbreaker/breaker.go:293-318 | a chain is the longest run of breaks ending the history with every gap within memory |
| BreakerRuns.EscalationCountsEpisodes | circuitbreaker/breaker.go:293-376 | a break's hit count is the length of its chain and its TTL min(2^(hits-1) minutes, 30 minutes) |
| BreakerRuns.ExpiryStep | circuitbreaker/breaker.go:330-376 | no operation moves a stored expiry back |
| BreakerRuns.ExpiriesMoveForward | circuitbreaker/breaker.go:330-376 | over any stretch in which a domain stays listed its expiry never decreases |
| BreakerRuns.MergeIdempotent | circuitbreaker/breaker.go:517-556 | merging the same view again at the same time changes nothing |
| BreakerRuns.MergeDropsExactly | circuitbreaker/breaker.go:521-533 | an unlisted domain is removed exactly when this replica's own break is absent or at least cacheTTL old |
| BreakerRuns.MergeKeeps | circuitbreaker/breaker.go:517-556 | a merge leaves other services alone and never drops what it lists |
| BreakerRuns.MergeAdopts | circuitbreaker/breaker.go:541-556 | in any state, a listed break that decodes and is not over is stored and read, the longer-lasting of it and the one held; an expired or malformed one leaves what was held |
| BreakerRuns.AdoptedLasts | circuitbreaker/breaker.go:517-556 | after any run, an adopted break is read until its time is up, short of a clear or another merge |
| BreakerRuns.FreshBreakSurvives | circuitbreaker/breaker.go:517-539 | after any run, a break of this replica's survives every merge within cacheTTL of it, listed or not |
| BreakerRuns.ClearForgets | circuitbreaker/breaker.go:379-410 | a clear empties all three maps for the service and touches no other |
| MinuteRing.RingRefinesLog | autodrain/engine.go:626-641 | for any log with an ordered clock and any additive quantity, the sum over the live slots is the sum over the events of the last ten minutes, although slots are reused modulo ten and reset only when written |
| AutoDrainCounts.CountersMatchLog | autodrain/engine.go:662-697 | each of an operator's five counters, summed over the window, is the number of logged events that bear on it |
| AutoDrainCounts.CollapsesMatchLog | autodrain/engine.go:368-376 | the collapse total is the logged collapses |
| AutoDrainCounts.AnswersMatchLog | autodrain/engine.go:430-458 | answers over all methods, the overflow bucket included, are the logged answers to first and probation attempts |
| AutoDrainCounts.ClientsMatchLog | autodrain/engine.go:496-547 | client answers and client failures, summed, are the logged ones |
| AutoDrainCounts.SlotsConserve | autodrain/engine.go:262-288 | in every slot of every ring first attempts less first failures are the answers summed over methods, and chain errors are among the answers |
| AutoDrainCounts.SlotsCapped | autodrain/engine.go:272-288 | no slot holds more than maxMethods methods of its own and one shared bucket |
| AutoDrainMethods.MethodsKeptApart | autodrain/engine.go:272-288 | in any minute a method kept apart has exactly its own answers and delivered chain errors, and one not kept apart has none or came when the cap was reached |
| AutoDrainMethods.ApartExactlyWhen | autodrain/engine.go:272-288 | a method has a bucket of its own in a minute if and only if one of the operator's answers to it came while fewer methods than the cap had been answered |
| AutoDrainMethods.SharedExactlyWhen | autodrain/engine.go:272-288 | a minute has a shared bucket if and only if the operator answered more methods in it than the cap, or one of the bucket's name |
| AutoDrainMethods.PickedNames | autodrain/engine.go:377-393 | every served operator is picked, and no other |
| AutoDrainMethods.PickedOnce | autodrain/engine.go:377-393 | with at most four operators served, each exactly once |
| AutoDrainWindow.SumSlots | autodrain/engine.go:668-697 | the window's loop: collapses, each operator's totals over the live slots, and pool counts that are the sum of the operators' |
| AutoDrainWindow.AddMinute | autodrain/engine.go:678-696 | one slot added operator by operator, whatever order the map gives, keeps the pool counts the operators' sum |
| AutoDrainWindow.TotalIsWindowSum | autodrain/engine.go:678-685 | the totals are the window sums of their counters |
| AutoDrainWindow.TotalConserves | autodrain/engine.go:678-696 | conservation survives summing the slots |
| AutoDrainWindow.PeersAddUp | autodrain/engine.go:689-694 | what is left of the pool without one operator has no fewer answers than chain errors, and neither is negative |
| AutoDrainOutlier.MatchedChain | autodrain/engine.go:465-481 | matched, share, predicted share, excess and verdict from the three sums over exactly the comparable methods |
| AutoDrainOutlier.SumMatched | autodrain/engine.go:466-475 | those sums, whatever order the map gives |
| AutoDrainOutlier.OutlierExactlyWhen | autodrain/engine.go:476-481 | an outlier, in errors instead of shares: fifty matched answers, a fifth of them in errors above the prediction, and three times the prediction |
| AutoDrainMethodSums.SlotHoldsMinute | autodrain/engine.go:636-640 | a live slot on a minute holds exactly that minute's events, and a minute of the window without a slot had none |
| AutoDrainMethodSums.MethodTotalsMatchLog | autodrain/engine.go:686-695 | for any log, an operator's answers to a method and its delivered chain errors, as the window sums them, are at most the logged ones of the last ten minutes, and equal to them if and only if, in each of those minutes that has any, an answer to the method came with room for it |
| AutoDrainMethodSums.PoolTotalsMatchLog | autodrain/engine.go:689-694 | the pool's are at most everybody's logged ones, and equal to them if and only if that holds of every operator |
| AutoDrainLogged.MatchedComparable | autodrain/engine.go:465-472 | for any log, every method compared is one the log would compare: answered by the operator, and at least twenty times by the others |
| AutoDrainLogged.ComparisonMatchesLog | autodrain/engine.go:465-481 | while no operator answers more methods in a minute than the cap: matched is the operator's logged answers to exactly the methods it answered and the others answered twenty times, share the delivered chain errors among them, peers what the others' logged rates predict |
| AutoDrainEngine.CountPicks | autodrain/engine.go:377-393 | each served operator is picked once, as far as the four remembered go |
| AutoDrainEngine.CountCollapse | autodrain/engine.go:375-393 | a collapse and its picks |
| AutoDrainEngine.CountOneSignal | autodrain/engine.go:411-415 | one WebSocket signal is one attempt |
| AutoDrainEngine.CountOneAttempt | autodrain/engine.go:437-458 | every attempt is traffic, and a first or probation attempt either fails or is an answer to its method |
| AutoDrainEngine.Engine.constructor | autodrain/engine.go:328-350 | nothing counted |
| AutoDrainEngine.Engine.OpenPool | autodrain/engine.go:626-634 | a new pool brings its service's client window with it |
| AutoDrainEngine.Engine.OnCollapse | autodrain/engine.go:368-394 | the accepted call changes one slot of one pool as counted, a refused one nothing |
| AutoDrainEngine.Engine.OnSignal | autodrain/engine.go:404-416 | the same, for WebSocket pools and not for probes |
| AutoDrainEngine.Engine.OnAttempt | autodrain/engine.go:430-458 | the same, for every attempt that is not the client's own failure |
| AutoDrainEngine.Engine.OnClientResult | autodrain/engine.go:496-519 | the same for client answers, only for a service with a pool |
| AutoDrainEngine.Engine.SumPool | autodrain/engine.go:668-697 | one pool's window sums |
| AutoDrainEngine.Engine.ClientShare | autodrain/engine.go:529-547 | the failed share and the requests of a service's live slots; zero without any |
| AutoDrainRuns.PoolsFollow | autodrain/engine.go:626-641 | after any run of hook calls every pool's ring is the ring of exactly the calls it let through |
| AutoDrainRuns.ClientsFollow | autodrain/engine.go:496-519 | and every client ring that of the answers that came once its service had a pool |
| AutoDrainRuns.ServicesWithPools | autodrain/engine.go:505-511 | client windows exist for exactly the services some let-through call has named |
| AutoDrainRuns.WindowCountsCalls | autodrain/engine.go:678-685 | after any run with an ordered clock, each of an operator's five plain counters, as the window totals it, is the number of let-through calls of the last ten minutes that bear on it |
| AutoDrainRuns.WindowCountsMethods | autodrain/engine.go:686-695 | after any run, so are an operator's figures for a method, at most, and exactly when each minute had room for it |
| AutoDrainRuns.WindowCountsPoolMethods | autodrain/engine.go:689-694 | and the pool's, against everybody's calls |
| AutoDrainRuns.CollapsesCountCalls | autodrain/engine.go:662-677 | so are the collapses |
| AutoDrainRuns.ClientShareCountsAnswers | autodrain/engine.go:529-547 | so are the two sums behind the client share |
| AutoDrainRuns.RunComparison | autodrain/engine.go:465-481 | after any run: conservation; share and predicted share in [0, 1]; an outlier gave at least ten chain errors more than predicted; every method compared is one the log of let-through calls would compare; and while no operator answers more methods in a minute than the cap, the comparison is the one that log gives, method by method |
| AutoDrainCalls.CountersCountCalls | autodrain/engine.go:368-456 | after any run, the five counters against the hook calls themselves: attempts not the client's fault and WebSocket outcomes that are no probes; those answered; first and probation attempts; those of them that failed; picks |
| AutoDrainCalls.MethodsCountCalls | autodrain/engine.go:443-455 | and a method's answers and delivered chain errors, exactly where every minute had room |
| AutoDrainCalls.CollapsesAreCalls | autodrain/engine.go:368-376 | and the collapses that served somebody |
| AutoDrainCalls.ClientShareCountsCalls | autodrain/engine.go:496-526 | and a service's answers and failed answers, once some counted call had named it |
| AutoDrainCalls.ShareOfCalls | autodrain/engine.go:529-547 | the client share times all those answers is the failed ones, and 0 without any |
| Medians.Median | autodrain/engine.go:574-584 | the middle value, or midway between the middle two; 0 for none |
| Medians.MiddleSplits | autodrain/engine.go:574-584 | at least half of the values are at most the median and at least half at least it |
| Medians.MiddleExactly | autodrain/engine.go:574-584 | by position in the sorted values: the middle one, the mean of the middle two, or 0 |
| AutoDrainPeers.PeerCompare | autodrain/engine.go:597-624 | the peers counted, their three medians and the pool-wide mark, whatever order the map gives |
| AutoDrainPeers.MedianUnique | autodrain/engine.go:597-612 | the medians do not depend on the order the operators were visited in |
| AutoDrainPeers.RateGuardSparesHalf | autodrain/engine.go:574-624 | with a ratio above 1 and positive rates, at least floor(n/2) of n measured operators are marked pool-wide on the operator-rate trigger |
| AutoDrainPeers.FirstGuardSparesHalf | autodrain/engine.go:574-624 | the same for first-attempt failure on the collapse trigger |
| AutoDrainPeers.AllGuardSparesHalf | autodrain/engine.go:621-622 | and for failure on all attempts, where nobody has enough first ones |
| AutoDrainPeers.RateOutlierStands | autodrain/engine.go:613-618 | who is at the ratio over every other measured operator is never marked, so the guard hides no outlier |
| AutoDrainPeers.FirstOutlierStands | autodrain/engine.go:619-620 | the same on first attempts |
| AutoDrainPeers.AllOutlierStands | autodrain/engine.go:621-622 | and on all attempts, where first ones are too few |
| AutoDrainPeers.GuardSilent | autodrain/engine.go:613-623 | turned off, without peers, or for chain answers, the guard marks nobody |
| AutoDrainDecisions.FindsIffCovered | autodrain/engine.go:807-814 | find returns the first of the listing that covers the key, and something exactly when a live drain does |
| AutoDrainDecisions.DrainLength | autodrain/engine.go:882-885 | a drain lasts a positive time, two hours or the configured ceiling, and never more than either |
| AutoDrainDecider.Decider.Find | autodrain/engine.go:807-814 | the loop over the store's listing returns just that |
| AutoDrainDecider.Decider.LiveAuto | autodrain/engine.go:904-912 | the number of live auto drains in a pool |
| AutoDrainDecider.Decider.LiveAutoFleet | autodrain/engine.go:914-930 | the number of live auto drains on services with a pool |
| AutoDrainDecider.Decider.Reconcile | autodrain/engine.go:781-803 | due or taken-over drains are forgotten, early releases suppressed for six hours, over suppressions and hour-old times dropped, and nothing else |
| AutoDrainDecider.Decider.Review | autodrain/engine.go:782-795 | which drains stay in mind and which were released early |
| AutoDrainDecider.DropOver | autodrain/engine.go:796-800 | exactly the suppressions that are over are dropped |
| AutoDrainDecider.DropOld | autodrain/engine.go:801-802 | exactly the times more than an hour old are dropped |
| AutoDrainDecider.Decider.Judge | autodrain/engine.go:818-881 | the verdict, in the code's order, from the store, the evidence and the engine's memory |
| AutoDrainDecider.Decider.Decide | autodrain/engine.go:818-902 | the memory and store a verdict leaves, for each way the Set can end |
| AutoDrainLimits.DrainsExactlyWhen | autodrain/engine.go:818-879 | a reading aid: every gate and limit a drain has passed, as one conjunction, in both directions |
| AutoDrainLimits.CapsHold | autodrain/engine.go:904-930 | over every run at most one live auto drain per pool, and in the fleet at most five more than were found on services without a pool |
| AutoDrainLimits.CapsHoldFromClean | autodrain/engine.go:860-872 | started with none of those, at most one per pool and five in the fleet after every step |
| AutoDrainLimits.RatesHold | autodrain/engine.go:781-902 | over every run, counting Sets that succeeded, a fourth drain is at least an hour after the first and a service's drains are half an hour apart |
| AutoDrainLimits.SetsAreClear | autodrain/engine.go:807-860 | over every run a drain is set only where no live drain covers the key, and on no key whose early release was noticed within six hours |
| AutoDrainReleases.ReconcileExactly | autodrain/engine.go:781-805 | key by key, from the drain store: what is due and covered first by an auto drain stays in mind; what is due and covered by nothing is suppressed for six hours; anything else is forgotten without a suppression, and other suppressions run out by themselves |
| AutoDrainReleases.EarlyReleaseSuppresses | autodrain/engine.go:781-791 | in any world, a drain in mind that a reconcile finds gone before its time keeps the engine off the key for six hours over every continuation |
| AutoDrainReleases.StaysInMind | autodrain/engine.go:781-797 | a drain stays in mind over every run in which each reconcile finds it due and covered first by an auto drain |
| AutoDrainReleases.ReleasedDrainStaysAway | autodrain/engine.go:781-885 | from the Set to a person's release and six hours on |
| AutoDrainFleet.DrainAddsOne | autodrain/engine.go:893-902 | a drain adds exactly one to the fleet, so five hold after it exactly when fewer than five were live, known or not |
| AutoDrainFleet.FleetCapExactlyWhen | autodrain/engine.go:914-930 | five in the fleet over every run if and only if at most five are live at the start and none is on a service without a pool |
| AutoDrainFleet.FleetCapMissesUnknown | autodrain/engine.go:914-930 | an input on which a sixth is set |
| MethodBlockStore.Store.Blocked | methodblock/store.go:144-159 | whether the host, or the host on that method, is blocked |
| MethodBlockStore.Store.Mark | methodblock/store.go:176-251 | what a mark does to its host, and whether it escalated; other hosts untouched |
| MethodBlockStore.Store.MarkOne | methodblock/store.go:183-250 | the host's own share: lifetimes, the cap, sticky evidence, escalation |
| MethodBlockStore.Store.Clear | methodblock/store.go:256-273 | the service goes, and the count is the size of its listing |
| MethodBlockStore.Store.Active | methodblock/store.go:277-294 | the listing |
| MethodBlockStore.Store.Sweep | methodblock/store.go:314-333 | expired marks go, and hosts with nothing left |
| MethodBlockRuns.RunKeepsInv | methodblock/store.go:207-251 | over any run a host holds at most 128 marks, and none under a live host-level block |
| MethodBlockRuns.ViewsAgree | methodblock/store.go:144-294 | Blocked holds exactly when the listing has the host or that host and method |
| MethodBlockRuns.MarkBlocksExactly | methodblock/store.go:183-236 | a mark that is taken blocks its method for its own lifetime, the client's or the supplier's, and not a moment longer |
| MethodBlockRuns.MarkRefinesEager | methodblock/store.go:176-251 | marking with lazy expiry does what marking a store that forgets on time would do |
| MethodBlockRuns.CapCountsLive | methodblock/store.go:207-225 | the cap bites exactly when 128 marks are live |
| MethodBlockRuns.SweepInvisible | methodblock/store.go:314-333 | after any later run every call answers as if the sweep had not happened |
| MethodBlockRuns.StandingIsBacked | methodblock/store.go:226-236 | supplier evidence that stands goes back to a supplier mark and has been live ever since |
| MethodBlockRuns.HostBlockNeedsEvidence | methodblock/store.go:226-251 | a host-level block is installed only by a supplier mark, with at least `escalation` distinct methods backed that way |
| MethodBlockRuns.EscalatesExactlyWhen | methodblock/store.go:226-251 | a supplier mark that is taken escalates if and only if the standing evidence, its own included, reaches `escalation`; and evidence stands if and only if it is backed that way |
| MethodBlockRuns.BlockInstalledByEscalation | methodblock/store.go:245-251 | no other operation installs one |
| MethodBlockRuns.ClientMarksNeverBlockHost | methodblock/store.go:176-251 | client-attributed marks alone never do |
| MethodBlockRuns.MarkTouchesOneHost | methodblock/store.go:176-251 | a mark leaves every other host as it was |
| MethodBlockRuns.MarkAndOtherMethods | methodblock/store.go:176-251 | on its own host it leaves other methods as they were, or blocks them all for its lifetime when it escalates |
| MethodBlockRuns.ClearLiftsOnlyService | methodblock/store.go:256-273 | a clear lifts every block of the service and none of another's |
| MethodBlockRuns.OffBlocksNothing | methodblock/store.go:144-180 | with a lifetime of zero or less nothing is blocked and no mark taken |
| LeaderElection.LeaderElector.TryAcquire | healthcheck/leader.go:123-163 | the two flags after each reply, whether renewing or acquiring |
| LeaderElection.LeaderElector.FallBack | healthcheck/leader.go:166-170 | the instance leads itself |
| Lease.RunKeepsInv | healthcheck/leader.go:123-219 | every step, late requests included, keeps a fresh grant's key its own |
| Lease.LeaseSafety | healthcheck/leader.go:123-219 | a running leader by election whose last success is less than one TTL old owns the key |
| Lease.OneFreshLeader | healthcheck/leader.go:123-219 | no two such leaders exist at once |
| Lease.StaleLeaderOverlaps | healthcheck/leader.go:141-163 | from one TTL on two can |
| Lease.LastReplyDecides | healthcheck/leader.go:123-170 | over every run an instance leads by election exactly when the last reply it heard was yes, leads itself exactly when it was an error, and does not lead otherwise |
| Lease.OneRoundExactly | healthcheck/leader.go:123-211 | one request: a leader by election prolongs its own live key or stops leading; anyone else takes a free key or does not lead; only a success moves the key |
| Lease.StoppedStaysSilent | healthcheck/leader.go:65-110 | a stopped instance never asks again |
| Lease.ReleaseFreesOwnKey | healthcheck/leader.go:213-220 | a release deletes the instance's own key and no other |
| ProbeIds.IdRoundTrip | healthcheck/stream.go:170-178 | parsing inverts printing on every 64-bit id |
| ProbeIds.IdRoundTripExactly | healthcheck/stream.go:170-178 | and on no other |
| ProbeIds.BeforeIsOrder | healthcheck/stream.go:164-168 | the string comparison is the order of the numbers |
| ProbeStream.RedisProbeStream.Run | healthcheck/stream.go:96-150 | one Run: where it starts, what it hands out, where it leaves the resume point, however it ends |
| ProbeStream.RedisProbeStream.ApplyBatch | healthcheck/stream.go:112-148 | the resume point moves before the callback, which is given foreign entries only |
| ProbeRuns.AtMostOnce | healthcheck/stream.go:96-193 | over any sequence of Runs ending anywhere the ids handed out strictly increase, and none is this instance's own |
| ProbeRuns.NeverItsOwn | healthcheck/stream.go:180-193 | what is handed out decodes and was produced by someone else, is past the resume point, and comes once |
| ProbeRuns.PanicEndsRun | healthcheck/stream.go:103-119 | a Run ends at the first entry whose callback panics and at no other, with the resume point already at it |
| ProbeGaps.RunGapsExactly | healthcheck/stream.go:96-143 | a Run from a resume point leaves no gap if and only if its replay fails, or no foreign entry lies between the resume point and a later window it jumps to, and none past the point it reads on from has been trimmed when the replay or any read is made |
| ProbeGaps.RestartSkips | healthcheck/stream.go:103-119 | an input on which a restart leaves a gap: an outage longer than the window |
| ProbeGaps.TrimmedSkipped | healthcheck/stream.go:79-119 | another: an entry trimmed before the restart, the resume point being in the window |
| ProbeGaps.ExactlyOnce | healthcheck/stream.go:96-150 | over any Runs on a stream appended to at one end and trimmed at the other, what is handed out is every foreign entry from the first resume point to the last, each once, in order, if and only if no Run leaves a gap |
| ProbeGaps.NothingMissed | healthcheck/stream.go:96-193 | without gaps, every decodable entry of another producer up to where reading got is handed out, and nothing else |
| ProbeGaps.FirstRun | healthcheck/stream.go:108-143 | without a resume point, it is every foreign entry from the window's start or the oldest one kept, whichever is later, if and only if nothing is trimmed before it is read |
| ProbeGaps.FirstRunEmpty | healthcheck/stream.go:120-143 | with nothing to replay, every one after what the stream held when the first read that brought something was made, if and only if nothing after it is trimmed before it is read; entries that came before that read are missed |
| ProbeGaps.OlderExactlyWhen | healthcheck/stream.go:103-125 | a Run may hand out an entry from before its window if and only if the resume point is before it, nothing is replayed and an untrimmed foreign entry lies between |
| ProbeGaps.OlderEntryHanded | healthcheck/stream.go:103-125 | an input on which it does |
| ProbeGaps.NeverReadsExactlyWhen | healthcheck/stream.go:108-115 | a fresh reader can read nothing, whatever the stream holds, if and only if no Run has a window to start from |
| ProbeGaps.NoWindowNeverReads | healthcheck/stream.go:154-159 | so with a window of zero or less |
| EnvExpansion.ValidEnvName | config/expand.go:112-127 | a letter or underscore, then letters, digits and underscores |
| EnvExpansion.Turn | config/expand.go:60-105 | what the token at a byte becomes, or the error it is, and where the next one starts |
| EnvExpansion.ExpandEnv | config/expand.go:50-108 | the scanning loop renders the document's tokens, or returns the first error |
| EnvExpansion.ExpandInvertsEscape | config/expand.go:50-108 | expanding a text with each `${` written `$${` returns the text, through any run of dollars |
| EnvExpansion.TokensSpellDocument | config/expand.go:50-108 | the document is scanned once and whole: up to the first error the tokens spell it |
| EnvExpansion.ExpansionKeepsLines | config/expand.go:94-101 | a successful expansion has exactly as many newlines as the document |
| EnvExpansion.SucceedsExactlyWhen | config/expand.go:68-101 | it succeeds if and only if no token is broken and every variable named is set, non-empty and on one line |
| EnvExpansion.DependsOnNamedOnly | config/expand.go:84-101 | only the variables a document names bear on its expansion |
| EnvExpansion.ReferenceBecomesValue | config/expand.go:76-103 | a reference becomes the variable's value and the rest is expanded by itself; a name that is none, a variable unset or empty, and a value with a line break are each their error, on their line |
| EnvExpansion.UnfinishedFails | config/expand.go:76-80 | an unclosed reference is the error |
| EnvExpansion.OthersAreCopied | config/expand.go:58-75 | any character that begins neither a reference nor an escape is copied |
| EnvExpansion.EscapeBecomesLiteral | config/expand.go:63-71 | an escape becomes the two characters it stands for |
| EnvExpansion.NamesArePlain | config/expand.go:112-126 | a name is letters, digits and underscores, not empty and not beginning with a digit |
| EnvExpansion.ErrorsNameTheirLine | config/expand.go:130-132 | lines count from one |

## Left out

- Concurrency inside a lock: a method that holds a mutex is one step; `MarkBroken` and each auto-drain decision are atomic too, the store and the clock read once.
- 64-bit wrap-around of drain generations and of counters: both are unbounded here.
- Rounding: shares, rates and thresholds are real numbers, not floats.
- Text: characters stand for bytes, lower-casing and case-insensitive comparison are the ASCII ones.
- DrainProtocol: peer-following replicas (`FollowPeer`) are modelled in the scan only, and a value that cannot be encoded is one whose time is past year 9999.
- DrainProtocol.ReleaseWins: says nothing after a lost delete, which the code does not retry.
- Overlapping Sets converging to the newest value, or a Set being safe from an earlier write's compensating delete: the drain code does not give these.
- ProbeStream.RedisProbeStream.Run: ids are pairs of numbers in the reader; ProbeIds relates them to the strings compared. Publishing is not modelled; the trimming it asks for is, as a stream that may have lost any of its older entries but never the newest.
- MethodBlockStore.Store.Mark: the map of services to hosts is one map keyed by both.
- BreakerStore.Breaker.MergeRedisEntries: persistence to Redis, refresh scheduling and the outcome hook are not modelled.
- AutoDrainEngine.Engine.OnCollapse: endpoints come as their operators' names; the share of picks can exceed 1, as only four operators are remembered.
- AutoDrainRuns.WindowCountsCalls: the clock does not go back; with one that does, an old minute's slot may be reset.
- AutoDrainDecider.Decider.Decide: the search for a vouched alternative among endpoints and affiliates is an input, as are the feature flags and the text after the reason's prefix.
- AutoDrainLimits.RatesHold: Sets that returned an error are not counted, although one may have installed its drain on this pod; the caps count those.
- AutoDrainLimits.CapsHoldFromClean: other replicas' auto drains arriving while the instance runs are not steps of the model.
- The candidate list of `window`, `Evaluate`'s flags and leadership, and `emit`'s repetition limit: plain filters over what is modelled.
- Lease.LeaseSafety: excludes stopped instances, which keep their flag; liveness after a fallback is not claimed.
- Heuristics, metrics, dashboards, health-check execution, reputation, other configuration, feature flags and overrides.
