# LingNet Agent OS: verified core

This project models the stateful core of LingNet Agent OS in Dafny and proves what its
documentation and design promise, or, where the code does not keep a promise, exactly when it
does. One module per component:

| module | component |
|---|---|
| `PoolSteps` | the lock-free stack of `CommonPool` and `L2Pool`, one memory access at a time |
| `ArenaModel` | the generation-quarantined arena pools as a state machine |
| `ArenaPools` | the same pools as linked block records updated in place, proved against `ArenaModel` |
| `PerfectHash` | the compress-hash-displace routing table |
| `SeedSearchPhf` | the seed-search perfect hash of the static tables |
| `Condenser` | deduplication, token window and truncation of a conversation |
| `HourlyBudget` | the hourly cost budget of the model router |
| `ModelRouter` | provider calls with retries, the race, and its fallback |
| `RouterCore` | provider ledgers, selection, racing and health checks, one call at a time |
| `RouterSteps` | the same under threads: calls, races and health checks that overlap |
| `Vfs` | the sandboxed file tree with running totals |
| `Zmtp` | the frame codec of the message sockets |
| `KernelVersion` | the kernel version parser and its minimum check |
| `Cognitive` | the bridge's truncating condenser |
| `Outcomes`, `Bytes`, `Sequences`, `Division` | shared types, sequence facts and remainders |

`dafny verify dfyconfig.toml` checks everything.

## Main results

* **Pools.** At the level of single loads, stores and swaps, with any number of pushers and poppers
  of either kind, a step keeps the pool intact if and only if it is sound: a pop that takes effect
  finds its block on top with the link it read (`IntactIffSound`, `RunIntactIffSound`), and sound
  runs are linearizable (`SoundRunRefinesStack`). With one popper at a time compare-and-swap pops
  are always sound, and the quarantine's plain store is sound if and only if no push has taken
  effect since its load (`RunRefinesStack`, `PlainStoreSoundIffNoPush`). Each call takes effect once
  (`OneEventPerCall`), and a swap fails only if another thread made progress during the attempt
  (`SwapFailsOnlyAfterProgress`). Both conditions can fail (`TwoPoppersDuplicateABlock`,
  `PlainStoreLosesABlock`).
* **Arenas.** In every run each block is in exactly one place (`EveryRunFromBoot`), a block that
  served untrusted code never returns to trusted code (`UntrustedBlockNeverReturns`), live
  allocations never overlap (`LiveAllocationsDisjoint`), the quarantine drains completely or not
  at all, and not before two generations (`DrainsAllOrNothing`, `TwoGenerationsDrain`,
  `GracePeriod`), and blocks offered for untrusted reuse are
  all zeros exactly as long as no untrusted arena with data retires through `deinitAndZero`
  (`L2StaysCleanUnlessBypassed`, `L2CleanInEveryRun`, `BypassLeavesData`). The same is shown for the
  common list, so it is known exactly when an arena opens on zeros (`ArenasOpenOnZeros`).
* **Hash tables.** A built table serves every item from its own slot, and building fails if and
  only if the greedy placement gets stuck, always for repeated keys (`PerfectHash.Build`). The
  seed-search table finds exactly its keys on both of its paths, and for the one key that serves as
  its empty marker it is said exactly when the answer is right (`SeedSearchPhf.Generate`).
* **Condenser.** Output is always part of the input, and more important and recent messages win
  (`HeavierWins`); the hybrid pipeline meets the limit and is idempotent when the system messages
  fit. For every strategy it is shown exactly when all system
  messages survive (`SystemSurvivesIff`) and exactly when `min_messages` messages come back
  (`CondensedMinimum`), for the window also without knowing the scores (`MinimumWhateverScoresIff`).
* **Budget and routers.** No hour carries more than twice the budget, and that is reached
  (`AnyHourAtMostTwiceBudget`, `TwiceBudgetIsReached`); an hour in which no call resets carries at
  most the budget (`QuietHourWithinBudget`), and a charge is accepted exactly when it fits
  (`AcceptedIfItFits`). Selection rotates or minimises as its strategy says
  (`RoundRobinTakesTurns`, `SelectsLeast`), and calls retry exactly what is listed
  (`ModelRouter.CallProvider`). A race succeeds if and only if some launched call does,
  with or without a fallback (`ModelRouter.ModelRouter.Route`). The provider books balance over
  every interleaving of calls, races and health checks (`BooksBalanceInterleaved`). As long as calls
  do not overlap an unhealthy provider is never used again (`UnhealthyForGood`). When they do, it
  stays out if and only if no call still in flight on it redeems its ledger or, having failed, finds
  the failure rate above the failover threshold (`StaysOffIff`); once those calls are over it is out
  for good (`RetiredForGood`).
* **Files, frames, versions.** Over every run from the empty tree that creates under directories
  and deletes files, the running totals are what the tree holds and respect the quotas
  (`TotalsMatchTree`), and a created file reads back until it is deleted (`ReadAfterCreate`,
  `ReadsLast`). Frames sent are received, whatever the splits (`SendThenReceive`), and printed
  versions are read back exactly.

## Where the code and its documentation differ

The model follows the code. The differences are stated as lemmas:

* `python/condenser.py:64` promises to always keep `min_messages`; the window does not
  (`MinimumNotAlwaysMet`), and DEDUP and SUMMARIZE take no notice of it (`OtherStagesMissMinimum`;
  exact conditions for all in `CondensedMinimum`).
* `python/condenser.py:63` promises never to compress system messages; truncation can
  (`SummarizeLosesSystem`, `HybridLosesSystem`, exact conditions in `SystemSurvivesIff`).
* The strategy in the request (`python/condenser.py:62`) is ignored in favour of the condenser's own
  (`RequestedStrategyIsIgnored`).
* The test at `src/perfect_hash.zig:261` expects null for an absent key; no keys are stored, so
  null is answered only by an empty table (`NullOnlyWhenEmpty`).
* `tools/phf_generator.zig:29` uses -1 as its empty marker, so the key 0xFFFFFFFF is found whenever
  no other key hashes to its bucket, listed or not (`MarkerFoundIffHomeFree`), and in the plain list
  whenever there is room left (`FallbackFinds`).
* `sdk_arena_gqap.zig:253` describes explicit zeroing; for untrusted arenas nothing is cleared
  (`BypassLeavesData`).
* The race's fallback router is created without `start()`, so it has no HTTP session and every
  one of its calls ends in an error (`NoSessionNoSuccess`).
* `createFile` accepts a path without a leading slash and creates the file in the root; no path
  without a leading slash can be read (`ReadAfterCreate`).
* A provider marked unhealthy is meant to be out of use; a call that was in flight on it and raises
  makes it available again (`LateFailureRevives`, exact condition in `LateFailureRevivesIff`).
* A health check overwrites the status DISABLED (`HealthCheckRevivesDisabled`).

## Modelling choices

* Integers are unbounded except where width matters: `Arena.alloc` traps beyond `usize`, decimal
  parsing fails beyond `u32`, frame lengths are below 2^64, hashes wrap at 2^64. Python floats are
  reals.
* Clocks, HTTP outcomes, completion orders, random choices, read sizes and client writes are
  parameters, so the theorems hold for all of them. Hash functions and message fingerprints are
  arbitrary functions.
* An arena is a linear handle: it is retired once. `initPools` has succeeded once, with at least
  one block, before any other pool operation.

## Model

| member | source | states |
|---|---|---|
| `PoolSteps.StepRefines` | sdk_arena_gqap.zig:87-177 | every load, store, swap or counter update that is sound keeps the list acyclic and every block accounted for, and is invisible or one legal atomic push, pop or empty pop |
| `PoolSteps.PopSwap` | sdk_arena_gqap.zig:93-95 | a pop that finds its block on top with the link it read unlinks exactly the top block |
| `PoolSteps.PushSwap` | sdk_arena_gqap.zig:105-108 | a successful push swap puts exactly its block on top of the list |
| `PoolSteps.StoreStep` | sdk_arena_gqap.zig:106 | storing `pool_next` before the swap disturbs no linked block |
| `PoolSteps.RunRefinesStack` | sdk_arena_gqap.zig:87-177 | with one popper at a time and any number of pushers, a run keeps the pool intact if and only if every plain store finds its block still on top, and then its events replay on an atomic stack whose contents are what the links spell out; `count` differs from the length by the calls between swap and counter update |
| `PoolSteps.SoundRunRefinesStack` | sdk_arena_gqap.zig:87-177 | linearizability of every interleaving whose pops are sound, whatever the number and kind of poppers |
| `PoolSteps.IntactIffSound` | sdk_arena_gqap.zig:87-144 | a step keeps the pool intact if and only if a pop that takes effect in it finds its block on top and its link unchanged; no bound on concurrent poppers |
| `PoolSteps.RunIntactIffSound` | sdk_arena_gqap.zig:87-144 | a run keeps the pool intact throughout if and only if all its pops are sound |
| `PoolSteps.NoPlainPopIsTimely` | sdk_arena_gqap.zig:87-177 | the common and L2 pools, which swap only, meet the condition of `RunRefinesStack` in every run |
| `PoolSteps.PlainStoreSoundIffNoPush` | sdk_arena_gqap.zig:135-144 | the quarantine pop's store, one popper among any number of pushers, keeps the pool intact if and only if no push took effect since its load; nothing but pushes can have |
| `PoolSteps.ChainUnique` | sdk_arena_gqap.zig:91-93 | the contents of a pool are determined by head and links alone |
| `PoolSteps.InitialPoolInv` | sdk_arena_gqap.zig:62-75 | the pool as `initPools` leaves it satisfies the invariant |
| `PoolSteps.QuiescentPool` | sdk_arena_gqap.zig:152-177 | when no call is in progress `count` is the list length and every block is listed or held, never both |
| `PoolSteps.OneEventPerCall` | sdk_arena_gqap.zig:87-112 | every call takes effect exactly once, between its start and its return |
| `PoolSteps.SwapFailsOnlyAfterProgress` | sdk_arena_gqap.zig:90-108 | lock freedom: if the swap of any attempt of a push or pop fails, a push or pop of another thread took effect between that attempt's load and its swap |
| `PoolSteps.TwoPoppersDuplicateABlock` | sdk_arena_gqap.zig:90-98 | with two concurrent poppers a run exists that links a block a client holds |
| `PoolSteps.PlainStoreLosesABlock` | sdk_arena_gqap.zig:135-144 | the quarantine pop's plain store beside a concurrent push loses a block |
| `ArenaModel.InitPools` | sdk_arena_gqap.zig:51-79 | the boot state satisfies the whole invariant: every block on the common list, consecutively in the backing region |
| `ArenaModel.ApplyInv` | sdk_arena_gqap.zig:190-266 | every operation keeps the partition of blocks, the layout, the quarantine order and the bump discipline |
| `ArenaModel.EveryRunFromBoot` | sdk_arena_gqap.zig:51-361 | in every run from boot each block is in exactly one place (common, quarantine, L2 or one arena) and its flags say where |
| `ArenaModel.RunKeepsInv` | sdk_arena_gqap.zig:190-361 | whole runs keep the invariant and never move or resize a block |
| `ArenaModel.LabelsAreTrue` | sdk_arena_gqap.zig:96-98 | in every run common blocks are clear, L2 blocks flagged zeroed, quarantined blocks flagged quarantined, and untrusted blocks dirty once allocated from |
| `ArenaModel.ApplyConfined` | sdk_arena_gqap.zig:193-265 | a block in quarantine, on L2 or in an untrusted arena stays in one of the three |
| `ArenaModel.UntrustedBlockNeverReturns` | sdk_arena_gqap.zig:147-266 | tier isolation over every run: such a block is never again on the common list or in a trusted arena |
| `ArenaModel.LiveAllocationsDisjoint` | sdk_arena_gqap.zig:62-237 | in every run any two live allocations, of one arena or two, are disjoint ranges inside their blocks and the backing region |
| `ArenaModel.AllocOutcomes` | sdk_arena_gqap.zig:221-237 | an allocation is exactly the bytes asked for, aligned, above the earlier ones; out of memory if and only if they do not fit |
| `ArenaModel.OneTypeNeverTraps` | sdk_arena_gqap.zig:221-237 | in every run from boot with aligned region and block size, an arena that allocates one element type only traps in its whole life only on requests whose size overflows |
| `ArenaModel.L2StaysCleanUnlessBypassed` | sdk_arena_gqap.zig:240-266 | an operation leaves data on the L2 list if and only if it retires an untrusted arena holding data through `deinitAndZero` |
| `ArenaModel.L2CleanInEveryRun` | sdk_arena_gqap.zig:354-361 | in every run without such a bypass all L2 blocks are all zeros |
| `ArenaModel.CommonStaysCleanUnlessLeft` | sdk_arena_gqap.zig:240-266 | an operation leaves data on the common list if and only if it retires a trusted arena holding data through `deinit` |
| `ArenaModel.CommonCleanInEveryRun` | sdk_arena_gqap.zig:190-266 | in every run without such a retirement all common blocks are all zeros |
| `ArenaModel.ArenasOpenOnZeros` | sdk_arena_gqap.zig:190-218 | after every run from boot with neither shortcut an arena opens on zeros, unless it takes the top of the quarantine and that block holds data |
| `ArenaModel.ZeroingIsLocal` | sdk_arena_gqap.zig:253-257 | trusted `deinitAndZero` and sanitizing clear exactly their own block |
| `ArenaModel.BypassLeavesData` | sdk_arena_gqap.zig:254-265 | a run whose bypass files a block that is flagged zeroed and holds data |
| `ArenaModel.TopDecides` | sdk_arena_gqap.zig:134-144 | the top of the quarantine is the most recent block, so if it is eligible all are |
| `ArenaModel.DrainsAllOrNothing` | sdk_arena_gqap.zig:354-361 | at one generation and without new retirements, sanitizing empties the quarantine in exactly as many successful calls as it has blocks, or never succeeds |
| `ArenaModel.TwoGenerationsDrain` | sdk_arena_gqap.zig:344-361 | two increments after the last untrusted retirement, whatever else happened, sanitizing at the current generation empties the quarantine and counts every block |
| `ArenaModel.GracePeriod` | sdk_arena_gqap.zig:120-144 | the grace period: until two increments after an untrusted arena retired, its block stays in the quarantine with its contents, on no other list and in no arena, in every run that sanitizes with no generation to come |
| `ArenaModel.InitTakes` | sdk_arena_gqap.zig:190-218 | which block each tier gets: sanitized ones first for untrusted arenas, common ones next, and from the quarantine only one retired two generations ago; nothing otherwise |
| `ArenaModel.LastBackFirstOut` | sdk_arena_gqap.zig:87-112 | the block a trusted arena gives back is the next one a trusted arena gets |
| `ArenaModel.SanitizedTotal` | sdk_arena_gqap.zig:120-361 | what a run retires into the quarantine is still there, was counted as sanitized, or went straight to an arena |
| `ArenaPools.ArenaPools.constructor` | sdk_arena_gqap.zig:51-79 | `initPools` builds the linked records of the initial state |
| `ArenaPools.ArenaPools.PopCommon` | sdk_arena_gqap.zig:87-100 | takes the top of the common stack and clears its flags |
| `ArenaPools.ArenaPools.PushCommon` | sdk_arena_gqap.zig:103-112 | puts a block on the common stack, changing nothing else |
| `ArenaPools.ArenaPools.PushQuarantine` | sdk_arena_gqap.zig:120-132 | stamps and files a retired block |
| `ArenaPools.ArenaPools.PopSafe` | sdk_arena_gqap.zig:135-144 | takes the top of the quarantine exactly when it is two generations old |
| `ArenaPools.ArenaPools.PopL2` | sdk_arena_gqap.zig:152-165 | takes the top of the L2 stack |
| `ArenaPools.ArenaPools.PushL2` | sdk_arena_gqap.zig:167-177 | files a block on the L2 stack flagged zeroed |
| `ArenaPools.ArenaPools.InitArena` | sdk_arena_gqap.zig:190-218 | `Arena.init` on the links is the model operation; it fails exactly when no pool gives a block |
| `ArenaPools.ArenaPools.Alloc` | sdk_arena_gqap.zig:221-237 | `Arena.alloc` on the records is the model operation, with its out-of-memory and trap outcomes |
| `ArenaPools.ArenaPools.Deinit` | sdk_arena_gqap.zig:240-251 | `deinit` on the links is the model operation |
| `ArenaPools.ArenaPools.DeinitAndZero` | sdk_arena_gqap.zig:254-266 | `deinitAndZero` on the links is the model operation |
| `ArenaPools.ArenaPools.ClearMemory` | sdk_arena_gqap.zig:306-310 | clears exactly the bytes of one block |
| `ArenaPools.ArenaPools.SanitizeOne` | sdk_arena_gqap.zig:354-361 | `sanitizeOne` on the links and memory is the model operation, and reports whether the quarantine gave a block |
| `ArenaPools.ArenaPools.SanitizeBatch` | sdk_arena_gqap.zig:284-295 | one round of the sanitizer sanitizes the whole quarantine up to the batch size, or nothing |
| `ArenaPools.ArenaPools.IncrementGeneration` | sdk_arena_gqap.zig:344-346 | advances the generation and nothing else |
| `ArenaPools.ArenaPools.GetStats` | sdk_arena_gqap.zig:334-342 | the reported counts are the lengths of the three lists |
| `PerfectHash.ProgramHashesInRange` | src/perfect_hash.zig:213-235 | the program's two hashes stay below their bounds, so everything below applies to them |
| `PerfectHash.NullOnlyWhenEmpty` | src/perfect_hash.zig:187-193 | a lookup answers null if and only if the table is empty |
| `PerfectHash.CountBuckets` | src/perfect_hash.zig:65-72 | the counters are the bucket sizes |
| `PerfectHash.FourToABucket` | src/perfect_hash.zig:43-72 | there are the fewest buckets that leave room for all keys at four to a bucket |
| `PerfectHash.OrderBuckets` | src/perfect_hash.zig:76-93 | the selection sort yields a permutation of the buckets, largest first |
| `PerfectHash.CollectKeys` | src/perfect_hash.zig:109-117 | collects exactly the keys of one bucket, in item order, within the counted size |
| `PerfectHash.SeedFits` | src/perfect_hash.zig:127-146 | the nested check accepts a seed if and only if the keys get distinct free slots |
| `PerfectHash.PlaceBucket` | src/perfect_hash.zig:120-157 | finds the first seed that fits and marks its slots, or shows that none below the limit fits |
| `PerfectHash.PlaceBuckets` | src/perfect_hash.zig:100-169 | every bucket in turn gets its first fitting seed around the earlier ones, or the search stops at a bucket that no seed fits |
| `PerfectHash.SlotsDistinct` | src/perfect_hash.zig:124-157 | a complete placement gives any two items different slots, in one bucket or two |
| `PerfectHash.CompleteExcludesStuck` | src/perfect_hash.zig:100-169 | an order with a complete greedy placement is stuck nowhere, so success and failure exclude each other |
| `PerfectHash.FillEntries` | src/perfect_hash.zig:172-176 | every slot ends up with its own item's value |
| `PerfectHash.Build` | src/perfect_hash.zig:43-184 | success means every item is found under its key and no two share a slot; it fails if and only if the greedy placement of its bucket order is stuck; repeated keys always fail |
| `SeedSearchPhf.Scan` | tools/phf_generator.zig:51-54 | the fallback scan finds the first bucket holding the key, or shows there is none |
| `SeedSearchPhf.LookupInjective` | tools/phf_generator.zig:49-59 | different keys never share an index |
| `SeedSearchPhf.TrySeed` | tools/phf_generator.zig:24-34 | one seed either places all keys at homes of their own, or collides, or leaves the 256 buckets, the last exactly when it reaches such a home before any collision |
| `SeedSearchPhf.LoadFactor` | tools/phf_generator.zig:15-16 | the table is half full, a third with up to ten keys, a quarter with up to five; 9999 seeds are tried for up to ten keys, else 999 |
| `SeedSearchPhf.Generate` | tools/phf_generator.zig:12-59 | the result has the first seed that works, or lists the keys if none does (always for repeated keys); it fails exactly when the first seed that does not merely collide leaves the 256 buckets, so never with up to 128 keys; lookups find exactly the keys that have room, and the empty marker exactly when no key shares its bucket or the plain list has room or lists it, so the table is right about every key if and only if that agrees with the marker being listed |
| `SeedSearchPhf.DuplicatesNeverWork` | tools/phf_generator.zig:27-34 | no seed works for a list with a repeated key |
| `SeedSearchPhf.MarkerFoundIffHomeFree` | tools/phf_generator.zig:27-58 | on the hashed path the empty marker is found, listed or not, if and only if no other key has its bucket |
| `SeedSearchPhf.FallbackFinds` | tools/phf_generator.zig:43-55 | the plain list finds exactly the keys among the first 256, and the empty marker also whenever a place is left over |
| `Condenser.NewMessage` | python/condenser.py:42-50 | a message without a token count gets a quarter of its length, rounded down, but at least one |
| `Condenser.SortBySorts` | python/condenser.py:175-187 | the sorts are stable permutations in order |
| `Condenser.Dedup` | python/condenser.py:140-152 | the loop keeps exactly the messages that repeat no earlier fingerprint |
| `Condenser.DedupedOccurrences` | python/condenser.py:140-152 | every fingerprint that occurs is kept exactly once |
| `Condenser.DedupedPrefix` | python/condenser.py:140-152 | what was kept of the first messages stays whatever follows, so of equal messages the first is kept |
| `Condenser.DedupWithoutProtection` | python/condenser.py:140-152 | without protection one message is kept for every fingerprint of role and content |
| `Condenser.DedupedKeepsSystem` | python/condenser.py:145-147 | protected system messages survive deduplication in order |
| `Condenser.FillWindow` | python/condenser.py:177-184 | the greedy loop with its early exit computes the window function |
| `Condenser.SlidingWindow` | python/condenser.py:154-189 | the method computes the window of the specification |
| `Condenser.WindowIsPart` | python/condenser.py:154-189 | the window adds nothing |
| `Condenser.WindowIsChronological` | python/condenser.py:186-189 | a truncated window is the system messages and then the kept ones by time |
| `Condenser.WindowWithinBudget` | python/condenser.py:170-184 | the window never exceeds the larger of the limit and the system tokens |
| `Condenser.WindowLimit` | python/condenser.py:164-184 | without protection, or with protected messages that fit, the window is within the token limit |
| `Condenser.WindowStopsForAReason` | python/condenser.py:179-184 | it stops with enough messages and nine tenths of the budget used, or with nothing left out that fits |
| `Condenser.WindowStopsInTime` | python/condenser.py:183-184 | without the message it kept last there were fewer than the minimum or less than nine tenths of the budget was used |
| `Condenser.HeavierWins` | python/condenser.py:172-184 | a truncated window that keeps a message keeps all copies of every other one that weighs more by 0.6 importance and 0.4 recency and is no larger |
| `Condenser.ImportanceDecides` | python/condenser.py:173-175 | of two equal-sized messages of one time, with room for one, exactly the more important is kept |
| `Condenser.KeptBelowPassedIsSmaller` | python/condenser.py:173-182 | a message kept below one that was passed over is strictly smaller |
| `Condenser.WindowMinimum` | python/condenser.py:154-189 | the window returns the minimum if and only if the conversation fits and has that many, or the protected messages and those that fit beside them, counted in rank order, are that many; stopping early never costs one |
| `Condenser.HybridMinimum` | python/condenser.py:98-206 | the same for what HYBRID returns, where protected messages over the limit stay alone and are cut to four |
| `Condenser.CondensedMinimum` | python/condenser.py:64 | for every strategy the minimum comes back if and only if its count reaches it: all messages; the exempt ones and one per fingerprint of the others; the window's count; all, or four when cut; the hybrid count |
| `Condenser.DedupLength` | python/condenser.py:140-152 | deduplication returns the exempt messages and one of every fingerprint of the others |
| `Condenser.OtherStagesMissMinimum` | python/condenser.py:64 | DEDUP and SUMMARIZE return fewer than the minimum on requests whose window would meet it |
| `Condenser.EveryRankingIff` | python/condenser.py:172-184 | under every ranking the loop keeps enough messages if and only if every choice that fits the budget and leaves no room for another is large enough |
| `Condenser.EveryRankingArises` | python/condenser.py:172-175 | every ranking is the one some timestamps produce |
| `Condenser.MinimumWhateverScoresIff` | python/condenser.py:154-189 | the window returns the minimum for all conversations of the same messages, whatever their scores and order, if and only if they fit and are that many, or the protected ones alone are, or beside them every choice that fits and leaves no room for another is large enough |
| `Condenser.LargestFitSuffice` | python/condenser.py:177-184 | it is enough that the largest messages still needed fit the budget together |
| `Condenser.LargestNeedNotFit` | python/condenser.py:177-184 | a conversation that meets the minimum under every ranking although its largest messages do not fit |
| `Condenser.MinimumNotAlwaysMet` | python/condenser.py:64 | a conversation whose window keeps fewer than the minimum |
| `Condenser.CondensedIsPart` | python/condenser.py:98-119 | under every strategy the output is a sub-multiset of the input |
| `Condenser.HybridMeetsLimit` | python/condenser.py:105-119 | when the system messages fit, HYBRID keeps them all in order, meets the limit and never truncates |
| `Condenser.HybridIsIdempotent` | python/condenser.py:98-138 | condensing the output again changes nothing |
| `Condenser.SystemSurvivesIff` | python/condenser.py:98-206 | for every strategy exactly when all system messages survive: always without truncation; under HYBRID if they fit or are at most four; under SUMMARIZE if the conversation fits, has at most four messages, or has no system message between its first and its last three |
| `Condenser.SummarizeLosesSystem` | python/condenser.py:63 | SUMMARIZE drops a system message that fits the limit |
| `Condenser.HybridLosesSystem` | python/condenser.py:63 | HYBRID drops system messages too |
| `Condenser.RequestedStrategyIsIgnored` | python/condenser.py:62 | a condenser does what requests for a strategy ask for if and only if that strategy is its own |
| `Condenser.Condenser.Condense` | python/condenser.py:98-138 | the pipeline's messages, token counts, exact compression ratio and running totals; savings are never negative |
| `HourlyBudget.CostTracker.ChargeSync` | python_router_core.py:105-116 | the in-place update is the specified charge |
| `HourlyBudget.SpentSinceReset` | python_router_core.py:107-116 | the amount spent is exactly what was accepted since the last reset |
| `HourlyBudget.SpentWithinBudget` | python_router_core.py:112-116 | it never exceeds the budget |
| `HourlyBudget.ResetsAfterAnHour` | python_router_core.py:107-110 | a call resets if and only if it is made more than 3600 seconds after the last reset |
| `HourlyBudget.AcceptedOnReset` | python_router_core.py:107-116 | a call that resets is accepted if and only if its cost alone is within the budget |
| `HourlyBudget.AcceptedIfItFits` | python_router_core.py:112-116 | any other call is accepted if and only if its cost fits beside what was accepted since the last reset |
| `HourlyBudget.AffordableIsAccepted` | python_router_core.py:105-116 | charges that the budget covers altogether are all accepted |
| `HourlyBudget.AnyHourAtMostTwiceBudget` | python_router_core.py:105-116 | for every sequence of charges the accepted ones of any 3600 seconds total at most twice the budget |
| `HourlyBudget.TwiceBudgetIsReached` | python_router_core.py:108-112 | two charges a second apart that reach twice the budget |
| `HourlyBudget.QuietHourWithinBudget` | python_router_core.py:105-116 | an hour in which no call resets carries at most the budget |
| `ModelRouter.LastAttempt` | python_router_core.py:368-448 | the attempt that is answered is the first that is not retried, or the last allowed |
| `ModelRouter.CallProvider` | python_router_core.py:338-456 | at most one charge and `retry_count` + 1 attempts; the answer is that of the first outcome that is no listed timeout, rate-limited overload or exception, or of the last attempt allowed, with its text; an unknown model, a refused charge and a throw end the call before any attempt |
| `ModelRouter.CallSucceedsIff` | python_router_core.py:368-401 | a call succeeds if and only if it is priced, charged, has a session and meets a good answer before any final failure, and then returns that answer |
| `ModelRouter.SplitJoins` | python_router_core.py:204 | a candidate splits at its first slash, and only if it has one |
| `ModelRouter.LaunchedExactly` | python_router_core.py:203-217 | exactly the candidates of registered providers are launched |
| `ModelRouter.CandidatesTakeTurns` | python_router_core.py:320-335 | uniform routing takes turns: consecutive requests call every candidate once, split at its first slash, and then start over |
| `ModelRouter.SmartFollowsChoice` | python_router_core.py:276-318 | smart routing calls the provider the weighted choice picks, and without one the candidate whose turn it is |
| `ModelRouter.AwaitRace` | python_router_core.py:219-247 | for every completion order the winner is the first success to finish, if there is one; exactly the calls not finished by its round are cancelled |
| `ModelRouter.NoSessionNoSuccess` | python_router_core.py:260-261 | without a started session no call succeeds |
| `ModelRouter.ModelRouter.RouteDirect` | python_router_core.py:180-192 | one provider's answer, or a race without fallback; on a router that was never started no request succeeds or records a win |
| `ModelRouter.ModelRouter.Route` | python_router_core.py:180-274 | race mode succeeds if and only if some launched call does, then adds exactly one win; a fallback is one level deep and never rescues the request |
| `RouterCore.Choose` | python/router_core.py:206-239 | the cost choice respects an affordable limit, and the race strategy takes the first available provider |
| `RouterCore.Select` | python/router_core.py:194-217 | only available providers are selected, and none exactly when none is available |
| `RouterCore.SelectsLeast` | python/router_core.py:206-239 | of the available providers the fastest, the cheapest or the one of least priority number is selected, by the strategy |
| `RouterCore.TiesGoToTheFirst` | python/router_core.py:225-239 | ties go to the provider registered first |
| `RouterCore.AvailableInOrder` | python/router_core.py:196 | available providers are listed in the order of their registration |
| `RouterCore.RoundRobinTakesTurns` | python/router_core.py:219-223 | round robin: over any run of requests without a preference, whatever their outcomes, as many consecutive requests as there are available providers go to all of these, each once, and the next starts over |
| `RouterCore.OnlyServiceable` | python/router_core.py:64-66 | only healthy and degraded providers are selected, and none exactly when there are none |
| `RouterCore.PreferredWins` | python/router_core.py:200-204 | a preferred provider is selected whenever it is available, under every strategy |
| `RouterCore.RacersExactly` | python/router_core.py:249-253 | every named available provider races as often as it is named; without names each available one races once |
| `RouterCore.WinnerOf` | python/router_core.py:268-295 | the winner of a race is the first success to finish |
| `RouterCore.ApplyInv` | python/router_core.py:143-349 | every operation keeps the router's totals equal to the sums over providers |
| `RouterCore.BooksBalance` | python/router_core.py:143-349 | over every run, including timeouts, the totals equal the sums and no provider fails more often than it is asked |
| `RouterCore.RouteBooks` | python/router_core.py:157-180 | a call is one request of its provider and a failure exactly if it raised, with its tokens and cost, and changes nobody else |
| `RouterCore.RaisedCallDemotes` | python/router_core.py:182-184 | only a raised call changes a status, to DEGRADED, exactly when failed over total is above the threshold |
| `RouterCore.LatencyConverges` | python/router_core.py:167-169 | the average latency closes in on a steady one by a tenth of the distance with every call |
| `RouterCore.RaceBooks` | python/router_core.py:268-305 | a race books its first success and the failures seen before it, and nothing else |
| `RouterCore.RegisterKeepsBooksIff` | python/router_core.py:132-135 | registration keeps the books if and only if the new ledger continues the old one or is empty |
| `RouterCore.WrittenOffStep` | python/router_core.py:64-66 | an operation neither uses nor changes a provider that is unhealthy by its ledger |
| `RouterCore.UnhealthyForGood` | python/router_core.py:194-349 | as long as calls do not overlap, a provider marked unhealthy is never selected or raced again and stays unhealthy |
| `RouterCore.HealthCheckDecides` | python/router_core.py:336-349 | after a health check a provider is available if and only if its failure rate is at most 0.8 |
| `RouterCore.HealthCheckCounts` | python/router_core.py:336-349 | in whole numbers: more than eight failures in ten are unhealthy, more than three degraded |
| `RouterCore.HealthCheckRevivesDisabled` | python/router_core.py:342-347 | a disabled provider becomes available again |
| `RouterCore.RouterCore.RegisterProvider` | python/router_core.py:132-135 | the in-place registration is the specified one |
| `RouterCore.RouterCore.SelectProvider` | python/router_core.py:194-223 | selection and round-robin index in place, as in the specification whose rotation and choices are proved below |
| `RouterCore.RouterCore.Route` | python/router_core.py:143-192 | `route` updates the ledgers as specified for results, failures and exceptions |
| `RouterCore.RouterCore.RouteRace` | python/router_core.py:241-313 | `route_race` updates the ledgers as specified and reports the first success, a timeout or failure |
| `RouterCore.RouterCore.HealthCheckAll` | python/router_core.py:336-349 | the loop over providers is the specified health check |
| `RouterSteps.NextInv` | python/router_core.py:143-349 | every step of overlapping calls, races and checks (selection, booking, comparison, status write) keeps the router's totals equal to the sums over providers |
| `RouterSteps.BooksBalanceInterleaved` | python/router_core.py:143-349 | in every interleaving the totals equal the sums and no provider fails more often than it is asked |
| `RouterSteps.StaysWrittenOffIff` | python/router_core.py:157-185 | a step brings a written-off provider back if and only if it books a return that redeems the ledger, or writes DEGRADED after a failure, or writes a verdict reached earlier |
| `RouterSteps.OffThroughoutIff` | python/router_core.py:157-349 | a provider stays written off throughout a run if and only if no step brings it back |
| `RouterSteps.StaysOffIff` | python/router_core.py:157-185 | read off the calls on it alone: it stays written off, with nobody about to change that, if and only if no call on it returns with a ledger that redeems it and none that raised finds the failure rate above the threshold |
| `RouterSteps.NoNewUse` | python/router_core.py:196-255 | while a provider is written off no call, race or check newly gets hold of it |
| `RouterSteps.RetiredForGood` | python/router_core.py:143-349 | once the calls in flight on a written-off provider are over, it is never listed, chosen, raced or changed again in any interleaving |
| `RouterSteps.LateFailureRevivesIff` | python/router_core.py:174-185 | a call in flight on a written-off provider that raises makes it available again if and only if the failure rate is above the failover threshold: always for thresholds up to 0.8, never from 1 on |
| `RouterSteps.LateFailureRevives` | python/router_core.py:174-185 | an interleaving from the empty router in which a provider is marked unhealthy, revived by a late failure, and selected again |
| `RouterSteps.UninterruptedRoute` | python/router_core.py:143-192 | a call that nothing overlaps with does what `route` does in one step |
| `RouterSteps.UninterruptedRace` | python/router_core.py:241-313 | so does a race |
| `RouterSteps.UninterruptedCheck` | python/router_core.py:336-349 | so does a health check |
| `Vfs.FindChild` | sdk/vfs.zig:57-62 | the first child of a name, or none |
| `Vfs.ResolvedExists` | sdk/vfs.zig:100-125 | a path that resolves names a node of the tree |
| `Vfs.ResolveFactors` | sdk/vfs.zig:134-141 | resolving a path is resolving its directory and entering its last name |
| `Vfs.AddedLookup` | sdk/vfs.zig:53-55 | a new leaf changes exactly the lookup of its own place, and only if its name was free |
| `Vfs.ReadAfterCreate` | sdk/vfs.zig:128-157 | reading a created file gives its data if its last name is plain and was free, and otherwise what it gave before; without a leading slash it is never readable |
| `Vfs.CreateKeepsOthers` | sdk/vfs.zig:128-196 | creating a file or directory leaves every path that resolved reading as before |
| `Vfs.DeleteKeepsOthers` | sdk/vfs.zig:160-180 | a deletion leaves every path that passes no deleted place resolving and reading as before, jumps to the root included |
| `Vfs.ReadsLast` | sdk/vfs.zig:128-196 | over every run a path that resolves keeps reading as it does until a place on its way, or a directory above one, is deleted |
| `Vfs.CreateThenDelete` | sdk/vfs.zig:128-180 | deleting a file just created under a free name restores the whole state |
| `Vfs.CreateSucceedsIff` | sdk/vfs.zig:128-150 | a file is created exactly when the file system is writable, the tree holds fewer files than allowed and has room, the data is not too large and the directory part resolves; which error is reported otherwise |
| `Vfs.DeleteSucceedsIff` | sdk/vfs.zig:160-180 | a deletion succeeds exactly when its parent resolves and has a child of the name |
| `Vfs.ReadSucceedsIff` | sdk/vfs.zig:153-157 | a read succeeds exactly on a path that resolves to a file, with its data |
| `Vfs.DotsAtTheEnd` | sdk/vfs.zig:108-117 | "." changes nothing, and ".." jumps to the root but not from the root |
| `Vfs.RemovedLookup` | sdk/vfs.zig:170-177 | a deletion changes nothing outside the deleted place |
| `Vfs.RemovedIsGone` | sdk/vfs.zig:170-177 | a deleted name is gone if its siblings do not share it |
| `Vfs.AccurateIffClean` | sdk/vfs.zig:145-178 | an operation keeps the totals equal to the tree if and only if a deletion hits a subtree of one file |
| `Vfs.ProperStep` | sdk/vfs.zig:128-196 | if files have no children, creating under directories and deleting files meets that condition and gives no file a child |
| `Vfs.TotalsMatchTree` | sdk/vfs.zig:100-196 | over every run from the empty tree that creates under directories and deletes files, the totals are the sizes and number of files in the tree, and both respect the quotas |
| `Vfs.LimitsHold` | sdk/vfs.zig:129-132 | over every run no file exceeds the size limit, and a read-only file system never changes |
| `Vfs.DeletingDirectoryMiscounts` | sdk/vfs.zig:170-173 | deleting a directory makes the file count wrong |
| `Vfs.VfsAdapter.Resolve` | sdk/vfs.zig:100-125 | the component loop computes the specified resolution, with its errors |
| `Vfs.VfsAdapter.CreateFile` | sdk/vfs.zig:128-150 | checks quotas in order and adds the file as specified |
| `Vfs.VfsAdapter.ReadFile` | sdk/vfs.zig:153-157 | returns the data or the error of the specification |
| `Vfs.VfsAdapter.DeleteFile` | sdk/vfs.zig:160-180 | removes the first child of the name as specified |
| `Vfs.VfsAdapter.CreateDir` | sdk/vfs.zig:183-196 | adds the directory as specified |
| `Zmtp.BigEndianRoundTrip` | tools_zmq_ng.zig:246 | reading an eight-byte network-order length undoes writing it |
| `Zmtp.SentBytes` | tools_zmq_ng.zig:231-246 | the bytes a peer sees: flag byte and one length byte up to 254 bytes of body, flag byte with 2 added and eight length bytes, most significant first, beyond |
| `Zmtp.FlagBits` | tools_zmq_ng.zig:264-266 | a received flag byte is read by its two lowest bits, whatever the others are |
| `Zmtp.SendFrame` | tools_zmq_ng.zig:229-254 | the bytes written are the encoding of the frame, in either length form |
| `Zmtp.Stream.RecvFrame` | tools_zmq_ng.zig:257-291 | the loop computes the decoding for any split of the body into positive reads |
| `Zmtp.Stream.RecvFrames` | tools_zmq_ng.zig:257-291 | so does receiving several frames, each with read sizes of its own |
| `Zmtp.FrameRoundTrip` | tools_zmq_ng.zig:229-291 | decoding an encoded frame gives it back and leaves exactly what follows |
| `Zmtp.StreamRoundTrip` | tools_zmq_ng.zig:229-291 | a list of frames is read back exactly, to the last byte |
| `Zmtp.SendThenReceive` | tools_zmq_ng.zig:229-291 | end to end: the frames that were sent are received, for all read sizes, and nothing is left |
| `Zmtp.EncodingIsUnambiguous` | tools_zmq_ng.zig:229-254 | different lists of frames never have the same bytes |
| `Zmtp.TruncatedFrameFails` | tools_zmq_ng.zig:283-290 | a frame cut short inside its body is refused |
| `KernelVersion.Find` | src/boot.zig:88-90 | the first occurrence of the prefix, or none |
| `KernelVersion.FindIsFirst` | src/boot.zig:88-90 | the prefix is found wherever it stands, and no later than any place it stands at |
| `KernelVersion.ParseU32Decimal` | src/boot.zig:96-99 | parsing undoes decimal printing on every `u32` and refuses larger numbers |
| `KernelVersion.WindowIsExact` | src/boot.zig:92-93 | three `u32` numbers and two dots always fit in the 32-byte window, and the largest fill it |
| `KernelVersion.ParseFindsVersion` | src/boot.zig:87-102 | a version printed after the first prefix in the first 256 bytes is read back exactly |
| `KernelVersion.NoPatch` | src/boot.zig:99-100 | a version of major and minor alone has patch 0 |
| `KernelVersion.PatchIsNoNumber` | src/boot.zig:99-100 | so has one whose third part is no number, like a release tag |
| `KernelVersion.MajorAndMinorNeeded` | src/boot.zig:97-98 | a version without a second part or with a first part that is no number is refused |
| `KernelVersion.MinimumIsNumericOrder` | src/boot.zig:128-130 | the minimum check is the numeric order of major and minor |
| `Cognitive.EstimateIsLow` | src/cognitive.zig:113-116 | four times the estimate never exceeds the bytes there are |
| `Cognitive.EstimateIsClose` | src/cognitive.zig:113-116 | the estimate loses at most three bytes per message |
| `Cognitive.PartsAddUp` | src/cognitive.zig:113-137 | estimates add up over parts of a conversation, which are joined in their order |
| `Cognitive.Truncate` | src/cognitive.zig:130-137 | the copy loop fills the whole buffer with the first bytes of the messages |
| `Cognitive.Condense` | src/cognitive.zig:110-147 | above the limit every byte of the summary is written and it is the first 4 * max_tokens bytes |

## Left out

- The generation stamp in the step model of the quarantine's pop: whether its top block is old enough is any answer there, and exact in `ArenaModel`.
- EveryRankingIff: for a budget that is not negative; `MinimumWhateverScoresIff` covers every budget and speaks of what is returned.
- NextInv: listing the available providers, choosing among them and reading a failure rate are one step each; a provider registered during a health check, which stops Python's loop over the dictionary, is not modelled as an error.
- Pool use before `initPools`, a second `initPools`, and failing `mmap` or metadata allocation.
- Wrap-around of the pool counters, the generation counter and the VFS totals: they are integers, and `PoolSteps` allows `count` to go below zero between a swap and its counter update.
- `bootSecurityValidation`, thread affinity and sleeping of the sanitizer thread.
- `getPtr`, `deinit` and the frees on the failure path of the hash table; `hashU32` is an arbitrary function of key and seed, and the compile-time branch quota is not modelled.
- Message fingerprints and scores as numbers: fingerprints are an arbitrary function, scores are exact reals.
- Latencies, token counts and costs of model responses; payload shapes, JSON, HTTP and tiktoken.
- The weighted random choice of smart routing: which provider it picks is a parameter, so nothing is said about its distribution.
- `unregister_provider`, metrics export and the thread pool of the provider router.
- Vfs.VfsAdapter.CreateFile: the tree is a value, so nodes handed out to callers are not aliased with it; `checkPermission`, the `rewritePath` stub, symbolic links, pipes, sockets and freeing memory are not modelled.
- Short reads of a frame's length field, negative results of system calls, endpoint parsing, greeting and subscriptions of the message sockets.
- Reading `/proc/version`, sign characters in `std.fmt.parseInt` (they are separators here) and the rest of the boot sequence.
- The compression ratio of the bridge's condenser (a float) and the failure of its arena allocation.
- Signal switch, skill scheduler, orchestrator, skill loaders, signature checks, eBPF, seccomp, Landlock, netlink and io_uring: kernel interfaces, stubs or components whose invariants are simpler than those above.
