# Prompt optimiser and proxy: a verified model

The system sits between an application and a language model. A **proxy** logs conversations, swaps part of each
system prompt for one of several *variants*, and collects ratings. An **optimiser** picks up sessions with enough
ratings, infers the common template of their prompts, asks a language model for better prompts and *promotes* them as
the session's new variants. Variants live in Redis (a cache that expires) over Postgres (durable); ratings are counted
in Redis hashes that are later rolled up per variant; a **janitor** archives logs and evicts unused cache entries. A
second optimiser, **GEPA**, evolves a pool of candidate prompts along its Pareto frontier; it is complete code that the
optimiser's own cycle does not call.

The model follows the program's own form. Code that updates objects, slices or tables is a class or a method with the
same loops and branches, proved equal to a specification function; the theorems are about those functions, about runs of
them, and about interleavings of the individual store commands.

| module | what it models |
|---|---|
| `Pareto`, `Ranking`, `GepaRun` | the GEPA loop: dominance, frontier, parent draw, acceptance, top-n, data splitting, and every run of it |
| `Sampling` | round-robin choice of rated samples and the all-positive short-circuit |
| `WeightedPick` | the clock-driven weighted choice of a variant, and the equal weights promotion writes |
| `Text`, `Splice` | template inference, segment search and replacement over Go's string operations |
| `Glob`, `Keys` | Redis's scan patterns; its key names and the code that takes them apart |
| `VariantStore` | the two-tier variant store, one operation at a time, over all runs |
| `VariantProtocol` | the same store, command by command, with any number of readers interleaved with a writer |
| `ServedPrompts` | from a promotion through the store, the pick and the splice to the forwarded prompt |
| `FeedbackCounters`, `RollupRace` | vote counters and rollup: whole runs, and one rollup racing live ratings |
| `DriverProtocol` | the optimiser's cycle as a step machine: feedback consumption and cadence |
| `ConversationLogs` | the bounded log, request/response pairing, and the archive |

`Common` and `StoreTypes` hold shared types. Randomness, the clock, the language model, the scorer and the order in which
Go walks a map or Redis answers a SCAN are inputs, so a theorem quantified over them covers every outcome.

## What the proofs brought out

Each of these is a lemma; the code is modelled as it is.

- While ratings come in, votes go missing from conversations and variants in two ways only: a rollup's delete finds votes
  that its read had not, or its read finds votes without a variant and books them to the session. All votes are there
  exactly when no turn did either (`NothingMissingIffUndisturbed`, `ShortfallIsWhatLanded`). A rating's pipeline is not
  a transaction, so both can happen to a rating that names its variant (`RatingDuringTurnIsLost`,
  `HalfNamedIsMisfiled`, `NothingMisfiledIffReadsNamed`).
- One after the other, a run of ratings and rollups conserves its ratings exactly when no rollup scans a conversation
  that holds votes without a variant (`ConservedIffNothingSwept`, `RunConservesIffNamed`, `UnnamedRatingIsSwept`).
- A rating under another variant takes the conversation's pending votes along (`RecordMovesPending`); per variant, the
  books are off by exactly those (`VariantHoldsItsRatings`).
- A cached set is out of date, with no write in flight, exactly when it was put there by a reader that queried Postgres
  before the last commit and found another set (`StaleComesFromSlowReader`, `SlowReaderLeavesStale`).
- A write that fails in one tier leaves the two coherent only when the cache held nothing else or, without the commit,
  when nothing changed (`WriteCoherentIff`, `WriteSeenIff`).
- The Postgres table gives a set back whole exactly when its ids are pairwise distinct, so promoted sets survive exactly
  when the candidate prompts are distinct; candidates are not de-duplicated
  (`TableKeepsListIffDistinct`, `PromotionKeptIffPromptsDistinct`).
- The weighted pick divides by zero exactly when the total weight is positive but below one thousandth
  (`PanicsExactlyWhenTiny`, `TinyWeightPanics`).
- A template is cut whole out of a sample it was inferred from exactly when it has three or more words separated by
  single spaces; a double space defeats the match (`SpliceIsExact`, `DoubleSpaceDefeatsMatch`).
- A log key splits back into its session exactly when the key hash has no colon, and Redis-only mode sees a session
  exactly when neither of its names has one (`SplitLogRoundTrip`, `SessionSeenIffNoColons`).
- A session's scan reads the session id as a pattern (`ScanReadsIdAsPattern`). For an id without pattern characters it
  meets another session's conversations exactly when one id continues the other past a colon and, in one of the two
  directions, the conversation id begins with the rest (`ScanMeetsExactly`, `ColonLetsScanStray`,
  `ConversationColonLetsScanStray`). A star in an id reaches every session that begins alike, and a bracket makes the
  scan miss the session's own conversations (`StarLetsScanStray`, `BracketHidesOwnKeys`).
- The variant a conversation is archived under depends on how its requests and responses interleaved exactly when the
  newest of each that name a variant name different ones (`VariantIgnoresInterleaving`).
- A conversation archived before its response was logged is never completed (`HalfRowStaysHalf`,
  `CopiedBeforeResponse`).
- Promotions of a session keep their distance after one that Redis accepted; after one that Redis refused and Postgres
  committed, the session is as ready as before and may be promoted again at once (`PromotionsKeepTheirDistance`,
  `ReadyAgainIffRefused`, `RefusedPromotionRepeats`).
- A cycle marks an unused rating of a sampled conversation as used without counting it exactly when the rating arrived
  after the sample or stands in a row the sample left out; rows are a conversation's ratings under one comment
  (`SpentUncountedIffLateOrLeftOut`, `OtherCommentIsSpent`, `LateRatingIsSpent`).

Where the code and its own prose differ, the code is modelled:

- docs/optimizer-container.md:32-33 and the comment at internal/store/pg/store.go:307-309 speak of one optimisation
  window; the Postgres query waits ten (internal/store/pg/store.go:311).
- The comment at internal/optimizer/janitor/janitor.go:93-94 says variants are retired in Postgres; that call is
  commented out, so the janitor only evicts from Redis. Reads from Postgres also ignore `active_until`
  (internal/store/pg/store.go:81-87). A promoted set therefore stays live until the next one replaces it.
- docs/optimizer-container.md:89-90 describes step 8 without the feedback marking that precedes it
  (internal/optimizer/driver.go:108), whose error is discarded; the model assumes it succeeds.

## Model

| member | source | states |
|---|---|---|
| `Pareto.Mean` | internal/optimizer/gepa/gepa.go:146-155 | the loop computes the average, zero for no values |
| `Pareto.MeanIsAverage` | internal/optimizer/gepa/gepa.go:146-155 | a single value is its own mean, and means weigh by length when score lists are joined |
| `Pareto.CheckDominates` | internal/optimizer/gepa/pareto.go:25-39 | the early-exit loop decides dominance as a quantified predicate, including vectors of different lengths |
| `Pareto.DominanceIsStrictPartialOrder` | internal/optimizer/gepa/pareto.go:25-39 | dominance is irreflexive, asymmetric and transitive on all score vectors, with no assumption on lengths |
| `Pareto.DominanceByPoints` | internal/optimizer/gepa/pareto.go:25-39 | one point decides by its score, further points one by one, and the other's scores beyond one's own are ignored |
| `Pareto.DominanceRaisesMean` | internal/optimizer/gepa/pareto.go:25-39 | dominating a vector of the same length means a strictly larger mean |
| `Pareto.ParetoFrontier` | internal/optimizer/gepa/pareto.go:5-23 | the nested loops return, in order, exactly the members nobody in the pool dominates |
| `Pareto.FrontierIsInOrder` | internal/optimizer/gepa/pareto.go:5-23 | the undominated are kept in pool order, each as often as it occurs |
| `Pareto.FrontierCovers` | internal/optimizer/gepa/pareto.go:5-23 | whatever the pool dominates, one of its frontier members dominates |
| `Pareto.FrontierPartition` | internal/optimizer/gepa/pareto.go:5-23 | each member is on the frontier or dominated by a frontier member, never both; a non-empty pool has a non-empty frontier |
| `Pareto.FrontierIdempotent` | internal/optimizer/gepa/pareto.go:5-23 | the frontier of the frontier is itself |
| `Pareto.FrontierIncremental` | internal/optimizer/gepa/pareto.go:5-23 | adding a candidate to the pool or to its frontier gives the same frontier |
| `Pareto.SampleFromFrontier` | internal/optimizer/gepa/pareto.go:41-61 | the running-sum loop picks the first member whose cumulative mass reaches the scaled draw; none only for an empty frontier |
| `Pareto.SliceIsWeightPlusOne` | internal/optimizer/gepa/pareto.go:48-56 | a member's slice of the cumulative mass is its weight plus one, a missing weight being zero, and the draw is stretched over the whole mass |
| `Pareto.SampleIsProportional` | internal/optimizer/gepa/pareto.go:48-60 | for non-negative weights exactly one member owns the draw, a slice of width weight plus one, and the trailing fallback never decides |
| `Ranking.StableSortIsStableDescending` | internal/optimizer/gepa/gepa.go:157-185 | the reference order is a descending rearrangement that keeps equal scores in pool order |
| `Ranking.FirstBestLeads` | internal/optimizer/gepa/gepa.go:169-182 | taking the first best candidate and sorting the rest is sorting |
| `Ranking.ScanBest` | internal/optimizer/gepa/gepa.go:167-177 | one scan finds the first best unpicked position, or -1 exactly when all are picked |
| `Ranking.SelectTopN` | internal/optimizer/gepa/gepa.go:157-185 | repeated selection over the `picked` array returns the first min(n, size) of the stable descending sort |
| `Ranking.TopNIsPrefix` | internal/optimizer/gepa/gepa.go:157-185 | min(n, size) candidates, the first of the stable descending sort; a smaller n gives a prefix of a larger n |
| `Ranking.TopNIsBest` | internal/optimizer/gepa/gepa.go:157-185 | picked and left out make up the pool, and nothing left out beats anything picked |
| `Ranking.BestIsFirstBest` | internal/optimizer/gepa/candidate.go:34-44 | the best candidate is the first of those with the largest score |
| `Ranking.BestHeadsTopN` | internal/optimizer/gepa/gepa.go:128-129 | the best candidate is the first of any non-empty selection and nobody scores higher |
| `Ranking.CandidatePool.Add` | internal/optimizer/gepa/candidate.go:20-24 | the pool is append-only |
| `Ranking.CandidatePool.All` | internal/optimizer/gepa/candidate.go:26-32 | a copy of the pool, in order |
| `Ranking.CandidatePool.GetBest` | internal/optimizer/gepa/candidate.go:34-44 | the loop finds the best candidate, none for an empty pool |
| `GepaRun.Shuffle` | internal/optimizer/gepa/dataset.go:24-26 | the in-place swaps are the Fisher-Yates shuffle of the copied slice |
| `GepaRun.ShuffleKeepsPoints` | internal/optimizer/gepa/dataset.go:24-26 | shuffling loses and invents no data point |
| `GepaRun.ShuffleReachesEvery` | internal/optimizer/gepa/dataset.go:24-26 | every rearrangement of the data is the outcome of some swaps |
| `GepaRun.Split` | internal/optimizer/gepa/dataset.go:19-33 | the two halves, with the whole data set kept for fractions outside (0, 1) and a cutoff of at least one |
| `GepaRun.SplitPartitions` | internal/optimizer/gepa/dataset.go:19-33 | the halves partition the data and the Pareto half of non-empty data is not empty |
| `GepaRun.ParetoHalfSize` | internal/optimizer/gepa/dataset.go:20-32 | the Pareto half has the asked fraction of the data, rounded down, but at least one point; all of it for an improper fraction |
| `GepaRun.SetsAreTheSplit` | internal/optimizer/gepa/gepa.go:50-53 | on any data a run works on the two halves; its fallback is never needed |
| `GepaRun.Minibatch` | internal/optimizer/gepa/dataset.go:35-48 | the points at the first n positions of a permutation, or everything when n is large enough |
| `GepaRun.MinibatchDrawsOnce` | internal/optimizer/gepa/dataset.go:35-48 | a batch has min(n, size) points of the data at the permuted positions, none drawn twice |
| `GepaRun.BatchIsDrawn` | internal/optimizer/gepa/gepa.go:84-89 | an iteration scores on at most the configured number of points, of the feedback half whenever there is one |
| `GepaRun.DefaultsFillZeros` | internal/optimizer/gepa/gepa.go:36-44 | zero fields and only those get the defaults 50, 5, 0.3, 0.01 and 3; no crossover means frequency zero |
| `GepaRun.ChildIsBred` | internal/optimizer/gepa/gepa.go:98-104 | the child is a crossover with a frontier member exactly when enabled, won by the coin and possible; otherwise a mutation |
| `GepaRun.WinnersEnter` | internal/optimizer/gepa/gepa.go:94-125 | from every reachable state with a batch, the child of the draw's owner joins pool and history, with its parent, prompt, scores and generation, and adds one to that parent's weight, when it beats the parent by more than the threshold; otherwise nothing changes |
| `GepaRun.PoolIsSeedAndWinners` | internal/optimizer/gepa/gepa.go:68-126 | over every run the final pool is the seed and one candidate for each iteration that bred a winner |
| `GepaRun.InitialInvariant` | internal/optimizer/gepa/gepa.go:59-76 | the seeded state satisfies the run invariant |
| `GepaRun.StepInvariant` | internal/optimizer/gepa/gepa.go:78-126 | every iteration keeps it: history is the pool, iterations is pool size less one and the sum of weights, weights count children, generations increase, all were scored on the same data; the seed stays first |
| `GepaRun.LoopInvariant` | internal/optimizer/gepa/gepa.go:68-126 | so does the whole loop, from any state that satisfies it |
| `GepaRun.GenerationsIncrease` | internal/optimizer/gepa/gepa.go:113-122 | generations strictly increase along the pool |
| `GepaRun.ParentIsEarlier` | internal/optimizer/gepa/gepa.go:113-122 | every member but the seed names an earlier member as its parent |
| `GepaRun.DistinctIds` | internal/optimizer/gepa/gepa.go:113-122 | no two pool members share an id |
| `GepaRun.LineageEndsAtSeed` | internal/optimizer/gepa/gepa.go:113-124 | following parent ids from any member ends at the seed |
| `GepaRun.ParentAlwaysFound` | internal/optimizer/gepa/gepa.go:79-92 | the `parent == nil` exit is never taken; an iteration stops exactly for want of a minibatch |
| `GepaRun.BatchesAreNonEmpty` | internal/optimizer/gepa/gepa.go:84-92 | with any data, batches are empty exactly when the batch size is not positive |
| `GepaRun.RunUsesWholeBudget` | internal/optimizer/gepa/gepa.go:78-92 | a run on any data takes a `break` exactly when it has a budget and no positive batch size |
| `GepaRun.ReachableDrawIsProportional` | internal/optimizer/gepa/gepa.go:79-83 | in every reachable state the parent drawn is the owner of the draw, and there is one |
| `GepaRun.EveryPlaceIsEarned` | internal/optimizer/gepa/gepa.go:78-126 | in every run each candidate but the seed beat, by more than the threshold on its batch, a parent from the frontier of the pool before it |
| `GepaRun.BestOnFrontier` | internal/optimizer/gepa/gepa.go:128-129 | the best candidate is on the Pareto frontier of the pool |
| `GepaRun.FinalStateIsGood` | internal/optimizer/gepa/gepa.go:46-137 | every run on non-empty data ends in a reachable state whose best is on the frontier, heads the top n, and scores at least the seed |
| `GepaRun.Rollout` | internal/optimizer/gepa/gepa.go:78-126 | one pass through the loop body, pool and counters updated in place |
| `GepaRun.Evolve` | internal/optimizer/gepa/gepa.go:68-126 | the loop over the budget, to where its specification ends |
| `GepaRun.Optimize` | internal/optimizer/gepa/gepa.go:50-136 | seed, loop and selection give the result of the final state |
| `GepaRun.Run` | internal/optimizer/gepa/gepa.go:36-137 | nothing for no data; otherwise, with the defaults filled in, a result with all of the above |
| `Sampling.SelectBalanced` | internal/store/redis/feedback.go:414-451 | bucketing and the round-robin loop realise turn-taking among the three classes |
| `Sampling.RoundRobin` | internal/store/pg/store.go:417-436 | the same loop in the Postgres copy: each turn pops one head, empty buckets are skipped, it stops when full or when no bucket moved |
| `Sampling.TurnsAreBalanced` | internal/store/redis/feedback.go:431-450 | turns divide the places in the balanced way and take a prefix of each class |
| `Sampling.ClassesAreScores` | internal/store/redis/feedback.go:421-430 | the three classes are score 1, score -1 and the rest |
| `Sampling.SelectionContinues` | internal/store/redis/feedback.go:431-450 | a larger sample continues a smaller one, which fixes the order positive, negative, neutral in turn |
| `Sampling.SelectionIsBalanced` | internal/store/redis/feedback.go:414-451 | min(n, size) items, each class a prefix of its own items in order, a later class never ahead and none behind by more than one unless exhausted |
| `Sampling.BalancedIsUnique` | internal/store/redis/feedback.go:431-450 | those rules determine every class's share |
| `Sampling.BalancedIsMaxMinFair` | internal/store/redis/feedback.go:431-450 | giving a class more must take from a class at most one place ahead of it |
| `Sampling.FillBuckets` | internal/store/pg/store.go:375-388 | each variant's bucket holds its rows, in row order |
| `Sampling.SelectSamples` | internal/store/pg/store.go:375-397 | the concatenated selections of the buckets, in any bucket order |
| `Sampling.BucketOfConcat` | internal/store/pg/store.go:387 | a bucket keeps its variant's rows in row order, as often as they occur |
| `Sampling.EachVariantIsSampled` | internal/store/pg/store.go:393-396 | what the result holds of a variant is the balanced selection from that variant's rows alone |
| `Sampling.SamplesAreRows` | internal/store/pg/store.go:375-397 | every sample is one of the rows |
| `Sampling.AllPositive` | internal/optimizer/driver.go:142-152 | true exactly for a non-empty list of scores one |
| `Sampling.SelectionShowsBad` | internal/store/redis/feedback.go:414-451 | with two places or more, a bucket's sample is all positive exactly when the bucket is |
| `Sampling.SamplingHidesNothing` | internal/optimizer/driver.go:42-75 | with two or more per variant, the short-circuit fires on the sample exactly when it would on all rows of all variants |
| `Sampling.SamplingCanHide` | internal/optimizer/driver.go:42-75 | for every smaller number per variant there are rows on which the two differ |
| `Sampling.SamplingExactFromTwo` | internal/optimizer/driver.go:42-75 | the short-circuit agrees on sample and rows, for all of them, if and only if two or more are sampled per variant |
| `WeightedPick.PickWeightedRandom` | internal/proxy/handler.go:220-240 | the loop picks the first variant whose cumulative thousandths reach the residue, with the zero-total, empty and zero-divisor cases |
| `WeightedPick.PickOwnsResidue` | internal/proxy/handler.go:228-238 | for non-negative weights totalling a thousandth or more, the pick is the variant whose slice of cumulative thousandths holds the clock's residue modulo the total's whole thousandths |
| `WeightedPick.NoWeightPicksFirst` | internal/proxy/handler.go:221-230 | the first variant without weight, the zero variant without variants |
| `WeightedPick.ServedInProportion` | internal/proxy/handler.go:220-240 | over any period-long block of clock readings the pick returns a variant for its weight in thousandths of them, give or take two, or one for whole totals |
| `WeightedPick.PicksAreProportional` | internal/proxy/handler.go:231-238 | over one period each variant is chosen for its weight in thousandths of the residues, give or take two, or one when the total is whole |
| `WeightedPick.PicksCoverPeriod` | internal/proxy/handler.go:231-239 | the counts add up to the period, and the final return is never reached by falling through |
| `WeightedPick.PanicsExactlyWhenTiny` | internal/proxy/handler.go:228-231 | for any weights and any clock, the divisor is zero exactly when the total is in (0, 0.001) |
| `WeightedPick.TinyWeightPanics` | internal/proxy/handler.go:228-231 | a single small weight panics |
| `WeightedPick.Promote` | internal/optimizer/promoter.go:25-37 | one variant per candidate, in order, with its prompt, the hash of it and an equal share; nothing for no candidates |
| `WeightedPick.PromotedPicksAreFair` | internal/optimizer/promoter.go:29-37 | promoted sets have a period of one thousand, never panic, and give each variant its share of residues give or take one |
| `Text.TrimParts` | internal/proxy/handler.go:252 | trimming removes exactly the surrounding white space |
| `Text.FieldsAreWords` | internal/proxy/handler.go:256 | splitting yields non-empty words without white space |
| `Text.FieldsOfJoin` | internal/proxy/handler.go:256-262 | splitting undoes joining with single spaces |
| `Text.FieldsKeepText` | internal/proxy/handler.go:256 | splitting loses nothing but white space |
| `Splice.CommonPrefix` | internal/optimizer/driver.go:235-245 | the index loop computes the common prefix |
| `Splice.LcpIsGreatest` | internal/optimizer/driver.go:235-245 | it is a prefix of both and every common prefix is a prefix of it |
| `Splice.DeriveTemplate` | internal/optimizer/driver.go:221-233 | the loop with its early exit computes the trimmed common prefix of all samples |
| `Splice.SharedIsGreatest` | internal/optimizer/driver.go:221-233 | before trimming, the template is the greatest common prefix of all samples |
| `Splice.TemplateIsShared` | internal/optimizer/driver.go:232 | the template is that greatest common prefix but for white space around it |
| `Splice.FindReplacementSegment` | internal/proxy/handler.go:251-275 | both search loops compute the segment |
| `Splice.SegmentIsPiece` | internal/proxy/handler.go:251-275 | sound: a non-empty segment occurs in the prompt and splits back into three or more consecutive template words |
| `Splice.SegmentIsComplete` | internal/proxy/handler.go:251-275 | complete: it is empty exactly when no three-word window of the template occurs in the prompt |
| `Splice.SegmentIsMaximal` | internal/proxy/handler.go:260-266 | when a prefix of three or more words occurs, the longest such prefix is returned |
| `Splice.SegmentIsFirstWindow` | internal/proxy/handler.go:267-273 | when no such prefix occurs, the leftmost three-word window that does is returned |
| `Splice.RewritePrompt` | internal/proxy/handler.go:119-124 | find the segment, replace it once, or leave the prompt |
| `Splice.RewriteIsLocal` | internal/proxy/handler.go:119-124 | only the first occurrence of the segment changes; text before and after it is kept |
| `Splice.NoSegmentNoRewrite` | internal/proxy/handler.go:121-122 | without a segment the prompt is left alone |
| `Splice.WholeTemplateFound` | internal/proxy/handler.go:251-275 | a trimmed template occurring in the prompt is selected whole exactly when it is three or more single-spaced words |
| `Splice.DoubleSpaceDefeatsMatch` | internal/proxy/handler.go:256-266 | three words, the first two a double space apart, are their own template and are not found whole in themselves |
| `Splice.SpliceIsExact` | internal/proxy/handler.go:119-124 | for every sample a template was inferred from: selected whole exactly when single-spaced, and then rewritten to leading white space, variant, untouched remainder |
| `ServedPrompts.ServePrompt` | internal/proxy/handler.go:113-136 | the variant part of a request: pick, segment, replacement, and every way back to the baseline |
| `ServedPrompts.BaselineIffNoWindow` | internal/proxy/handler.go:113-136 | given a usable set, the baseline is forwarded exactly when no three-word window of the template occurs in the prompt; otherwise the picked variant is, spliced in at the first occurrence |
| `ServedPrompts.BaselineIsUntouched` | internal/proxy/handler.go:113-136 | without a set, prompt, segment or injection the prompt is forwarded as it came; the only panic is the pick's |
| `ServedPrompts.PromotionKeptIffPromptsDistinct` | internal/optimizer/promoter.go:29-38 | with an injective hash, Postgres keeps a promoted set whole exactly when its prompts are pairwise distinct |
| `ServedPrompts.PromotedPick` | internal/proxy/handler.go:220-240 | in any order of a promoted set, any clock picks one of the promoted prompts under its own id |
| `ServedPrompts.PromotedPromptsAreServed` | internal/proxy/handler.go:114-130 | over every run of the stores and any clock: a sampled prompt comes back as leading white space, one of the latest promoted prompts, and the untouched remainder |
| `Keys.SplitLogKey` | internal/store/redis/log.go:165-180 | the loop splits at the first colon after the prefix, or fails |
| `Keys.SplitLogRoundTrip` | internal/store/redis/log.go:165-180 | it undoes the log key builder exactly when the key hash has no colon |
| `Keys.SplitLogInverts` | internal/store/redis/log.go:165-180 | any successful split is the key's text behind the prefix cut at its first colon, and it fails exactly without one |
| `Glob.LiteralFirst` | internal/store/redis/feedback.go:310 | literal text in front of a scan pattern is stripped from what it matches, for every pattern |
| `Glob.LiteralThenStar` | internal/store/redis/feedback.go:310 | literal text and a star match exactly what begins with the text |
| `Keys.ScanReadsIdAsPattern` | internal/store/redis/feedback.go:365-371 | for any ids, a scan meets a conversation key exactly within its key hash and where the session id, read as a pattern with a colon and a star, matches the rest |
| `Keys.ScanMeetsOwnKeys` | internal/store/redis/feedback.go:310-321 | between ids without colons or pattern characters, a session's scan meets a conversation key exactly when it is the session's own |
| `Keys.ScanMeetsExactly` | internal/store/redis/feedback.go:365-371 | for session ids without pattern characters and any conversation ids, a scan meets a conversation key exactly when it is the session's own, or that session's id continues this one past a colon, or the other way round with the conversation id beginning with the rest |
| `Keys.ColonLetsScanStray` | internal/store/redis/feedback.go:365-371 | every session whose id continues past a colon is strayed into |
| `Keys.ConversationColonLetsScanStray` | internal/store/redis/feedback.go:365-371 | and back, for conversation ids that begin with the rest and a colon |
| `Keys.StarLetsScanStray` | internal/store/redis/feedback.go:365-371 | a session id that ends in a star meets the conversations of every session that begins alike |
| `Keys.BracketHidesOwnKeys` | internal/store/redis/feedback.go:365-371 | a bracketed session id meets another session's conversations and none of its own |
| `Keys.LogScanMeetsEveryLog` | internal/store/redis/log.go:142-163 | the janitor's pattern meets every session's log key, whatever the names |
| `Keys.ConversationIdComesBack` | internal/store/redis/feedback.go:321 | trimming the prefix off a conversation key leaves the conversation id, whatever the names contain |
| `Keys.SessionSeenIffNoColons` | internal/store/redis/feedback.go:145-150 | a session-feedback key is recognised, and as its own session, exactly when neither name has a colon |
| `VariantStore.EntryServedExactlyWhileActive` | internal/store/redis/variant.go:13-36 | an entry is served until exactly its ttl has passed, or without a positive ttl to the end of the second it names |
| `VariantStore.RedisVariants.GetVariant` | internal/store/redis/variant.go:13-26 | a miss for an absent, expired or inactive entry |
| `VariantStore.RedisVariants.SetVariants` | internal/store/redis/variant.go:28-36 | overwrites one session's entry and nothing else |
| `VariantStore.RedisVariants.DeleteVariants` | internal/store/redis/variant.go:51-53 | removes one session's entry |
| `VariantStore.PgVariants.SetVariants` | internal/store/pg/store.go:40-75 | retire all, then upsert each, as one state change |
| `VariantStore.PgVariants.GetActiveVariants` | internal/store/pg/store.go:79-120 | exactly the rows not retired, each once, with their latest expiry; nothing when there are none |
| `VariantStore.ReplaceActivates` | internal/store/pg/store.go:47-72 | after a write exactly the last variant per id is active, and all expire together |
| `VariantStore.ReplaceIsLocal` | internal/store/pg/store.go:47-72 | other sessions' rows are untouched and no row disappears |
| `VariantStore.ReplaceDistinct` | internal/store/pg/store.go:47-72 | for distinct ids the active rows are the list written |
| `VariantStore.TableKeepsListIffDistinct` | internal/store/pg/store.go:58-72 | the table gives back exactly the list written if and only if its ids are pairwise distinct |
| `VariantStore.WriteKeepsCoherence` | internal/store/layered/store.go:85-95 | a write brings both tiers to the new set and leaves other sessions coherent |
| `VariantStore.OpKeepsCoherence` | internal/store/layered/store.go:45-95 | so does every other operation: reads with re-warm, eviction, loss of Redis |
| `VariantStore.RunsAreCoherent` | internal/store/layered/store.go:45-95 | every run keeps the table at each session's latest set and the cache within it |
| `VariantStore.ReadsReturnLatest` | internal/store/layered/store.go:45-95 | after any run, at any clock and whichever Redis commands of a read fail, a read whose Postgres query succeeds returns the session's latest set, or nothing if there was none |
| `VariantStore.RewarmServesRemainingTime` | internal/store/layered/store.go:72-82 | after a miss that Postgres answers, Redis serves the set for what is left of its active time or a minute, whichever is longer, and not beyond |
| `VariantStore.WriteServesWholeTtl` | internal/store/layered/store.go:85-95 | after a write Redis serves the new set for its ttl, and not beyond |
| `VariantStore.LossEmptiesCache` | internal/store/redis/variant.go:51-53 | eviction empties one session's cache, losing Redis all, and the table stays |
| `VariantStore.OpIsLocal` | internal/store/layered/store.go:45-95 | reads and writes of a session leave what the tiers hold of others alone |
| `VariantStore.WrittenSetIsReadBack` | internal/store/pg/store.go:40-120 | Postgres gives a written set back with its expiry in whole seconds |
| `VariantStore.LayeredStore.GetVariant` | internal/store/layered/store.go:45-83 | a hit changes nothing; a miss or failed read answers with the table's active rows, or nothing if that query fails, and, if that command succeeds, re-warms for the rest of their time, at least a minute; without Postgres, Redis alone |
| `VariantStore.LayeredStore.SetVariants` | internal/store/layered/store.go:85-95 | each tier is written or refuses on its own, with its own clock reading, and only Redis's failure is reported |
| `VariantStore.WriteSeenIff` | internal/store/layered/store.go:45-95 | for every outcome of the two writes and any later clock, a read sees the new set exactly when the tier that answers it took the write or had the set already |
| `VariantStore.WriteCoherentIff` | internal/store/layered/store.go:85-95 | for every outcome of the two writes, the tiers end coherent with the new set exactly under a condition on the state before |
| `VariantProtocol.StepKeepsInv` | internal/store/layered/store.go:45-95 | each command of reader, writer, janitor and clock keeps the invariant over table, cache, readers in flight and pending write |
| `VariantProtocol.RunKeepsInv` | internal/store/layered/store.go:45-95 | so does every interleaving |
| `VariantProtocol.CommitKeepsInv` | internal/store/pg/store.go:40-75 | a commit installs exactly the pending set while readers hold older ones |
| `VariantProtocol.CachedSetsAreWhole` | internal/store/layered/store.go:45-95 | in every interleaving a cached set is one whole set once passed to a write of that session, never a mix |
| `VariantProtocol.StaleComesFromSlowReader` | internal/store/layered/store.go:62-79 | with no write in flight, a cached set is stale exactly when a reader put it there that queried before the last commit and found another set; it lives for the larger of a minute and the old set's remaining time |
| `VariantProtocol.SlowReaderLeavesStale` | internal/store/layered/store.go:62-79 | such an interleaving exists, for any two different variants |
| `VariantProtocol.SettledStays` | internal/store/layered/store.go:45-95 | a settled session stays settled under every command but a write of it |
| `VariantProtocol.SettledUntilNextWrite` | internal/store/layered/store.go:45-95 | from a settled state the cached set stays current through every interleaving until the session is next written |
| `VariantProtocol.QuietWriteSettles` | internal/store/layered/store.go:85-95 | a commit settles its session exactly when no reader of it is past its query and the cache holds, if anything, what is being written |
| `VariantProtocol.QuietWriteIsWrite` | internal/store/layered/store.go:85-95 | the writer's commands, undisturbed, are the atomic write of the two tiers |
| `VariantProtocol.QuietReadIsRead` | internal/store/layered/store.go:45-83 | the reader's commands, undisturbed, are the atomic read-through with its re-warm |
| `VariantProtocol.QuietStepsMatch` | internal/store/layered/store.go:45-54 | a live entry ends a read at once; eviction, loss of Redis and time are the atomic ones |
| `FeedbackCounters.FeedbackStore.RecordFeedback` | internal/store/redis/feedback.go:15-44 | one rating bumps its conversation and its session, renames the conversation's variant, keeps an old comment when none is given, and does nothing without a conversation |
| `FeedbackCounters.RatingVotesBySign` | internal/store/redis/feedback.go:15-44 | a positive rating adds an up-vote, a negative one a down-vote, to conversation and session alike; variant and comment are those of the rating, an empty comment keeping the old; no other hash changes |
| `FeedbackCounters.SessionHoldsItsRatings` | internal/store/redis/feedback.go:33-39 | over every run each session holds its own ratings plus what was swept into it, and counts how often it was rated |
| `FeedbackCounters.FeedbackStore.RollupConversationFeedback` | internal/store/redis/feedback.go:363-404 | the scan loop rolls up the keys it is handed, in that order, repetitions included |
| `FeedbackCounters.FlattenIsInOrder` | internal/store/redis/feedback.go:366-402 | the keys rolled up are those of all batches, in order, as often as handed out |
| `FeedbackCounters.FeedbackStore.RollupOne` | internal/store/redis/feedback.go:371-397 | one key's votes are added to its variant, or to the session for the unnamed variant, and its hash deleted |
| `FeedbackCounters.EveryRatingCountedTwice` | internal/store/redis/feedback.go:15-44 | over every run and any scan results, conversation, variant and session counts add up to twice the ratings recorded |
| `FeedbackCounters.ConservedIffNothingSwept` | internal/store/redis/feedback.go:376-395 | over every run, sessions hold the ratings plus, and conversations and variants the ratings less, the votes the unnamed branch swept into sessions; conserved exactly when it swept none |
| `FeedbackCounters.RollupConservesIffNamed` | internal/store/redis/feedback.go:376-395 | one rollup conserves votes exactly when, before it, no scanned conversation holds votes without a variant |
| `FeedbackCounters.RunConservesIffNamed` | internal/store/redis/feedback.go:363-404 | a run conserves its ratings exactly when each of its rollups starts that way |
| `FeedbackCounters.UnnamedRatingIsSwept` | internal/store/redis/feedback.go:379-386 | after any run, an unnamed rating is swept by the next rollup that scans its conversation |
| `FeedbackCounters.NamedRatingsAreConserved` | internal/store/redis/feedback.go:363-404 | when every rating names a variant, conversation and variant counts equal the ratings, up and down, after any run |
| `FeedbackCounters.UnnamedRatingIsMisplaced` | internal/store/redis/feedback.go:379-386 | without a name, one rating and one rollup leave neither count with it |
| `FeedbackCounters.RollupDeletesScanned` | internal/store/redis/feedback.go:371-397 | exactly the scanned conversations are gone |
| `FeedbackCounters.RollupMovesExactly` | internal/store/redis/feedback.go:371-397 | a variant gains exactly the votes pending for it in the scanned conversations, whatever the order and repetition of keys |
| `FeedbackCounters.CoveringRollupDrains` | internal/store/redis/feedback.go:363-404 | a scan that covers the session leaves nothing of it pending, all of it counted |
| `FeedbackCounters.RecordMovesPending` | internal/store/redis/feedback.go:20-26 | a rating under another variant carries the conversation's pending votes over to it |
| `FeedbackCounters.RatingBalancesIffVariantKept` | internal/store/redis/feedback.go:20-26 | a rating keeps its variant's books exactly when it renames no pending votes |
| `FeedbackCounters.VariantHoldsItsRatings` | internal/store/redis/feedback.go:363-404 | per variant and over every run, votes held and renamed away equal the ratings for it and votes renamed to it; exact when the renamings even out |
| `FeedbackCounters.VariantRatingsAreConserved` | internal/store/redis/feedback.go:363-404 | so rolled-up and pending votes equal the ratings for it over every run that renames none |
| `RollupRace.StepKeepsBooks` | internal/store/redis/feedback.go:15-44 | each Redis command of rollup and ratings, in any order, keeps the books: everything counted and lost is what reached conversations and sessions and what is copied but not deleted; sessions hold their votes and the misfiled ones; half-sent ratings are the difference |
| `RollupRace.RunKeepsBooks` | internal/store/redis/feedback.go:371-397 | so does every interleaving of one rollup at a time with any number of ratings in flight, named variants or not |
| `RollupRace.ShortfallIsWhatLanded` | internal/store/redis/feedback.go:371-397 | visible votes less those held twice fall short of the votes recorded by exactly those that landed between a key's read and its delete and those misfiled to a session, and never exceed them |
| `RollupRace.UnnamedMeansHalfNamed` | internal/store/redis/feedback.go:20-26 | when every rating names its variant, a conversation holds votes without one only while a rating is between its vote and its name |
| `RollupRace.MissingWasMet` | internal/store/redis/feedback.go:371-397 | misfiled and doomed votes are those reads met without a variant, lost votes those deletes found beyond what was read |
| `RollupRace.NothingMissingIffUndisturbed` | internal/store/redis/feedback.go:371-397 | at every moment of every interleaving, all votes are visible and none is about to be misfiled exactly when every read met named votes only and every delete found no more than was read |
| `RollupRace.NothingMisfiledIffReadsNamed` | internal/store/redis/feedback.go:376-386 | nothing is misfiled or about to be exactly when every read that opened a turn found a variant or no votes |
| `RollupRace.WholeReadsMisfileNothing` | internal/store/redis/feedback.go:371-397 | so with named ratings and no key read while one of its ratings is half-named |
| `RollupRace.TurnMisfilesUnnamed` | internal/store/redis/feedback.go:376-386 | a turn misfiles exactly what it read without a variant |
| `RollupRace.HalfNamedIsMisfiled` | internal/store/redis/feedback.go:20-26 | a named rating caught between its first two commands is misfiled |
| `RollupRace.WholeRatingIsRecord` | internal/store/redis/feedback.go:15-44 | undisturbed, a rating's commands from first to last do what the sequential RecordFeedback does |
| `RollupRace.RatingDuringTurnIsLost` | internal/store/redis/feedback.go:371-397 | a vote that reaches the key a turn holds is lost, from any state |
| `RollupRace.QuietTurnIsRollupKey` | internal/store/redis/feedback.go:371-397 | undisturbed, the four commands of a turn do what the sequential rollup does |
| `DriverProtocol.FeedbackTable.RecordFeedback` | internal/store/pg/store.go:181-188 | a new event starts unused |
| `DriverProtocol.FeedbackTable.MarkFeedbackUsed` | internal/store/pg/store.go:478-488 | every event of the listed conversations, used before or not, is counted up; no other changes |
| `DriverProtocol.MarkUsedCountsUp` | internal/store/pg/store.go:478-488 | marking adds one use to every event of the session's sampled conversations, used before or not, and to no other |
| `DriverProtocol.CycleTakesSessionsInOrder` | internal/optimizer/driver.go:39-130 | a cycle works its ready list in order, samples each session and records its promotion |
| `DriverProtocol.SkipAndMarksStampNow` | internal/optimizer/driver.go:70-75 | an all-positive sample, like a promotion, marks the session optimised at the current time and changes nothing else |
| `DriverProtocol.OutsideStepsAdd` | internal/store/pg/store.go:181-188 | between steps ratings append unused events, archived logs accumulate, time passes |
| `DriverProtocol.ReadyIffRestedAndRated` | internal/store/pg/store.go:310-343 | with Postgres a session is ready exactly when at least the configured number of its conversations are rated and archived and it was never marked or more than ten windows ago |
| `DriverProtocol.ReadyAloneIffRested` | internal/store/redis/feedback.go:155-162 | without, exactly when rated so often and never marked or a window past the whole second of the mark |
| `DriverProtocol.StepKeepsUsedOnce` | internal/optimizer/driver.go:39-131 | every step keeps: contributed events are marked used, and the current sample's have not contributed |
| `DriverProtocol.EventsContributeAtMostOnce` | internal/optimizer/driver.go:26-132 | over every run, each event counts in at most one cycle that produced candidates |
| `DriverProtocol.SpentUncountedIffLateOrLeftOut` | internal/optimizer/driver.go:42-108 | from sample to mark, through any ratings, archiving and time: an unused event is spent uncounted exactly when it is of the session and a sampled conversation and arrived after the sample or belongs to a row left out |
| `DriverProtocol.OtherCommentIsSpent` | internal/store/pg/store.go:366 | of two ratings of a conversation under different comments, the sample may take one and the mark spends both |
| `DriverProtocol.LateRatingIsSpent` | internal/optimizer/driver.go:42-108 | a rating of a sampled conversation that arrives before the mark is marked used without having counted |
| `DriverProtocol.ReadyMeansRested` | internal/store/redis/feedback.go:155-162 | a ready session's last mark lies more than the guaranteed gap back, in both modes |
| `DriverProtocol.RunIsSpaced` | internal/optimizer/driver.go:26-132 | every run, with refused promotions too, keeps accepted ones spaced from later ones, marks no older than accepted promotions, and the sessions still to do rested |
| `DriverProtocol.PromotionsKeepTheirDistance` | internal/store/pg/store.go:310-343 | a promotion Redis accepted and any later one of the session are more than ten windows apart with Postgres, and more than a window less a second apart without |
| `DriverProtocol.ReadyAgainIffRefused` | internal/optimizer/promoter.go:38-40 | with Postgres, a session stays ready after a refused promotion and not after an accepted and marked one |
| `DriverProtocol.RefusedPromotionRepeats` | internal/optimizer/promoter.go:38-40 | from any state with two fresh conversations of a ready session there is a legal run that promotes it twice at one moment |
| `ConversationLogs.RedisLog.LogRequest` | internal/store/redis/log.go:35-55 | push and trim keep the hundred newest |
| `ConversationLogs.RedisLog.LogResponse` | internal/store/redis/log.go:57-77 | likewise for responses |
| `ConversationLogs.RedisLog.ReadConversationLogs` | internal/store/redis/log.go:82-138 | the pairing of the requested range |
| `ConversationLogs.WindowIsNewest` | internal/store/redis/log.go:49-51 | after any sequence of logs the list is its newest hundred, newest first |
| `ConversationLogs.JanitorReadsWholeWindow` | internal/optimizer/janitor/janitor.go:72 | the janitor's read sees the whole window |
| `ConversationLogs.PairUp` | internal/store/redis/log.go:94-124 | the map-filling loop gives each conversation its newest usable prompt, response and variant |
| `ConversationLogs.PairedIsNewest` | internal/store/redis/log.go:94-124 | exactly the named conversations of the list are paired, each with its newest prompt, response and variant |
| `ConversationLogs.PreferredText` | internal/store/redis/log.go:105-120 | a request offers its original prompt before the forwarded one before its snippet, a response its text before its snippet |
| `ConversationLogs.RangeIsHead` | internal/store/redis/log.go:84 | a read of n entries is the newest n; asking for none reads all |
| `ConversationLogs.NewestIsFirstUsable` | internal/store/redis/log.go:105-123 | what a pair holds is the first usable text of its conversation in the newest-first list, and nothing exactly when no entry has any |
| `ConversationLogs.PairingIgnoresInterleaving` | internal/store/redis/log.go:94-124 | which conversations pair up, and their prompts and responses, do not depend on how requests and responses interleave |
| `ConversationLogs.VariantIgnoresInterleaving` | internal/store/redis/log.go:100-123 | the variant is the same for every interleaving exactly when the newest request and the newest response that name one agree, or only one kind names any |
| `ConversationLogs.VariantCanDependOnInterleaving` | internal/store/redis/log.go:100-123 | lists on which it is not exist, for any two variants |
| `ConversationLogs.LogTable.InsertConversationLog` | internal/store/pg/store.go:281-290 | inserts a new row, leaves an existing one |
| `ConversationLogs.LogTable.CopyLogs` | internal/optimizer/janitor/janitor.go:71-84 | the loop archives the pairs worth storing, in any order |
| `ConversationLogs.ArchivedRowIsPair` | internal/store/pg/store.go:281-290 | a newly archived row holds its pair's prompt, response and variant, empty texts as NULL, exactly for pairs with a prompt or a response |
| `ConversationLogs.InsertNeverOverwrites` | internal/store/pg/store.go:281-290 | an insert adds its row or, if the key is taken, nothing |
| `ConversationLogs.ArchiveIsIdempotent` | internal/optimizer/janitor/janitor.go:60-91 | archiving twice is archiving once, no existing row changes, and rows appear exactly for pairs worth storing |
| `ConversationLogs.FirstOfferWins` | internal/optimizer/janitor/janitor.go:71-84 | over any rounds a row is what the first round with anything to store offered |
| `ConversationLogs.HalfRowStaysHalf` | internal/store/pg/store.go:281-290 | a row is complete after any rounds exactly when that first offer was |
| `ConversationLogs.CopiedBeforeResponse` | internal/optimizer/janitor/janitor.go:71-84 | a request archived before its response keeps a row without a response although a later read offers both |

## Left out

- Pareto.Mean: scores and weights are exact reals; float64 rounding, infinities and NaN are not modelled. The same holds of every sum of weights and of the period in `WeightedPick`.
- Pareto.ParetoFrontier: the source skips a candidate by reference; the model compares candidates by value, which changes nothing because equal candidates never dominate each other.
- GepaRun.Run: the scorer returns one score per data point, as both shipped scorers do, and generated ids are distinct; similarity scoring, reflection text and the model's answers are arbitrary inputs.
- Splice.CommonPrefix: strings are sequences of code points. The source compares bytes, so inside a multi-byte character its common prefix can end between two bytes.
- Keys.ScanReadsIdAsPattern: the order and repetition of SCAN results are arbitrary inputs elsewhere; here only what its pattern matches is modelled, over characters where Redis compares bytes.
- VariantStore.PgVariants.GetActiveVariants: the rows come in an unspecified order; ordering by id is not modelled, and no theorem depends on it.
- VariantStore.WriteCoherentIff: an expired cache entry counts as still held; what reads notice at a given time is stated by `WriteSeenIff`.
- VariantProtocol.StepKeepsInv: a command's own clock readings coincide with its effect, there is one writer at a time, and its writes succeed; failing writes are covered one operation at a time by `WriteCoherentIff`.
- FeedbackCounters.FeedbackStore.RecordFeedback: expiry of feedback hashes, `lastUpdated` and Redis errors are not modelled.
- RollupRace.RunKeepsBooks: one rollup runs at a time, and a pipeline's commands all arrive, in order.
- DriverProtocol.EventsContributeAtMostOnce: Postgres mode with successful sample queries and marks only. A failed sample query falls back to Redis (internal/store/layered/store.go:233-243), whose rows do not depend on what is marked used; in Redis mode MarkFeedbackUsed issues a delete that names no fields.
- DriverProtocol.RunIsSpaced: samples are any subset of the rows the query finds, and steps may skip a session at any point, so the balanced choice, template storage, rollup and language-model calls inside a cycle are covered by over-approximation.
- Sampling.SelectSamples: how rows are assembled from logs and vote totals, and the final sort by conversation id in the Redis version, are not modelled; the theorems hold for any rows and any order of buckets.
- ConversationLogs.RedisLog.ReadConversationLogs: timestamps, content types, snippets cut from bodies, JSON and key expiry are not modelled; the result is a map because its order is Go's map order.
- HTTP serving, forwarding, CORS, access checks, configuration, the studio page, provider adapters and process entry points: input, output and wiring.
- Prompt building and candidate parsing (internal/optimizer/driver.go:154-215): text plumbing; candidates are an arbitrary list.
- Best-prompt, history and session-prompt records: single-key overwrites that would only add easy members.
- The janitor's query for unused sessions (internal/store/pg/store.go:140-174): eviction may hit any session at any time, which covers it.
- datasetFromSession (internal/store/redis/feedback.go:177-243): it pairs neighbouring entries of a newest-first list, and no correct-pair claim holds for it.
