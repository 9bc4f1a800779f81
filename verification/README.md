# Verified model of the offline market-data pipeline

A Dafny model of the stateful parts of the pipeline, one module per component, with proofs about every
input, every run or every interleaving. `dafny verify dfyconfig.toml` checks all of it.

| module | component |
|---|---|
| `DayCounter`, `Solver` | brick counting per UTC day, its median, and the scale-to-target solver for k |
| `ParamsFile`, `ParamsStore`, `RunProtocol`, `RunHistory` | the shared parameter file, its write-behind queue under any interleaving with a foreign process, the stage / kill / resume / promote protocol, and what its runs leave on file |
| `Grid`, `GridSeries`, `WriteDays`, `RequestLimiter` | the on-chain backfill: 1 s composition grid and what it publishes, staged multi-file commit, request pacing |
| `SourceStreams`, `KWayMerge`, `CycleEmit`, `MergeIdx` | chunked readers, the heap merge, the cycle clock, and the three together |
| `ShardWriter` | the day-rotating shard writer |
| `IdxRecord`, `BinMerge`, `HealTicker`, `HealOwnDay` | index records and stable sorting, bin merging, healing of a shard tree, and which day its records end on |
| `PhantomMigration` | moving shard trees off phantom ids, with kills and restarts |
| `HeavyGate` | the counting semaphore for heavy work |
| `SessionGaps`, `S10Check` | the session-aware gap audit and the streaming `.s10` validator |
| `Wrappers`, `Arith`, `Calendar` | options and results, integer arithmetic, UTC days |

Conventions. Prices, volatilities and k are reals; timestamps are integer milliseconds. A file is the
sequence of its records, rename is atomic and a file lock is mutual exclusion. Code outside the
repository (`RenkoGenerator`, the TDWAP kernel, `ProviderEntry`, `composite`, `twap`, the CI codec) is a
function parameter, so every result holds for any deterministic version of it. A source object with
mutable fields is a class whose methods are tied to a specification function; concurrent protocols and
crashes are step systems with a theorem about every reachable state.

## What the code does where its own text says otherwise

- The solver's counter is documented as decreasing in k (`src/bar_construction/calibrate.rs:151-155`).
  It is not: days that fall empty leave the median. `DayCounter.LargerBricksRaiseTheMedian` runs one counter
  at two sizes, and `DayCounter.AntitoneExactlyWhen` decides from one window's counts whether any larger k
  can raise its median. `Solver` proves its bracket facts without monotonicity and optimality only with it.
- The gap audit says a 24/7 tape excuses nothing (`src/bin/data_quality_audit.rs:1100-1104`, `1143-1145`).
  Every gap over a UTC midnight is excused: `SessionGaps.RoundTheClockOutageReadsClosed`.
- The shard writer's truncate-once holds for runs that stop at the first error. For runs that append on,
  `ShardWriter.ConvergesExactlyUnlessUnlinkFailed` says exactly which closed dates still converge, and
  `ShardWriter.AppendingPastAFailedUnlinkKeepsOldRecords` is one that does not.
- Healing carries one shard over verbatim under today's name, replaces whatever was staged for today, and
  drops every other shard dated today or later. `HealTicker.HealConservesExactlyWhen` says from the source
  tree alone when every bin output of the ticker is under its own timestamp's day and no unhealed shard is lost;
  `StagedTodayIsOverwritten`, `LaterShardIsDropped` and `LaterShardIsMisfiled` are trees where that fails.
  Records of other tickers are dropped by design (`HealOwnDay.OtherTickersAreDropped`), and a bin that begins
  on an earlier day takes its records there (`HealOwnDay.WideBinIsMisfiled`):
  `HealOwnDay.EveryRecordOnItsDayExactlyWhen` says when each closed record is filed under its own day.
- The phantom migration's comment says it never overwrites and never deletes
  (`src/bin/migrate_phantom_ids.rs:210`). A date whose destination and park slot are both taken overwrites the
  parked file: `PhantomMigration.TakenParkSlotIsOverwritten`. `PhantomMigration.LosesNoneExactlyWhenParkFree` says
  when a run loses no file.
- A kill of the calibrator is said to lose at most `flush_every` of outcomes (`src/bin/nxr_calibrate.rs:138-140`).
  That holds until a due flush fails with outcomes queued: `ParamsStore.Store.Stage`.
- A failed backfill is said to touch nothing (`src/bin/onchain_backfill.rs:551`). A failure after the first rename
  leaves the files already replaced, unless each step repeats what was there:
  `WriteDays.FailedRunTouchesNothingExactly`.
- A bin stays inside its UTC day exactly when its width divides a day
  (`BinMerge.BinsStayInDayExactlyForDivisors`); the comment at `src/idx_heal.rs:150-152` does not say so.
- The limiter's rate holds exactly when `per_sec` divides 1000
  (`RequestLimiter.RateHoldsExactlyForDivisors`), because the gap is in whole milliseconds.

## Model

| member | source | states |
|---|---|---|
| DayCounter.MedianBelow | src/bar_construction/calibrate.rs:268-269 | the median is monotone in every count: pointwise smaller counts never have a larger median |
| DayCounter.SortSorts | src/bar_construction/calibrate.rs:268-269 | the sort behind the median orders the counts and keeps every one of them |
| DayCounter.ScoreIsValid | src/bar_construction/calibrate.rs:161-174 | a dead window scores 0 days and median 0; a scored one has a median of at least 1 |
| DayCounter.ScoreMeans | src/bar_construction/calibrate.rs:151-174 | a window is scored by its days with bricks in any order: it needs all of its days, or at least three and half of them, and scores their number and median |
| DayCounter.ScoreBelow | src/bar_construction/calibrate.rs:151-174 | fewer bricks on every day with the same empty days: same verdict, no larger median |
| DayCounter.AntitoneExactlyWhen | src/bar_construction/calibrate.rs:151-155 | no way to lose bricks and days raises a window's median if and only if the window is unscored or the middle of its `min_clean` largest counts is not above its median, which its own counts decide |
| DayCounter.FewerBricksScoreLess | src/bar_construction/calibrate.rs:151-155 | from such a window, fewer bricks on any days never score a higher median |
| DayCounter.MedianBelowBusiest | src/bar_construction/calibrate.rs:161-174 | whichever days survive, their median is at most the middle of as many of the larger window's largest counts |
| DayCounter.KeepBusiest | src/bar_construction/calibrate.rs:161-174 | some window keeps exactly the m largest counts and has no other bricks |
| DayCounter.CalmDaysLost | src/bar_construction/calibrate.rs:151-174 | a whole family of windows whose median rises from y to z while every daily count falls |
| DayCounter.NotAntitone | src/bar_construction/calibrate.rs:151-155 | the documented monotonicity fails on counts: seven days with median 1 fall to median 9 |
| DayCounter.LargerBricksRaiseTheMedian | src/bar_construction/calibrate.rs:199-278 | it fails for a counter: over the same ticks bricks of 9 give median 1 and bricks of 10 median 9, although no day gains a brick |
| DayCounter.DayIndexMeans | src/bar_construction/calibrate.rs:225-242 | a tick goes to the day that contains it, and what is left after the last whole day to the last one |
| DayCounter.WindowSelects | src/bar_construction/calibrate.rs:236-238 | on ascending prices the two binary searches keep exactly the ticks within both bounds |
| DayCounter.WindowIs | src/bar_construction/calibrate.rs:236-239 | the window replayed is exactly the stretch of the prices inside both bounds |
| DayCounter.BricksConserved | src/bar_construction/calibrate.rs:240-248 | every emitted brick is counted on exactly one day |
| DayCounter.DayBricks | src/bar_construction/calibrate.rs:240-248 | a day's bricks are those its own ticks emit, each from the generator that all earlier ticks left |
| DayCounter.CountPerDay | src/bar_construction/calibrate.rs:199-278 | the whole counter: per-day saturating brick counts of the window, scored over the clean days; nothing for an empty window or an unbuildable generator |
| DayCounter.Count | src/bar_construction/calibrate.rs:226-248 | the replay loop produces exactly each day's bricks, capped at 64 bits |
| Solver.FurtherIsWorse | src/bar_construction/calibrate.rs:487-496 | on one side of the target, a median further away is a larger error, a dead window the largest |
| Solver.ErrorMeans | src/bar_construction/calibrate.rs:487-496 | the error times the target is the distance of the median from the target |
| Solver.AcceptsMeans | src/bar_construction/calibrate.rs:396-409 | a k is accepted if and only if it has a scorable day and its median is within the tolerance either side of the target |
| Solver.ClampIsNearest | src/bar_construction/calibrate.rs:379 | clamping gives the nearest k of the range |
| Solver.WarmStart | src/bar_construction/calibrate.rs:379-412 | clamped guess, up to two clamped scale steps, the second only after a scalable miss; an accepted k is in range and within tolerance |
| Solver.WarmFromMeans | src/bar_construction/calibrate.rs:383-411 | which scale steps are taken, from which k, and which of them is the result |
| Solver.OneStepUnderInverseLaw | src/bar_construction/calibrate.rs:395 | where the median is c / k one scale step lands exactly on the target |
| Solver.UpperSeedIsLargest | src/bar_construction/calibrate.rs:418-425 | the bracket opens at the largest of the configured seed, both scale steps and twice the floor |
| Solver.ExpandUpper | src/bar_construction/calibrate.rs:443-449 | the doubling terminates, stays below the cap, and stops with the median under the target or at the cap; its end doubles a k still at or above the target |
| Solver.Bisect | src/bar_construction/calibrate.rs:468-480 | median(lo) > target >= median(hi) through every step; the final width is below the stop width or the opening width halved `iters` times |
| Solver.PickRung | src/bar_construction/calibrate.rs:485-503 | the rung kept is one of the two, no worse than either, and has a scorable day |
| Solver.RungsAreOneStep | src/bar_construction/calibrate.rs:511-523 | inside the range a rung up is one log step and a rung down undoes it |
| Solver.Fallback | src/bar_construction/calibrate.rs:419-504 | rejected as too flat exactly when the median at the floor is not above the target; otherwise no crossing below the cap, or a bracket inside [floor, ceiling] with the better rung, whose upper end was doubled from the largest candidate until under the target |
| Solver.RungProbe | src/bar_construction/calibrate.rs:511-531 | returns the least error of the three candidates, never leaves the range, and keeps k when neither neighbour is better |
| Solver.ClampedAntitone | src/bar_construction/calibrate.rs:104-127 | a larger k clamps no more samples |
| Solver.MostlyClamped | src/bar_construction/calibrate.rs:104-127 | the clamped fraction is over the limit if and only if more than half of the samples, counted as a set, are clamped |
| Solver.VerdictMeans | src/bar_construction/calibrate.rs:566-598 | a probed k is rejected if and only if it is below 1.01 floors, or more than half of the samples are clamped at it |
| Solver.Search | src/bar_construction/calibrate.rs:378-506 | which way the k before the probe is found, and the exact reasons there is none |
| Solver.Solve | src/bar_construction/calibrate.rs:319-598 | for any counter with valid statistics: the result is 0 exactly on a rejection, otherwise the probed k, inside [K_FLOOR, K_MAX_SAFETY] when the seed and twice the floor are; once a path is found the probed k is returned if and only if it is at least 1.01 floors and at most half of the samples are clamped at it, and which of the two rejects it; each earlier rejection has its cause; the reject for a k with no scorable day is never taken |
| Solver.AcceptedIsSound | src/bar_construction/calibrate.rs:533-598 | an accepted k is at least 1 % above the floor, at most K_MAX_SAFETY when the configured seed and twice the floor are, responsive in half the window, and within tolerance when it came from the warm start |
| Solver.AntitoneFromCounts | src/bar_construction/calibrate.rs:151-174 | the solver's median is antitone when a larger k adds bricks to no day and each window counted passes its own check |
| Solver.RejectionsAreRight | src/bar_construction/calibrate.rs:431-465 | with an antitone median, a too-flat or no-crossing rejection means no k of the range has its median on the missing side |
| Solver.OutsideIsWorse | src/bar_construction/calibrate.rs:482-503 | with an antitone median, a k no worse than two ks on either side of the target can only be beaten strictly between them |
| Solver.BracketIsOptimal | src/bar_construction/calibrate.rs:416-531 | with an antitone median no k from the floor up, outside the open final bracket, is closer to the target |
| Solver.HalvedIsSmall | src/bar_construction/calibrate.rs:468-480 | the halved width times two to the number of halvings is the opening width |
| ParamsFile.StatusMeaning | src/bin/nxr_calibrate.rs:160-187 | a success clears every failure mark, a skip never counts as a failure, other tickers' status is untouched |
| ParamsFile.StagedIsLastOk | src/bin/nxr_calibrate.rs:162-164 | after any queue an id is staged with the k of its last Ok outcome |
| ParamsFile.StagedWithoutOk | src/bin/nxr_calibrate.rs:162-164 | without one it keeps what was staged, or nothing |
| ParamsFile.FailuresAddUp | src/bin/nxr_calibrate.rs:165-177 | without a success the failure count grows by the failures alone, up to 32 bits |
| ParamsFile.FailuresSinceLastOk | src/bin/nxr_calibrate.rs:165-177 | after any queue the count is the number of failures since the last success |
| ParamsFile.Loaded.ApplyStaged | src/bin/nxr_calibrate.rs:161-186 | the in-place update equals the effect of one outcome |
| ParamsFile.Loaded.ApplyQueue | src/bin/nxr_calibrate.rs:228-231 | the loop applies every queued outcome once, in order |
| ParamsStore.Store.Update | src/bin/nxr_calibrate.rs:223-240 | success replaces the file by the mutation of the logical content, keeps foreign fields, skips an identical write and empties the queue; failure changes nothing; exactly when it fails |
| ParamsStore.Store.Stage | src/bin/nxr_calibrate.rs:243-253 | the logical content gains exactly this outcome whatever the write does; at most one flush per period, also after a failure; that a kill loses at most one period is kept if and only if no due flush fails with outcomes queued |
| ParamsStore.Store.Drop | src/bin/nxr_calibrate.rs:256-265 | the last flush loses nothing and, when it succeeds, leaves an empty queue |
| ParamsStore.OwnedStep | src/bin/nxr_calibrate.rs:223-253 | a worker that moves keeps a lock, takes a free one, or gives its own up |
| ParamsStore.LocksStep | src/bin/nxr_calibrate.rs:223-253 | each of the four locks is held exactly by the worker whose position says so |
| ParamsStore.ReadsStep | src/bin/nxr_calibrate.rs:223-235 | what was read under the file lock stays what the file holds |
| ParamsStore.ReplayPushes | src/bin/nxr_calibrate.rs:228-231 | applying the queue is replaying its pushes |
| ParamsStore.CommitRefines | src/bin/nxr_calibrate.rs:228-237 | at a commit, file, queue and mutation together give the whole log |
| ParamsStore.StepInv | src/bin/nxr_calibrate.rs:223-253 | every step of every worker and of the foreign process keeps locks, reads and refinement |
| ParamsStore.RefinesWriteThrough | src/bin/nxr_calibrate.rs:107-141 | in every reachable state the file with the queue on top is what writing every event at once would give, in order and once each; at an empty queue the file is; no foreign write is reverted |
| ParamsStore.FailuresKeepEverything | src/bin/nxr_calibrate.rs:219-240 | only a commit and a foreign write change the file, only the clearing after a commit shortens the queue |
| ParamsStore.NeverDeadlocks | src/bin/nxr_calibrate.rs:119-120 | while anyone is inside, someone can take a step that is not a new call |
| ParamsStore.AloneStages | src/bin/nxr_calibrate.rs:243-253 | without interference a staged outcome is queued and its worker flushes if and only if one is due |
| ParamsStore.AloneCommits | src/bin/nxr_calibrate.rs:223-240 | without interference every update commits: the mutation of the queue's content, foreign fields kept, queue empty, locks free |
| ParamsStore.AnyFaultGivesUp | src/bin/nxr_calibrate.rs:223-240 | an update whose lock, read or write fails only gives its locks back |
| ParamsStore.ForeignCommits | src/bin/nxr_calibrate.rs:107-120 | a foreign write that finds the file lock free puts its fields on the calibrator's latest content |
| RunProtocol.ResumesExactly | src/bin/nxr_calibrate.rs:1904-1923 | a staging set is resumed if and only if its window is the same and it began 0 to 7 days ago |
| RunProtocol.Tally | src/bin/nxr_calibrate.rs:1519-1538 | `renko_k` is the resumed set and this cycle's Ok outcomes, nothing else; every outcome is tallied once |
| RunProtocol.SourcesStep | src/bin/nxr_calibrate.rs:1344-1368 | every step keeps the staging set, the queue, the process and the live map made of logged Ok outcomes of one epoch each |
| RunProtocol.EpochsStep | src/bin/nxr_calibrate.rs:1344-1353 | every cycle of an epoch has its window and began within seven days of its run id |
| RunProtocol.CountsStep | src/bin/nxr_calibrate.rs:1354-1370 | attempts on file and in the queue are the resumed roster ids plus those done since |
| RunProtocol.PromotionIsComplete | src/bin/nxr_calibrate.rs:1588-1600 | at base promotion attempted equals total |
| RunProtocol.LiveIsOneRun | src/bin/nxr_calibrate.rs:1571-1600 | however often killed and resumed, the live map is the one found at the start or Ok outcomes of one single run id, one window, within seven days |
| RunProtocol.CountersAlwaysOrdered | src/bin/nxr_calibrate.rs:1354-1370 | succeeded <= attempted <= total in every file state, and attempted == total at promotion |
| RunProtocol.KilledBeforePromotion | src/bin/nxr_calibrate.rs:1579-1587 | a run that neither promotes nor finishes leaves the live map unchanged |
| RunProtocol.StagedSurvives | src/bin/nxr_calibrate.rs:1373-1380 | until the final write an id staged on file stays staged across kills and resumes of its epoch |
| RunProtocol.PromotionCoversResume | src/bin/nxr_calibrate.rs:1889-1902 | a promoted map has every resumed id of the current universe and no id outside it; exactly which ids and values is `RunHistory.PromotedIsTheCycle` |
| RunHistory.ResumesStaged | src/bin/nxr_calibrate.rs:1344-1353 | a cycle resumes exactly the staged ids of its universe, with their ks, if the staging set has its window and began 0 to 7 days ago, and nothing otherwise |
| RunHistory.PromotedIsTheCycle | src/bin/nxr_calibrate.rs:1519-1600 | at every promotion and final write of any run the live map is exactly what the cycle resumed and the ids with an Ok outcome since its start, each with its latest k |
| RunHistory.StagedIsWhatWasFlushed | src/bin/nxr_calibrate.rs:1360-1380 | across any kills and resumes of an epoch an id is staged with its last k written before a kill, and with the queue on top with its last k written or still queued; without one it keeps what it had |
| RunHistory.NeverFittedTwice | src/bin/nxr_calibrate.rs:1371-1379 | once an Ok base fit is flushed no later cycle of the epoch fits that id again |
| RunHistory.FinishedIsNotResumed | src/bin/nxr_calibrate.rs:1825-1842 | a finished run has no staging set and the next cycle resumes nothing |
| RunHistory.OutcomeOnFile | src/bin/nxr_calibrate.rs:1170-1184 | what each kind of outcome does to an id's failure count and staged k |
| RunHistory.PrefilterOnlySkips | src/bin/nxr_calibrate.rs:1615-1630 | the prefilter records its skips and touches no k, no failure count and no other id |
| RunHistory.HistoryStep | src/bin/nxr_calibrate.rs:1344-1380 | the log behind the run theorems gains exactly the ks the steps compute, and every cycle stays listed under its epoch |
| RunHistory.CoverageIsRight | src/bin/nxr_calibrate.rs:1354-1366 | at every base promotion the file's success count is the number of roster ids that the live map has a k for, resumed ones included |
| RunHistory.EveryCycleCanFinish | src/bin/nxr_calibrate.rs:1371-1600 | every cycle that starts can be completed: the outcomes still missing lead to the promotion, and it to the final write |
| Grid.NewQuote | src/bin/onchain_backfill.rs:302-317 | accepted exactly when the marks cover the range, stay in band and have no gap; which check fails first |
| Grid.QuoteIsFresh | src/bin/onchain_backfill.rs:301-322 | an accepted quote is the last mark, in band and less than five minutes old everywhere in its range |
| Grid.SeenIsPartition | src/bin/onchain_backfill.rs:358-362 | where the event cursor stops |
| Grid.HeldIsLatest | src/bin/onchain_backfill.rs:358-365 | the held state is the last event at or before the second, or none |
| Grid.WindowIsSuffix | src/bin/onchain_backfill.rs:375-381 | the slice handed to the TWAP is exactly the samples of the last seconds of the window |
| Grid.GatedMeans | src/bin/onchain_backfill.rs:401-407 | a second is published only if in range and green without a break for the whole warm-up, and all such are eligible |
| Grid.DroppedWithinHeld | src/bin/onchain_backfill.rs:366-374 | a drop is also a hold, and both are shares of the counted seconds |
| Grid.AdvanceLeg | src/bin/onchain_backfill.rs:357-391 | one second of one leg: cursor, held state, counters and samples track their definitions over the events, and the view is that second's |
| Grid.AdvanceAll | src/bin/onchain_backfill.rs:355-392 | the leg loop produces the views in leg order |
| Grid.NotDueDecodes | src/bin/onchain_backfill.rs:405-407 | a second that is not due is already decoded by the last record |
| Grid.RunGrid | src/bin/onchain_backfill.rs:328-441 | the emitted series encodes the gated 1 s series; held, dropped and total count exactly their seconds |
| Grid.RecordsAdvance | src/bin/onchain_backfill.rs:403-429 | records strictly increase in time inside [from, end) |
| Grid.WarmUpWasGreen | src/bin/onchain_backfill.rs:401-407 | before every record each grid second of the warm-up was green |
| Grid.Lossless | src/bin/onchain_backfill.rs:325-327 | at every gated second the latest record has exactly that second's mid and is under 5 s old |
| Grid.EndsExactlyWhenDue | src/bin/onchain_backfill.rs:403-407 | a second has a record exactly when it is gated and the earlier records do not decode it |
| Grid.OnlyOneEncoding | src/bin/onchain_backfill.rs:328-441 | the encoding conditions fix the whole output: no other record sequence satisfies them |
| GridSeries.GreenExactly | src/bin/onchain_backfill.rs:386-401 | a second is green if and only if its composite has the minimum of active legs, keeps one that is not V4 (or is unhooked, where one leg is enough), and its mid in pool quote is inside the band |
| GridSeries.BandMeans | src/bin/onchain_backfill.rs:393-400 | the band test without division: within so many ten-thousandths of the peg, or inside the sanity interval; a zero peg never passes |
| GridSeries.BandOfPositivePeg | src/bin/onchain_backfill.rs:393-400 | for a positive peg the band is the interval around it |
| GridSeries.PublishedIsInBand | src/bin/onchain_backfill.rs:384-429 | every record of any run is in range, has an admissible kept leg and enough active ones, and its price in pool quote is inside the band |
| GridSeries.PublishedFields | src/bin/onchain_backfill.rs:408-427 | a record's confidence fields are its composite's, its leg counts capped at a byte |
| GridSeries.GridCovers | src/bin/onchain_backfill.rs:341-350 | where the grid starts, and that it has exactly the seconds before the end |
| GridSeries.SampledExactly | src/bin/onchain_backfill.rs:358-374 | a leg is sampled with its last event if and only if that is not past the hold cap |
| GridSeries.ViewMeans | src/bin/onchain_backfill.rs:370-384 | a view is the average of exactly the samples no further back than window and maximum age, over the window up to now, with the quote of now |
| GridSeries.ViewsAreLegs | src/bin/onchain_backfill.rs:351-386 | the composite gets one view of every leg that has one, in leg order |
| GridSeries.CountsAreSeconds | src/bin/onchain_backfill.rs:352-368 | held, dropped and total are the sizes of the sets of seconds in range they stand for |
| WriteDays.Staged.Put | src/bin/onchain_backfill.rs:512-531 | a temporary file next to the target, owned even when its write fails |
| WriteDays.Staged.Commit | src/bin/onchain_backfill.rs:533-537 | one rename replaces one target; a failed one changes nothing |
| WriteDays.Staged.Drop | src/bin/onchain_backfill.rs:540-546 | no temporary file survives |
| WriteDays.Precheck | src/bin/onchain_backfill.rs:461-504 | passes only when nothing forbids the run |
| WriteDays.Plan | src/bin/onchain_backfill.rs:572-594 | one job per day with rows, in order, and the days without |
| WriteDays.StageAll | src/bin/onchain_backfill.rs:595-607 | every shard and the sidecar staged to distinct files, or nothing visible changed |
| WriteDays.CommitAll | src/bin/onchain_backfill.rs:609-629 | the disk is the disk before plus exactly the steps done, in order |
| WriteDays.Run | src/bin/onchain_backfill.rs:553-631 | staged-atomic under any faults: a prefix of the steps and no temporary file; nothing changes before the first rename, on an unsafe path or next to a shard dated today or later; without force nothing on disk is overwritten or removed; without faults or a reason to refuse it succeeds |
| WriteDays.FirstShardsAreNew | src/bin/onchain_backfill.rs:609-613 | after j renames exactly the first j day shards are the new ones |
| WriteDays.FailedRunTouchesNothingExactly | src/bin/onchain_backfill.rs:548-629 | a failed run leaves the disk as it was if and only if each of its steps repeats what was there, as when it fails before its first rename |
| WriteDays.CompletedRun | src/bin/onchain_backfill.rs:548-551 | what a finished run leaves: each day's rows, row-less days kept or pruned, other days as they were, sidecar, and a manifest of exactly the dates with a shard on disk |
| WriteDays.EveryRecordLandsOnce | src/bin/onchain_backfill.rs:574-591 | each in-range record is in exactly one day's shard |
| WriteDays.ShardsReadBackInOrder | src/bin/onchain_backfill.rs:574-591 | for ascending records the shards back to back are the in-range records in order |
| RequestLimiter.Limiter.Reserve | src/bin/onchain_backfill.rs:650-655 | grants the next slot of the call history |
| RequestLimiter.Limiter.BackOff | src/bin/onchain_backfill.rs:662-665 | moves later slots, grants none |
| RequestLimiter.SlotsAreSpaced | src/bin/onchain_backfill.rs:635-655 | slots are a gap apart whatever the clock readings |
| RequestLimiter.SlotsFollowReadings | src/bin/onchain_backfill.rs:649-655 | no slot is before its caller's clock reading |
| RequestLimiter.BackOffIsRespected | src/bin/onchain_backfill.rs:661-665 | every slot granted after a back-off respects it |
| RequestLimiter.SlotIsEarliest | src/bin/onchain_backfill.rs:649-665 | a slot is the least instant from its caller's reading on that is a gap after every earlier slot and past every back-off: nobody waits longer |
| RequestLimiter.WindowBound | src/bin/onchain_backfill.rs:635-655 | how many spaced slots a window can hold |
| RequestLimiter.RateHoldsExactlyForDivisors | src/bin/onchain_backfill.rs:642-647 | any half-open second has at most `per_sec` slots, over all interleavings, if and only if `per_sec` divides 1000 |
| SourceStreams.SourceStream.constructor | src/bin/merge_idx.rs:399-437 | a fresh stream has exactly the record-aligned file ahead |
| SourceStreams.SourceStream.Refill | src/bin/merge_idx.rs:439-475 | a refill changes no record still to come |
| SourceStreams.SourceStream.PeekTs | src/bin/merge_idx.rs:477-490 | the timestamp of the head of the remaining records, which stay |
| SourceStreams.SourceStream.Pop | src/bin/merge_idx.rs:492-507 | head and tail of the remaining records, none exactly at the end |
| SourceStreams.Drain | src/bin/merge_idx.rs:382-507 | reading through 4096-record windows gives the aligned file in order |
| KWayMerge.PopMax | src/bin/merge_idx.rs:532-543 | the popped entry is the greatest in the inverted order |
| KWayMerge.HeapPicksLeast | src/bin/merge_idx.rs:510-543 | popping a heap of all true heads yields the least (timestamp, source) |
| KWayMerge.MergeKeepsEachStream | src/bin/merge_idx.rs:223-279 | the merged records of each source are that source, in its order |
| KWayMerge.MergeSources | src/bin/merge_idx.rs:223-279 | the merge has as many records as the files together, each from its source |
| KWayMerge.MergeIsSorted | src/bin/merge_idx.rs:510-511 | with ascending sources the merge is sorted by (timestamp, source) |
| CycleEmit.BoundaryUnique | src/bin/merge_idx.rs:231-266 | a boundary is first + n cycles, and its cycle decides it |
| CycleEmit.Emitter.Advance | src/bin/merge_idx.rs:235-266 | the clock passes every boundary up to the record and evaluates at most the dirty one |
| CycleEmit.Emitter.OnRecord | src/bin/merge_idx.rs:229-274 | one record keeps slots, clock and evaluations true to the records seen |
| CycleEmit.Emitter.Flush | src/bin/merge_idx.rs:281-305 | after the final flush every evaluation due has been made |
| CycleEmit.EvalsIncrease | src/bin/merge_idx.rs:235-266 | evaluated boundaries strictly increase |
| CycleEmit.EvaluatedExactlyWhenCycleHasUpdate | src/bin/merge_idx.rs:231-305 | a boundary B is evaluated if and only if some update is in [B - cycle, B) |
| CycleEmit.EvaluatedWithUpdatesBelow | src/bin/merge_idx.rs:236-279 | an evaluation sees exactly the updates before its boundary |
| CycleEmit.EarlierEvaluation | src/bin/merge_idx.rs:235-266 | an update leaves all but the last evaluation as they were and is never before their boundary |
| MergeIdx.Seed | src/bin/merge_idx.rs:194-200 | one entry per non-empty source with its true head |
| MergeIdx.HeapRearmed | src/bin/merge_idx.rs:276-278 | re-arming one source keeps the heap exact |
| MergeIdx.Next | src/bin/merge_idx.rs:223-227 | one turn takes the next record of the merge and keeps the heap exact |
| MergeIdx.Pump | src/bin/merge_idx.rs:223-279 | the loop terminates with the whole merge consumed |
| MergeIdx.MergeFiles | src/bin/merge_idx.rs:194-305 | the output, from the files alone: a composite is emitted if and only if its boundary is a whole number of cycles after the earliest record of all files, some file has a record in the cycle that ends there, and it is what `vwap` gives at that time since the earliest record for all entries, each updated by its file's records before the boundary at their times since the earliest; boundaries strictly increase |
| MergeIdx.CompositesAre | src/bin/merge_idx.rs:207-305 | the same of the specification the loop is proved against |
| MergeIdx.SlotsAtBoundary | src/bin/merge_idx.rs:202-305 | at every evaluation each provider's slot depends on exactly its own records before the boundary |
| MergeIdx.EmitIncreases | src/bin/merge_idx.rs:239-262 | composites come out at evaluated boundaries only, strictly increasing |
| ShardWriter.Writer.constructor | src/sharding.rs:103-116 | nothing open, nothing touched, no cached day |
| ShardWriter.Writer.Append | src/sharding.rs:118-173 | each append does what the calendar path alone would do |
| ShardWriter.FastPathAgrees | src/sharding.rs:89-95 | the cached window holds a timestamp if and only if its date is the open shard's |
| ShardWriter.StepWrites | src/sharding.rs:124-172 | one append changes one file, emptied first only when its date is closed and untouched |
| ShardWriter.RunConverges | src/sharding.rs:64-73 | after an error-free run each date holds exactly this run's records, or its old ones and then this run's, or what it held |
| ShardWriter.RerunIsStableExactlyWhenClosed | src/sharding.rs:136-162 | a rerun leaves a touched shard unchanged if and only if the date is closed at the rerun's first touch and the first run kept no older records |
| ShardWriter.RunOnHolds | src/sharding.rs:118-173 | every date after a run that never stops at an error: its successful appends, after the old records when the date was current or its unlink failed |
| ShardWriter.ConvergesExactlyUnlessUnlinkFailed | src/sharding.rs:145-162 | in such a run a date first touched while closed holds exactly its successful appends if and only if its first append could unlink the old shard or that shard was empty |
| ShardWriter.AppendingPastAFailedUnlinkKeepsOldRecords | src/sharding.rs:152-161 | continuing past a failed unlink keeps the records the run meant to replace |
| IdxRecord.SortSorts | src/idx_heal.rs:137 | sorting orders by time |
| IdxRecord.SortIsStable | src/idx_heal.rs:137 | records of equal time keep their order |
| BinMerge.Group | src/idx_heal.rs:330-335 | the ordered map of bins: ascending keys, each with its records in order |
| BinMerge.MergeChunk | src/idx_heal.rs:364-474 | the running sums give the merged record; empty and mixed-ticker chunks are errors |
| BinMerge.MergedPriceInRange | src/idx_heal.rs:430-439 | a merged bid or ask lies between the lowest and highest of its bin |
| BinMerge.PooledWeighs | src/idx_heal.rs:430-439 | the price of a bin is the volume-weighted mean of the prices of its parts, or when nothing has volume their mean by records |
| BinMerge.PooledOne | src/idx_heal.rs:430-439 | the price of one record is its own |
| BinMerge.PooledIgnoresEmpty | src/idx_heal.rs:397-404 | records without volume do not move a price that has some |
| BinMerge.MergedFields | src/idx_heal.rs:364-474 | bin start, sums capped at their field's width, and largest confidence and source counts of the bin |
| BinMerge.MergedCi | src/idx_heal.rs:440-447 | the confidence interval is the root of the weighted mean square, or the largest when nothing weighs |
| BinMerge.CiOfOne | src/idx_heal.rs:411-421 | one record weighs its volume as a 32-bit sum or, without any, its ticks |
| BinMerge.MergedFlags | src/idx_heal.rs:426-471 | a flag is set if and only if some record of the bin had it, or it is the healed flag |
| BinMerge.BinShard | src/idx_heal.rs:326-362 | resampling and deduplicating one ticker never fail and give one output per bin |
| BinMerge.BinnedIsOnePerBin | src/idx_heal.rs:326-362 | outputs occupy strictly increasing bins, one for each bin with input |
| BinMerge.DedupeFixes | src/idx_heal.rs:343-362 | a sequence with one record per bin is not changed |
| BinMerge.DedupeIsIdempotent | src/idx_heal.rs:326-362 | deduplication is idempotent and fixes every resampled shard |
| BinMerge.BinsStayInDayExactlyForDivisors | src/idx_heal.rs:150-152 | no bin crosses a UTC midnight if and only if its width divides a day |
| HealTicker.HealShard | src/idx_heal.rs:128-166 | one source shard: its ticker's records, sorted, binned and restamped |
| HealTicker.HealedHeader | src/idx_heal.rs:154-166 | a healed record is its bin's output with sequence 0 and a count of at least one |
| HealTicker.Staging.MergeInto | src/idx_heal.rs:261-279 | merging into a staged day keeps what is there |
| HealTicker.Staging.FanOut | src/idx_heal.rs:153-174 | each output goes to its own day, other days stay |
| HealTicker.Heal | src/idx_heal.rs:48-246 | the errors exactly; otherwise each day is its staged content and today the carried shard |
| HealTicker.StagedIsDayTotal | src/idx_heal.rs:122-176 | a staged day is exactly all bin outputs of that day, sorted by time; none is overwritten |
| HealTicker.SourceOrderIsIrrelevant | src/idx_heal.rs:255-260 | what is staged for a day does not depend on the order of the source shards |
| HealTicker.HealConservesExactlyWhen | src/idx_heal.rs:79-216 | every day holds the bin outputs stamped with it and the records of its own unhealed shard if and only if every shard from today on is empty, but for a carried one of today, and with a carried shard no closed record lands on today |
| HealTicker.ContributesExactly | src/idx_heal.rs:127-166 | a source shard contributes to a day if and only if one of its ticker's records lands there, read off the shard for any width |
| HealTicker.NothingStagedExactly | src/idx_heal.rs:127-174 | nothing is staged for a day if and only if no record of the source shards lands there |
| HealTicker.HealConservesInDateOrder | src/idx_heal.rs:79-216 | the same for a date-ordered tree and a width dividing a day: later shards are empty, and all shards are closed or no closed record of the ticker is dated today |
| HealTicker.CarriedIsTodays | src/idx_heal.rs:79-85 | in a date-ordered tree today's own shard is the one carried |
| HealTicker.LaterShardIsNotKept | src/idx_heal.rs:79-85 | a shard dated after today leaves none of its records under its date; if it is the carried one they are under today's |
| HealTicker.StagedTodayIsOverwritten | src/idx_heal.rs:205-214 | a losing tree: what was staged for today is replaced by the live shard |
| HealTicker.LaterShardIsDropped | src/idx_heal.rs:80-85 | a losing tree: next to today's shard one dated tomorrow is dropped |
| HealTicker.LaterShardIsMisfiled | src/idx_heal.rs:205-214 | a losing tree: without one for today, tomorrow's shard is filed under today's name |
| HealOwnDay.EveryRecordOnItsDayExactlyWhen | src/idx_heal.rs:79-216 | every day holds the outputs made of its own closed records and the records of its own unhealed shard if and only if there is nothing to lose and no closed record's bin is stamped with another day, both read off the source tree for any width |
| HealOwnDay.DivisorsStay | src/idx_heal.rs:149-174 | a width that divides a day takes no record to another day |
| HealOwnDay.WideBinIsMisfiled | src/idx_heal.rs:149-174 | for any record whose bin begins on an earlier day: nothing is lost or added, and the record's own day comes out empty |
| HealOwnDay.OtherTickersAreDropped | src/idx_heal.rs:128-137 | with nothing carried, a tree without the ticker's records comes out empty |
| HealTicker.BinningCommutesWithRouting | src/idx_heal.rs:149-166 | when the width divides a day, binning then routing is routing then binning: no merge mixes days |
| PhantomMigration.FinishPlaces | src/bin/migrate_phantom_ids.rs:207-231 | where each file of a tree ends: destination, or parked when the date was taken; the rest stays |
| PhantomMigration.FinishFromAny | src/bin/migrate_phantom_ids.rs:209-231 | the order of the dates does not matter |
| PhantomMigration.RenameConverges | src/bin/migrate_phantom_ids.rs:225-231 | a rename made by any run does not change where everything ends |
| PhantomMigration.MoveSafe | src/bin/migrate_phantom_ids.rs:209-231 | every rename keeps each file in exactly one allowed slot and overwrites nothing |
| PhantomMigration.OnlyOldSourcesMove | src/bin/migrate_phantom_ids.rs:183-187 | nothing dated today or later moves and no destination file is replaced |
| PhantomMigration.EveryFileInOnePlace | src/bin/migrate_phantom_ids.rs:225-227 | every file's bytes are in exactly one slot |
| PhantomMigration.Volume.MigrateTree | src/bin/migrate_phantom_ids.rs:167-280 | one tree: all movable dates gone from the source unless killed; done only when the tree is empty |
| PhantomMigration.Volume.Record | src/bin/migrate_phantom_ids.rs:319-327 | a finished tree is journaled once, or the process is killed before it |
| PhantomMigration.Volume.Handle | src/bin/migrate_phantom_ids.rs:309-335 | a journaled tree is skipped, any other moved and journaled |
| PhantomMigration.Volume.Run | src/bin/migrate_phantom_ids.rs:305-335 | every point of every run is safe and still ends where an uninterrupted run would; it is cut short only by a kill before its last step |
| PhantomMigration.Volume.RunWithRestarts | src/bin/migrate_phantom_ids.rs:305-335 | after any kills and restarts a run that finishes has placed every shard as one uninterrupted run; a run with enough steps left finishes |
| PhantomMigration.LosesNoneExactlyWhenParkFree | src/bin/migrate_phantom_ids.rs:207-231 | a whole run over any trees overwrites and deletes no file if and only if every date that finds its destination taken, from the start or by an earlier tree, has its park slot free |
| PhantomMigration.TakenParkSlotIsOverwritten | src/bin/migrate_phantom_ids.rs:209-224 | a losing tree: one date under the phantom id, the real id and the park directory |
| PhantomMigration.FreshStart | src/bin/migrate_phantom_ids.rs:103-110 | distinct files and a free park slot for every date that has to be parked are enough to begin |
| HeavyGate.NewInv | src/bin/backfill_all.rs:256-261 | a new gate has at least one permit and satisfies the invariant |
| HeavyGate.AloneAcquires | src/bin/backfill_all.rs:262-269 | a caller that finds the mutex free gets a permit if there is one and sleeps if there is none |
| HeavyGate.AloneReleases | src/bin/backfill_all.rs:277-283 | a release frees exactly one permit and wakes the sleeper it notifies |
| HeavyGate.WokenRechecks | src/bin/backfill_all.rs:264-266 | a thread that wakes tests the permits again |
| HeavyGate.StepInv | src/bin/backfill_all.rs:262-283 | every mutex and condition-variable step of every thread keeps the invariant |
| HeavyGate.HeavyWorkIsBounded | src/bin/backfill_all.rs:244-296 | permits and owners always sum to the capacity, which is the parallelism but at least one and at most four, so at most four heavy processes run |
| HeavyGate.NoWakeupIsLost | src/bin/backfill_all.rs:262-283 | with the mutex free and a sleeper, every free permit has a woken thread on its way |
| HeavyGate.NeverWedged | src/bin/backfill_all.rs:262-283 | while any thread is inside, some thread can make real progress |
| SessionGaps.SessionsAreEnvelopes | src/bin/data_quality_audit.rs:1105-1115 | a session is exactly the first and last record time of its UTC day |
| SessionGaps.BuildSessions | src/bin/data_quality_audit.rs:1105-1115 | the loop builds those sessions |
| SessionGaps.ActiveMs | src/bin/data_quality_audit.rs:1119-1124 | the sum of the overlaps with all sessions |
| SessionGaps.OpenTimeCollapses | src/bin/data_quality_audit.rs:1116-1146 | between consecutive records that sum is the whole gap within one UTC day and 0 otherwise |
| SessionGaps.AuditGaps | src/bin/data_quality_audit.rs:1126-1164 | the reported gaps; closed exactly when a gap crosses midnight; suspect == closed + quiet + outage |
| SessionGaps.TalliedCounts | src/bin/data_quality_audit.rs:1136-1150 | each count is the number of listed gaps of its class |
| SessionGaps.GapsAreExactlyTheLongOnes | src/bin/data_quality_audit.rs:1126-1135 | no over-long gap is missed and every reported one is real |
| SessionGaps.ClassMeans | src/bin/data_quality_audit.rs:1136-1157 | closed, quiet and outage in terms of the open time inside the gap, its length and the sentinels of the file |
| SessionGaps.RoundTheClockOutageReadsClosed | src/bin/data_quality_audit.rs:1100-1145 | any tape with a record in every slot of p ms, 2p <= threshold + 1 (a minute at the default of 120 000), that dies once across a UTC midnight: the outage is the only gap reported and it is reported closed |
| S10Check.CheckOhlc | src/bin/integrity_check.rs:346-413 | no finding if and only if the bar's prices and variances are sound |
| S10Check.SoundBarMeans | src/bin/integrity_check.rs:346-413 | a sound bar written out |
| S10Check.CheckRow | src/bin/integrity_check.rs:1112-1219 | no finding if and only if the bar and its spacing are sound; then gaps grow by the missing buckets |
| S10Check.CheckS10 | src/bin/integrity_check.rs:1106-1253 | a clean report if and only if the file is whole, every bar and spacing sound and, in strict mode, dense enough |
| S10Check.DenseMeans | src/bin/integrity_check.rs:1221-1250 | dense enough if and only if the bars' buckets cover at least half of the span and exceed it by at most a millionth |
| S10Check.CleanFileCountsItsTime | src/bin/integrity_check.rs:1184-1217 | in a clean file last close - first close == bucket * (rows - 1 + missing buckets) |
| S10Check.CleanFileIncreases | src/bin/integrity_check.rs:1184-1217 | closes strictly increase |
| S10Check.AuditAgrees | src/bin/data_quality_audit.rs:549-567 | bars clean at 10 s give the audit no misalignment and no off-grid step |
| S10Check.AuditMeans | src/bin/data_quality_audit.rs:549-567 | misaligned, off the grid, contiguous and gap by the distance to the nearest multiple of ten seconds |
| S10Check.AuditIsLooser | src/bin/data_quality_audit.rs:1787-1801 | the audit accepts a bar 1 ms off the grid that the validator refuses |

## Left out

- Network, archive download, CSV parsing, command lines, logging, JSON reports and progress markers: plumbing around the modelled state.
- Floating-point rounding, the `f32` cast of k and bit-exact `ln` / `exp`: reals, with `exp` and `ln` exact inverses.
- The internals of the Renko engine, VWAP kernel, `twap`, `composite`, provider entry and CI codec are not part of this model: they are parameters. The SDK's median is taken to be the sorted middle value or the mean of the two middle ones.
- `migrate_quote_basis`, the dateless `.vol` move, seams, `vol_bin`, latency audit, statistical thresholds and exit codes.
- DayCounter.CountPerDay: generator errors on a tick are folded into the step function, as the source ignores them.
- Solver.Solve: the k passed to the counter is not rounded to 32 bits, and log lines are dropped.
- Solver.BracketIsOptimal: needs the antitone median, which fails for some windows (`DayCounter.LargerBricksRaiseTheMedian`).
- Solver.AcceptedIsSound: a configured seed above K_MAX_SAFETY would open the bracket above it, so the upper end is then the seed.
- ParamsStore.Store.Update: "same bytes" is equality of the parsed file, so rewriting an equal file with other formatting is not modelled; lock poisoning is recovered from, as in the source.
- ParamsStore.RefinesWriteThrough: one calibrator process and one foreign process; parse errors are read failures.
- RunProtocol.LiveIsOneRun: one calibrator at a time; the id read at startup is the one armed. A run id is a date and window or other text, and dates written unusually count as other text.
- RunProtocol.StagedSurvives: which ids a fit succeeds for is left open; synth and fallback steps may also be repeated or skipped, which allows more runs than the source.
- Grid.RunGrid: composite flags and header fields that are constants are dropped, and a zero peg fails the band, as an infinite or undefined ratio does.
- WriteDays.Run: removal of temporary files on the way out is taken to succeed, symlinks and canonical paths are one flag, and the writer lock is one operation that may fail.
- SourceStreams.SourceStream.Pop: reads succeed; a read error silently ends the source's stream.
- CycleEmit.Emitter.Evaluate: the historical and no-book flags of a composite are dropped.
- MergeIdx.MergeFiles: a cycle of 0, for which the boundary loop never ends, is excluded; the shard writer behind it is `ShardWriter`.
- ShardWriter.Writer.Append: buffering, flush on close and the directory lock are not modelled, and opening or writing a shard succeeds.
- HealTicker.Heal: cadence detection only chooses between resampling and deduplicating; dry run, backup naming and the final directory swap are not modelled.
- HealTicker.HealConservesInDateOrder: that shards are listed by date is not shown in the repository; `HealConservesExactlyWhen` needs only one shard a date.
- HealTicker.SourceOrderIsIrrelevant: as a multiset; records of equal time keep the order in which shards were read.
- PhantomMigration.Volume.Run: shard files only; manifests, the fingerprint check and rename errors other than kills are not modelled, dates and the UTC date are fixed, phantom ids are distinct, no source is a destination, and a date to be parked finds its park slot free (`LosesNoneExactlyWhenParkFree` says what a taken one costs).
- ParamsStore.StepInv: the interleavings are a step system over values, because every worker's position is part of the state; the single-threaded object is `ParamsStore.Store`.
- HeavyGate.StepInv: the semaphore is a step system over values for the same reason; mutex fairness is not assumed, so no bound on waiting is claimed.
- SessionGaps.AuditGaps: sorting the report by length and keeping the ten longest is dropped.
- S10Check.CheckS10: warnings and statistics other than the missing buckets are dropped.
