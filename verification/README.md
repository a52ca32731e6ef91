# Verified models of openGemini

Models of five parts of openGemini, a time-series database, with proofs about them.

- **PromQL evaluation** (`Prom*.dfy`, `VectorCursor.dfy`, `StaleMarkers.dfy`, `SliceReducer.dfy`, `IncReducer.dfy`,
  `OverTime.dfy`, `RateReducer.dfy`, `RateRuns.dfy`, `InstantRate.dfy`, `CarriedPoints.dfy`, `InstantSampler.dfy`).
  A series arrives in records, from which staleness markers are taken out; two row indexes, a ring buffer, a previous
  point and two padding routines carry state from batch to batch. The reference is two lines: at every step take the
  samples of the window and apply a function (`PromWindows.Naive`). What the reference means is said once more without
  any function that computes it (`PromAnswers.Answers`): which steps have a point, and how its value relates to the
  samples inside the range. For each of the four reducers the theorem is an equivalence: for every cut into records
  the result is the answer, if and only if a stated condition on the records holds.
- **Down-sampling** (`DownSample*.dfy`, `Reading*.dfy`, `AggregateCursor.dfy`). Nested iterators read the segments of
  files, an aggregator sends chunks of windows with nil rows in the gaps, and a writer stores the time column of a
  series from its first field only. The theorem runs from the files read to the files written: which columns there
  are, with which times and values, and exactly when every column has the times of the time column.
- **Partition lifecycle** (`Partition*.dfy`). References, the offload mark with its hand-off channel, the migration
  lock and the gates for shard moves and deletes, as a machine with one atomic step per locked region and any number
  of threads. The theorems hold in every reachable state of every interleaving.
- **Partitioning** (`FragmentSlices.dfy`, `ShardSplit.dfy`, `ScanDistribution.dfy`, `LazyBlockReader.dfy`).
  Incremental fragment slices, the split of a record by shard group, the distribution of a parallel scan, and the
  lazy block reader: each is shown to hand over everything exactly once and in order.
- **Write path and log format** (`RowRouting.dfy`, `FieldFixing.dfy`, `DownSampleLog.dfy`). Row conservation,
  last-write-wins for fields, and a codec that is inverse in both directions.

## Findings

Some expected properties do not hold of the code. Each has a concrete input and an exact condition.

- A batch whose samples all belong to one step that goes on in the next batch gets no padding before it, so due
  steps are lost (`PromWitness.GapIsLost`, `PromWitness.PairIsLost`; the conditions are `PromStreaming.DropsGap`,
  `InstantSampler.DropsGap` and `RateRuns.DropsPairs`).
- The slice reducer also loses the steps before a batch that starts after the last step, and its final padding
  compares a position in the buffer with a timestamp, which matters near the epoch
  (`PromWitness.PositionTakenForTime`; `SliceReducer.Clean`).
- With batches after the last step, the incremental reducer can lose the point of the last step or make one up
  (`PromWitness.CarriedPointIsLost`, `PromWitness.PointIsMadeUp`; `IncReducer.FinalStepRight`).
  The reducer of irate can lose it (`RateRuns.DropsFinal`).
- A staleness marker at the end of a record is filtered out only after the look at the next record, which then goes by
  the wrong step. The slice and the incremental reducer lose a step whenever that happens (`PromWitness.MarkerLosesStep`;
  `StaleMarkers.LooksThrough` in `SliceReducer.Evaluate` and `IncReducer.Evaluate`). The reducer of irate can lose a
  value or make one up, but may also get away with it (`PromWitness.MarkersAndRates`; `RateRuns.Sound` in
  `RateRuns.Evaluate`).
- A record of markers only makes the cursor forget how far the steps went, and the incremental reducer, which does not
  test for it, pads from the step length on if it is the last record (`PromWitness.OnlyMarkersLeft`;
  `IncReducer.MarkersLast`).
- The aggregate cursor holds the last window of a record back for an empty record, and loses it if the record after
  that begins in another window (`AggregateCursor.EmptyRecordLosesWindow`; `AggregateCursor.HeldForNothing`).
- Sampling loses the last step if a batch other than the last ends after it (`PromWitness.FinalIsLost`;
  `InstantSampler.Clean`).
- DeleteDatabase and Offload on one partition can race: the time-out of one closes the channel of the other, which
  then closes a partition in use (`PartitionRace.RacingClosers`; `PartitionRace.SafeExactlyForOneKind`).
- A down-sampled column ends early if the last segments of a field have no value and a full chunk was sent before them.
  If another field of the series does not end there too, the columns of the series have different times
  (`DownSamplePipeline.SomeColumnIsCut`; the exact condition is `DownSamplePipeline.EndTogether`). A window is sent
  without a value if it is held back for a next segment whose rows in it are nil (`DownSamplePipeline.SomeValueIsLost`;
  `DownSampleAggregator.HeldInVain`).
- With chunks of one row and a shard start inside the first window, a window is missing from a down-sampled column if
  the first chunk is the row of that window and the next window sent is not the one after it
  (`DownSamplePipeline.SomeWindowIsMissing`; `DownSampleAggregator.Slips` in `DownSampleAggregator.Delivers`).
- Splitting a record by shard group returns an error if a group between the first and the last row has no row,
  although every row is written (`ShardSplit.GroupInBetweenIsEmpty`; `ShardSplit.SplitAndWriteByShard`).
- A log record with a length of 65536 or more is not read back (`DownSampleLog.LongNameIsNotReadBack`; `DownSampleLog.RoundTrip`).

## Reading guide

Values are exact (`real` for samples, `int` for times); the source uses 64-bit numbers. Clocks, files, the network
and the meta client are parameters or do not appear. A method is proved against a function or a stated property, and
the lemmas beside it say what the function means. `hide` statements only keep definitions out of a proof that does
not need them.

## Model

| member | source | states |
|---|---|---|
| `PromSteps.GetCurrStep` | engine/prom_instant_vector_cursor.go:217-226 | the division and remainder form finds the first step of the grid at or after a time, or the last step (reference: a walk along the grid) |
| `PromSteps.GetPrevStep` | engine/prom_instant_vector_cursor.go:206-215 | the result is the last step of the grid at or before the time, cut at both ends |
| `PromSteps.NewQuery` | engine/prom_range_vector_cursor.go:49-71 | the grid begins one range after the start, its last step is the last one not after the end, and the padding limit is the last step not after the data |
| `PromSteps.StepUnique` | engine/prom_instant_vector_cursor.go:217-226 | a time is charged to exactly one step |
| `PromSteps.StepMonotone` | engine/prom_instant_vector_cursor.go:217-226 | later samples are charged to steps that are not earlier |
| `PromStreaming.Tiling` | engine/prom_range_vector_cursor.go:86-92 | for every cut of a series into batches, the reference result is the concatenation of one gap piece and one main piece per batch: no step is missing or doubled at a boundary |
| `PromStreaming.ExactlyWhenNothingLost` | engine/prom_function_reducers.go:138-189 | a run that leaves out pieces agrees with the reference exactly if every piece it leaves out is empty |
| `PromStreaming.EmittedBefore` | engine/prom_function_reducers.go:138-239 | whatever pieces a run leaves out, what it has given for some batches is before the last step of every later batch |
| `PromStreaming.WrongStep` | engine/prom_function_reducers.go:138-239 | a result in which one due step is missing, or one step is given that is not due, is not the reference |
| `PromStreaming.WholeRun` | engine/prom_function_reducers.go:138-239 | the same for the whole run with the padding after the last batch |
| `PromAnswers.WindowIsWindow` | engine/prom_range_vector_cursor.go:118-153 | in time order exactly the samples with a time inside the range of a step: there is one such list, and it is the window of the reference |
| `PromAnswers.ExpectedIsAnswer` | engine/prom_range_vector_cursor.go:86-114 | a result is the reference if and only if it is the answer: its points are in time order, there is one for each step due that has a value, and its value is the one meant for the samples inside the range; for every function whose meaning is a relation between windows and values |
| `PromAnswers.RecordsAnswer` | engine/prom_range_vector_cursor.go:86-114 | the same for records with staleness markers: the samples are those read that are no markers |
| `VectorCursor.GetIntervalIndex` | engine/prom_range_vector_cursor.go:118-153 | the two-index pass yields, for every step from the first to the last of the batch, the bounds of exactly the rows in the window of that step, and the bounds survive being stored in 16 bits |
| `VectorCursor.AppendInterval` | engine/prom_range_vector_cursor.go:131-151 | one turn of the two-index pass gives the exact bounds of one window |
| `VectorCursor.IsSameWindow` | engine/prom_instant_vector_cursor.go:180-204 | a record goes on in the next one exactly if the next one is empty or begins in the last step of the first, and never if the record itself is empty |
| `StaleMarkers.FilterRangeNANPoint` | engine/prom_range_vector_cursor.go:174-198 | copying the stretches between staleness markers leaves exactly the other rows, in order |
| `StaleMarkers.PrepareRecord` | engine/prom_range_vector_cursor.go:86-114 | the reducer gets the rows without staleness markers, their row intervals, and whether the last step of the record as read goes on in the next record as read |
| `StaleMarkers.LookErrs` | engine/prom_range_vector_cursor.go:86-114 | that look errs one way only: a step that goes on is always seen to go on, and where it is misled the next batch begins at a later step |
| `StaleMarkers.RightLook` | engine/prom_range_vector_cursor.go:86-114 | the look is right at every record if and only if it is misled at none |
| `StaleMarkers.MisledLoses` | engine/prom_range_vector_cursor.go:86-114 | for every window function: a run that is misled at a record whose last step has a value, and has given nothing for that step, will never give it, and differs from the reference whatever follows |
| `StaleMarkers.FreshMeeting` | engine/prom_range_vector_cursor.go:105-114 | the look is right if no staleness marker is where two records meet |
| `VectorCursor.FloatBuffer.UpdateIndex` | engine/prom_function_reducers.go:39-52 | the two positions of the buffer become the bounds of the samples in the window |
| `VectorCursor.FloatBuffer.UpdateValue` | engine/prom_function_reducers.go:54-91 | after a batch the buffer holds exactly the samples that a later window can still reach, old and new ones in order |
| `VectorCursor.KeptIsEnough` | engine/prom_function_reducers.go:54-91 | what the buffer keeps gives the same windows as the whole history, for every later step and every step before the batch |
| `VectorCursor.KeepsCarrying` | engine/prom_function_reducers.go:54-91 | dropping from the old buffer and the batch gives the same as dropping from the whole history |
| `SliceReducer.SliceReducer.OneWindow` | engine/prom_function_reducers.go:138-189 | buffered and new samples handed over for a step are together the whole window, and the count is their number |
| `SliceReducer.SliceReducer.PopulateByPrevious` | engine/prom_function_reducers.go:191-211 | the steps between two batches get exactly their windows of buffered samples |
| `SliceReducer.SliceReducer.MainWindows` | engine/prom_function_reducers.go:138-189 | one call per step of the batch with a non-empty window, after the padding, which is left out exactly in the named cases |
| `SliceReducer.SliceReducer.PopulateByLast` | engine/prom_function_reducers.go:213-239 | the padding after the last batch is the reference exactly if no step takes a buffer position for a time |
| `SliceReducer.SliceReducer.Aggregate` | engine/prom_function_reducers.go:138-189 | one batch: gap piece, main piece and final padding against the reference over the whole history, and what the state is afterwards |
| `SliceReducer.ReduceBatch` | engine/prom_range_vector_cursor.go:86-114 | the cursor loop hands every batch over with the look at the next record that the rows as read give |
| `SliceReducer.Evaluate` | engine/prom_function_reducers.go:138-239 | for every cut into records: the result is the answer (for each step due with a sample in its range one call, in order, with exactly the samples in the range that are no markers, in time order, and their number) if and only if no marker misleads the look at the next record, no due gap is dropped and no position is taken for a time; every call in every run passes the number of its samples, which is not zero |
| `OverTime.MergeIsWhole` | engine/prom_functions.go:210-346 | merging the values of two parts of a window gives the value of the whole window, for sum, count, min, max, last and avg |
| `OverTime.AggMeans` | engine/prom_functions.go:178-346 | what that value is for every window in time order: the running sums lead to it; it is the number of samples; it is one of the values and bounds them; it is the value of a sample no other is later than; times the number of samples it is the sum |
| `OverTime.Reduce` | engine/prom_functions.go:178-342 | reducing rows gives the value of the window (what that is says `OverTime.AggMeans`), and nothing exactly for no rows |
| `OverTime.ReduceAvg` | engine/prom_functions.go:178-208 | the running mean is the sum divided by the number |
| `OverTime.ReduceMin` | engine/prom_functions.go:265-277 | the loop finds the least value |
| `OverTime.ReduceMax` | engine/prom_functions.go:301-313 | the loop finds the greatest value |
| `OverTime.ReduceSum` | engine/prom_functions.go:240-252 | the loop adds up all values |
| `OverTime.LeastIsMinimum` | engine/prom_functions.go:265-277 | the least value is in the window and not above any other |
| `OverTime.GreatestIsMaximum` | engine/prom_functions.go:301-313 | the greatest value is in the window and not below any other |
| `IncReducer.IncReducer.Step` | engine/prom_function_reducers.go:283-343 | the value of a step merges buffer, batch and previous point into the value of the whole window; for a batch after the last step there is a point exactly if the buffer reaches the window, there is no previous point and the step does not go on |
| `IncReducer.IncReducer.MainWindows` | engine/prom_function_reducers.go:283-343 | the loop over the steps of a batch, in time or after the last step: the padding before it and one value per step with a non-empty window, the last one carried if it goes on |
| `IncReducer.IncReducer.PopulateByPrevious` | engine/prom_function_reducers.go:364-391 | the steps between two batches get the values of their windows |
| `IncReducer.IncReducer.PopulateByLast` | engine/prom_function_reducers.go:393-432 | the steps after the last batch get the values of their windows |
| `IncReducer.IncReducer.Aggregate` | engine/prom_function_reducers.go:283-343 | one batch against the reference over the whole history, with the previous point carried on exactly if the last step goes on |
| `IncReducer.IncReducer.Take` | engine/prom_function_reducers.go:314-326 | the value of a step completes the previous point, becomes the previous point, or is emitted after the padding |
| `CarriedPoints.LossesAreExact` | engine/prom_function_reducers.go:283-432 | for a reducer that carries a point: its pieces add up to the reference if and only if no due gap is skipped and the due point of the last step is given |
| `CarriedPoints.HeldMeans` | engine/prom_function_reducers.go:309-326 | before the first batch after the last step there is a previous point exactly if that step goes on and its window is not empty |
| `IncReducer.FinalCases` | engine/prom_function_reducers.go:283-343 | when the last step comes out right if the last batches are after it: by their number, whether the step went on before them, and what the window holds |
| `IncReducer.Evaluate` | engine/prom_function_reducers.go:283-432 | for every cut into records: the result is the answer (for each step due with a sample in its range one point, in order, with the sum, number, least, greatest, latest or mean value of exactly the samples in the range that are no markers) if and only if no marker misleads the look at the next record, no due gap is dropped and the last step comes out right |
| `IncReducer.MarkersLast` | engine/prom_function_reducers.go:326-343 | after any batches, with a last record of markers only and a query that begins after one step length: the result is the reference if and only if the buffer is behind that step and nothing was due after the batches |
| `IncReducer.IncReducer.AggregateNothing` | engine/prom_function_reducers.go:326-343 | a record of which only markers were read: it is forgotten how far the steps went, and if it is the last one there is a point for every step from the step length on that the buffer is not behind |
| `InstantRate.Reduce` | engine/prom_functions.go:469-477 | rows are summed up by the last two of them, a single one standing for both |
| `InstantRate.UpdateIsWhole` | engine/prom_functions.go:509-514 | the last two samples of two adjacent pieces, found from those of each piece, are the last two of the whole |
| `InstantRate.CalcLastTwoPoints` | engine/executor/agg_func_prom.go:351-366 | the last two samples of buffer and batch together, and equal times if there are not two |
| `InstantRate.MergeIsReference` | engine/prom_functions.go:479-507 | the value computed from the last two samples of a window and their number is that of the reference; there is one exactly if the window has two samples |
| `InstantRate.MergeMeans` | engine/prom_functions.go:479-507 | what that value is, from the last two samples x and y: for irate, times the nanoseconds between them it is a billion times the difference, or a billion times the later value if that is smaller; for idelta, x plus it is y |
| `InstantRate.ChangeMeans` | engine/prom_functions.go:479-507 | the reference gives the same value |
| `InstantRate.NeverNegative` | engine/prom_functions.go:487-488 | irate is never negative on a counter |
| `RateReducer.RateReducer.OneWindow` | engine/prom_function_reducers.go:484-512 | buffer and batch together give the last two samples and the number of samples of the whole window |
| `RateReducer.RateReducer.Take` | engine/prom_function_reducers.go:513-528 | the two points complete the previous points, become the previous points, or are emitted after the padding |
| `RateReducer.RateReducer.Step` | engine/prom_function_reducers.go:484-528 | one step: the value of the whole window, or the previous points for the next batch; for a batch after the last step a point at most if the buffer reaches the window and there are no previous points |
| `RateReducer.RateReducer.PopulateByPrevious` | engine/prom_function_reducers.go:567-594 | the steps between two batches get the values of their windows; stopping at the first window with fewer than two samples loses nothing |
| `RateReducer.RateReducer.PopulateByLast` | engine/prom_function_reducers.go:596-626 | the steps after the last batch get the values of their windows |
| `RateReducer.RateReducer.MainWindows` | engine/prom_function_reducers.go:484-528 | the loop over the steps of a batch: the padding before it and one value per step with two samples, the last two samples carried if the last step goes on; also with previous points of an earlier step, and for a batch after the last step |
| `RateReducer.RateReducer.Aggregate` | engine/prom_function_reducers.go:475-538 | one batch against the reference over the whole history, with the last two samples carried on exactly if the last step is seen to go on |
| `RateRuns.ReduceBatch` | engine/prom_function_reducers.go:475-538 | one batch of a run: the pieces of the reference that are due, with what a misleading look takes away or adds; after a fault nothing for the step that went wrong |
| `RateRuns.Agreement` | engine/prom_function_reducers.go:513-528 | previous points carried through a misleading look still give the right value, if the window of the step has at least two samples |
| `RateRuns.CarryExact` | engine/prom_function_reducers.go:513-528 | where the look is right, the samples carried are those of the window before the batch |
| `RateRuns.LateHeld` | engine/prom_function_reducers.go:513-528 | before a batch after the last step there are previous points exactly as if no marker had been read, or nothing is due |
| `RateRuns.NeverTangled` | engine/prom_range_vector_cursor.go:86-114 | with the right look at every record there is no fault of this kind |
| `RateRuns.FaultNow` | engine/prom_function_reducers.go:475-626 | at the first fault a due step is missing or a step is given that is not due, and it stays so |
| `RateRuns.CleanIsExact` | engine/prom_function_reducers.go:475-626 | for a reducer that carries the last two samples: its pieces add up to the reference if and only if no due gap is dropped and the last step does not go on in a last batch after it |
| `RateRuns.Evaluate` | engine/prom_function_reducers.go:475-626 | for every cut into records: the result is the answer (for each step due with two samples in its range one point, in order: for irate the change between the last two of them per second, from zero after a counter reset, for idelta the difference) if and only if no misleading marker loses a pair, makes one up or drops a due gap, no due gap is dropped, and the last step does not go on in a last batch after it |
| `InstantSampler.FloatSampler.PopulateByPrevious` | engine/prom_instant_vector_cursor.go:327-342 | the remembered sample is repeated exactly over the steps whose look-back reaches it, and not at all if it is stale |
| `InstantSampler.FloatSampler.SampleSteps` | engine/prom_instant_vector_cursor.go:363-430 | every step of a batch gets the latest sample of its window, from the batch or remembered |
| `InstantSampler.FloatSampler.Aggregate` | engine/prom_instant_vector_cursor.go:363-430 | one batch against the reference over the whole history |
| `InstantSampler.Evaluate` | engine/prom_instant_vector_cursor.go:129-160 | for every cut into batches: the result is the answer (for each step due one point, in order, with the value of the sample of the look-back that no other one follows, unless that is a staleness marker) if and only if no due gap and no due last step is dropped |
| `InstantSampler.LatestMeans` | engine/prom_instant_vector_cursor.go:363-430 | the value taken from a window is that of a sample which no other one follows and which is no marker, and there is none otherwise |
| `PromWitness.GapIsLost` | engine/prom_instant_vector_cursor.go:374-377 | a series of three samples without a marker for which the slice, incremental and sampling reducers drop due steps before a batch with a single step |
| `PromWitness.PairIsLost` | engine/prom_function_reducers.go:513-528 | the same for the reducer of irate |
| `PromWitness.FinalIsLost` | engine/prom_instant_vector_cursor.go:363-430 | a series for which sampling drops the last step |
| `PromWitness.CarriedPointIsLost` | engine/prom_function_reducers.go:297-300 | a series for which the point of the last step is due and never given, by the incremental reducer and by that of irate |
| `PromWitness.PointIsMadeUp` | engine/prom_function_reducers.go:304-307 | a series for which the incremental reducer gives a point for the last step although nothing is in its window |
| `PromWitness.PositionTakenForTime` | engine/prom_function_reducers.go:213-239 | a query near the epoch for which the final padding loses a buffered sample |
| `PromWitness.MarkerMisleads` | engine/prom_range_vector_cursor.go:86-114 | two valid records, a staleness marker at the end of the first, for which the look at the next record goes by a step the batch does not have |
| `PromWitness.MarkerLosesStep` | engine/prom_range_vector_cursor.go:86-114 | on these records the slice and the incremental reducer do not give the reference, for every function over time |
| `PromWitness.MarkerLosesPair` | engine/prom_range_vector_cursor.go:86-114 | two valid records for which a marker loses a pair of samples |
| `PromWitness.MarkerMakesUp` | engine/prom_range_vector_cursor.go:86-114 | two valid records for which markers make up a pair of samples that are not in one window |
| `PromWitness.MarkersAndRates` | engine/prom_function_reducers.go:475-626 | on both the reducer of irate and idelta does not give the reference |
| `PromWitness.OnlyMarkersLeft` | engine/prom_function_reducers.go:328-343 | a sample and then a last record of markers only, for which the incremental reducer gives a point for a step before the first one of the query, and so not the reference |
| `Partition.DBPTInfo.Ref` | engine/partition.go:277-285 | a reference is taken exactly if the partition is neither marked nor preloading, and nothing else changes |
| `Partition.DBPTInfo.Unref` | engine/partition.go:287-308 | the count goes down; the last one out of a marked partition signals the channel and forgets it, or panics if there is none |
| `Partition.DBPTInfo.MarkOffload` | engine/partition.go:243-260 | marking reports whether the partition is idle, and registers the channel exactly if it is not |
| `Partition.DBPTInfo.UnMarkOffload` | engine/partition.go:262-275 | unmarking closes and forgets a registered channel |
| `Partition.DBPTInfo.DisableDBPtBgr` | engine/partition.go:1260-1268 | background work is disabled exactly if no shard delete is pending |
| `Partition.DBPTInfo.EnableDBPtBgr` | engine/partition.go:1254-1258 | background work is enabled, and nothing else changes: the step of a rollback in every run of `PartitionSafety` |
| `PartitionSafety.RefProtocol` | engine/partition.go:243-308 | in every reachable state of every interleaving: the count is the number of holders, a marked partition with holders has a channel, the nil-channel panic is never reached, and no channel is sent to or closed twice |
| `PartitionSafety.MigrationGates` | engine/engine_ha.go:33-92 | in every reachable state: no move while the partition goes off, no pending delete while background work is disabled, at most one migration step per partition, also if PreOffload stops halfway |
| `PartitionSafety.CloseIsSafe` | engine/engine_ha.go:266-299 | with one kind of closing operation, no run closes a partition that is in use, and nobody uses it afterwards |
| `PartitionSafety.NoRefWhileClosing` | engine/engine_ha.go:266-299 | while it is being closed no step of any thread gets a reference |
| `PartitionSafety.InvRun` | engine/engine_ha.go:33-92 | every run keeps the counts, gates, locks and the hand-off channel |
| `PartitionProgress.Preloading` | engine/partition.go:277-285 | in every reachable state a partition that is preloading has count 0 and no holder |
| `PartitionProgress.RefOnlyWhenOpen` | engine/partition.go:277-285 | a thread can take a reference exactly if it is idle and the partition is neither marked nor preloading; no step of any thread gives one otherwise, and a step that gives one raises the count by one |
| `PartitionProgress.MarkIsTakenBack` | engine/partition.go:262-275 | in every reachable state: if nobody is closing the partition and it is not dropped, it is not marked |
| `PartitionProgress.CloserIsTold` | engine/partition.go:287-308 | in every reachable state, with one kind of closer: a closer that waits can go on as soon as nobody holds a reference or is giving back the last one |
| `PartitionRace.RacingClosers` | engine/engine_ddl.go:49-133 | a run of eight steps in which DeleteDatabase and Offload race and a partition in use is closed |
| `PartitionRace.SafeExactlyForOneKind` | engine/engine_ha.go:266-299 | closing is safe in all runs if and only if Offload and DeleteDatabase do not both take place |
| `PartitionEngine.Engine.CheckAndAddRefPTs` | engine/engine.go:1872-1888 | references for a list are taken all or none: on a refusal every count is as before and the error is that of the first refusal |
| `PartitionEngine.Engine.CheckAndAddRefPT` | engine/engine.go:1890-1904 | one reference, with the error the partition gives, and no other partition changes |
| `PartitionEngine.Engine.UnrefDBPTs` | engine/engine.go:1913-1954 | giving back a list of references restores every count, and changes nothing if the database is not open |
| `PartitionEngine.Engine.TrySetDbPtMigrating` | engine/engine_ha.go:335-350 | the lock is got exactly if it was free, and only that lock changes |
| `PartitionEngine.Engine.ClearDbPtMigrating` | engine/engine_ha.go:352-360 | only that lock is given back |
| `AggregateCursor.GetIntervalIndex` | engine/aggregate_cursor.go:343-356 | the positions found are exactly where a new window begins |
| `AggregateCursor.WindowsMeaning` | engine/aggregate_cursor.go:343-356 | the list of windows of sorted times is strictly rising and holds exactly the windows with a row |
| `AggregateCursor.WindowsConcat` | engine/aggregate_cursor.go:314-341 | two adjacent pieces share at most the window where they meet |
| `AggregateCursor.SharesAreWindows` | engine/aggregate_cursor.go:314-341 | the records together add each window with data once and in order, if and only if no window is held back for an empty record and does not go on after it; otherwise too few |
| `AggregateCursor.Reduce` | engine/aggregate_cursor.go:306-375 | a record contributes its windows, without the last one if that goes on |
| `AggregateCursor.Cursor.InNextWindow` | engine/aggregate_cursor.go:314-341 | the last window is held back exactly if the next record is empty or begins in it, and the look ahead loses no record |
| `AggregateCursor.Cursor.Next` | engine/aggregate_cursor.go:267-304 | a result record has the next windows the records add, empty ones being skipped; cutting at the record size neither drops nor repeats one |
| `AggregateCursor.AggregateWindows` | engine/aggregate_cursor.go:267-375 | for every cut of a series into records and every record size, the rows have each window with data once and in order, if and only if no window is held back for an empty record in vain; every row has the time of the first row of its window in a record |
| `AggregateCursor.EmptyRecordLosesWindow` | engine/aggregate_cursor.go:323-326 | three records, the second one empty, for which the window of the first is lost |
| `DownSampleWindows.AppendRecWithNilRows` | engine/record_plan.go:1234-1260 | for every start: nil rows one window length apart before the first window with data, then one time per window without a hole, up to the end of the series for the last chunk, the first one moved to the shard start if it is before it; from the start of a window that is one time per window; exactly the windows of the input have a value |
| `DownSampleWindows.AppendNilRows` | engine/record_plan.go:1241-1244 | nil rows fill exactly the windows strictly between two windows; from inside a window they come one window length apart |
| `DownSampleWindows.MovedStartLosesWindow` | engine/record_plan.go:1234-1260 | after a chunk of one row that was moved to the shard start inside its window, the nil rows before the next value are one too few |
| `DownSamplePipeline.SomeWindowIsMissing` | engine/record_plan.go:1027-1082 | one field, a valid input, with values at 5 and 30, a shard start at 5, windows of length 10 and chunks of one row: it slips, and its column has the times 5, 15 and 30 where 5, 10, 20 and 30 are due |
| `DownSampleWindows.AppendRows` | engine/record_plan.go:1235-1248 | one valued row per window with data, nil rows in all windows between, and nil rows one window length apart before the first |
| `DownSampleWindows.StartMeaning` | engine/record_plan.go:1012-1013 | windows begin at the offset and every window length from it, and a time lies in the window that has begun last |
| `DownSampleAggregator.FileSequenceAggregator.NextRecord` | engine/record_plan.go:1093-1104 | the pushed-back record comes first, and none is lost |
| `DownSampleAggregator.FileSequenceAggregator.InNextWindow` | engine/record_plan.go:1106-1139 | the last window goes on exactly if the next record is of the same field and begins in it |
| `DownSampleAggregator.FileSequenceAggregator.SendRecord` | engine/record_plan.go:1027-1037 | a chunk continues the list of windows of its field, also after a single row that was moved to the shard start; the last time sent is off the start of a window exactly for such a row |
| `DownSampleAggregator.FileSequenceAggregator.AggregateSameSchema` | engine/record_plan.go:1039-1082 | for every chunk size of at least one and every shard start: the chunks of a field have exactly one time per window from the first window of the series to the last one sent (the last of the series if windows are left to send at the end, otherwise the last with a value), if and only if the field does not slip, and one time less if it does; values are in the windows due; nothing is sent exactly if no window is due |
| `DownSampleAggregator.SlipFacts` | engine/record_plan.go:1027-1037 | a field slips exactly if the rows after its first one do not begin with the second window: the chunks have one row, the shard starts inside the first window, the first record with a window due has only the first one, and the next window due is not the second |
| `DownSampleAggregator.SlipTells` | engine/record_plan.go:1027-1037 | the column of a field that slips is not the list of windows up to any window, and it has one time less than there are windows |
| `DownSampleAggregator.DuesRise` | engine/record_plan.go:1184-1227 | the windows sent with a value are strictly rising, inside the windows of the series |
| `DownSampleAggregator.FileSequenceAggregator.Aggregate` | engine/record_plan.go:991-1018 | the output is, field by field, the chunks of that field, for any input made of fields |
| `DownSampleAggregator.LastValueIsHeld` | engine/record_plan.go:1039-1082 | a value in the last segment of a field is enough for that |
| `DownSampleAggregator.KickNilRow` | lib/record/record.go:1188-1239 | copying the stretches between rows without a value leaves the times of the rows with one |
| `DownSampleValues.KickExactly` | lib/record/record.go:1188-1239 | a time is left exactly if a row with a value has it |
| `DownSampleValues.DuesOnRows` | engine/record_plan.go:1039-1139 | on the rows of a field: a window is sent with a value if and only if a row with a value lies in it, unless the next segment begins in the window but neither it nor a later one has a value there |
| `DownSampleValues.DeliversValues` | engine/record_plan.go:1027-1139 | the column sent for a field has a value in exactly these windows |
| `DownSampleAggregator.DuesAreWindows` | engine/record_plan.go:1184-1227 | the windows sent with a value are those in which the field has one, each once and in order, if and only if no window is held back for a next segment that has no value in it |
| `DownSamplePipeline.NilRowLosesValue` | engine/record_plan.go:1106-1139 | a segment that begins with a nil row in the last window of the segment before makes that window lose its value, for any two values in different windows |
| `DownSamplePipeline.SomeColumnIsCut` | engine/record_plan.go:1039-1082 | two fields of one series, a valid input, with values at 0 and 10 but only one of them at 20: they do not end together |
| `DownSamplePipeline.SomeValueIsLost` | engine/record_plan.go:1106-1139 | two segments, a valid input, for which a value is lost |
| `DownSampleWriter.WriteIntoStorage.WriteRecord` | engine/record_plan.go:628-699 | what the files hold once flushed grows by the record: a new file, series or column, or more of the current column; only the first column of a series adds times |
| `DownSampleWriter.WriteIntoStorage.EndFile` | engine/record_plan.go:754-771 | ending a file flushes the current column and the time column |
| `DownSampleWriter.WriteIntoStorage.Work` | engine/record_plan.go:558-613 | for every list of records the columns written are the runs of records with the same key, in order, split by file, series and field, and every time column has the times of the first column of its series |
| `DownSamplePipeline.RunsAreFields` | engine/record_plan.go:628-699 | the writer sees one run per field for which a chunk was sent |
| `DownSamplePipeline.AlignedExactly` | engine/record_plan.go:628-699 | in files whose time columns come from the first column of each series, every column has the times of its time column if and only if neighbouring columns of a series have the same times |
| `DownSamplePipeline.TimesTell` | engine/record_plan.go:1027-1082 | two columns of a series have the same times if and only if they end at the same window and slip to the same window, or do not slip |
| `DownSamplePipeline.AlignedColumns` | engine/record_plan.go:628-699 | every column of every series has the times of its time column if and only if neighbouring fields of a series for which a chunk was sent end together |
| `DownSamplePipeline.SendingMeans` | engine/record_plan.go:1039-1082 | a field gets a column exactly if one of its windows is sent with a value |
| `DownSamplePipeline.SeriesEnds` | engine/record_plan.go:628-699 | if the fields of a series follow each other, neighbours ending together is the same as all fields of the series ending together |
| `DownSamplePipeline.DownSample` | engine/record_plan.go:628-1082 | aggregator and writer together: the columns are, in order, exactly those of the fields with a window due, each with the windows up to the last one sent and with a value exactly in the windows in which a row of its field has one, apart from those lost to a next segment without a value; every column has the times of its time column if and only if all fields of each series end at the same window and slip alike; if windows are left to send at the end of every field and none slips, that holds and every field has its column |
| `DownSampleReader.ChunkMetaByField.Next` | engine/record_plan.go:323-354 | the fields and segments of a series in order, skipping only nil reads, with termination |
| `DownSampleReader.ChunkMetaByFieldIters.Next` | engine/record_plan.go:385-407 | the series of a meta index in order, each record with the time range of its own series |
| `DownSampleReader.MetaIndexIterator.Next` | engine/record_plan.go:456-474 | the meta indexes of a file in order |
| `DownSampleReader.TsspSequenceReader.ReadRecord` | engine/record_plan.go:167-199 | the next readable segment, going on to the next file only when a file is exhausted |
| `DownSampleReader.Read` | engine/record_plan.go:122-165 | all records: every segment of every field of every series of every file once, in lexicographic order, without the nil reads |
| `ReadingPlaces.ReadInOrder` | engine/record_plan.go:122-474 | by places: every segment that can be read gives one record with its rows, file, series id, field and time range, in the order of file, meta index, series, field and segment, and nothing else is read |
| `ReadingPlaces.PresentInOrder` | engine/record_plan.go:323-354 | the same for the segments of one field |
| `ReadingOrder.AllTidy` | engine/record_plan.go:122-474 | for every list of distinct files, distinct series in each and distinct fields, whatever reads give nil: every field comes once, the fields of a series come one after the other, and with the time range of the series |
| `DownSamplePipeline.DownSampleFiles` | engine/record_plan.go:122-1082 | reader, aggregator and writer over any distinct files, series and fields: the same guarantees for the files written |
| `FragmentSlices.GetBatchFrag` | engine/hybrid_index_reader.go:433-500 | the fragment count is the number of fragments of the ranges kept, and only files without fragments are left out |
| `FragmentSlices.SliceRange` | engine/hybrid_index_reader.go:354-380 | the piece of a range is exactly its fragments inside the slice |
| `FragmentSlices.SliceFiles` | engine/hybrid_index_reader.go:349-387 | the ranges found are exactly the fragments at the positions of the slice |
| `FragmentSlices.InitInc` | engine/hybrid_index_reader.go:327-390 | an iteration gets exactly its 16 fragments, fewer for the last one, with their number; iterations past the end get nothing |
| `FragmentSlices.AllIterations` | engine/hybrid_index_reader.go:392-431 | all iterations together give every fragment of every file once and in order, sixteen in each iteration but the last |
| `FragmentSlices.PointsMean` | engine/hybrid_index_reader.go:433-500 | the fragments of a list of ranges are those inside a range of their file |
| `ShardSplit.CreateShardGroupsByTimeRange` | coordinator/write_helper.go:532-554 | the groups are all shard groups from that of the start to that of the end, without a hole |
| `ShardSplit.SearchLowerBoundOfRec` | coordinator/write_helper.go:739-746 | the binary search gives the number of rows before the end of the group, and the special value exactly in the stated cases |
| `ShardSplit.SplitAndWriteByShard` | coordinator/record_writer.go:442-478 | the pieces are non-empty, follow each other, cover every row once and lie in their group; the row read for the error exists; an error is returned exactly if a group in between has no row, although every row is written |
| `ShardSplit.GroupInBetweenIsEmpty` | coordinator/record_writer.go:448-452 | two rows with an empty group between them |
| `ScanDistribution.CreateGroupSubCursor` | engine/iterators.go:478-549 | the work items of all tag sets are dealt to the groups in turn |
| `ScanDistribution.DealBalanced` | engine/iterators.go:478-549 | groups differ by at most one work item |
| `ScanDistribution.DealPlace` | engine/iterators.go:478-549 | every work item is at exactly one place of one group |
| `ScanDistribution.DifferentGroups` | engine/iterators.go:665-675 | two work items of the same tag set go to different groups, so they can run in parallel |
| `ScanDistribution.EverySeriesOnce` | engine/iterators.go:515-535 | every series of every tag set is visited by exactly one sub-cursor |
| `ScanDistribution.AsParallelAsPossible` | engine/iterators.go:526-530 | a tag set gets as many sub-cursors as both the parallelism and its number of series allow |
| `ScanDistribution.FileCursor.NextIndex` | engine/file_cursor.go:180-188 | the walk moves on by one stride |
| `ScanDistribution.Walk` | engine/file_cursor.go:180-201 | the walk visits exactly start, start + step, and so on, and the index counts the directly preceding visits with the same id |
| `ScanDistribution.RunIndexMeans` | engine/file_cursor.go:180-201 | the index is the length of the run of visits with the same id just before: all of them have it, and the one before them has another or is before the start |
| `LazyBlockReader.StreamDetachedReader.FilterBySk` | engine/detached_lazy_load_index_reader.go:311-328 | a block is kept exactly if every skip index keeps it |
| `LazyBlockReader.StreamDetachedReader.InitDataReader` | engine/detached_lazy_load_index_reader.go:246-308 | a batch has the next wanted blocks, at most eight, or the reader moves on to the next file; nothing is skipped |
| `LazyBlockReader.StreamDetachedReader.Next` | engine/detached_lazy_load_index_reader.go:207-244 | the next wanted block, with termination by files and blocks left |
| `LazyBlockReader.ReadAll` | engine/detached_lazy_load_index_reader.go:207-308 | all blocks delivered are the reference list, in either direction those that share an instant with the query |
| `LazyBlockReader.DeliveredExactly` | engine/detached_lazy_load_index_reader.go:246-308 | the reference list has exactly the blocks that overlap in time and pass every skip index, of the files that overlap, strictly by file and block |
| `LazyBlockReader.DeliveredByTime` | engine/detached_lazy_load_index_reader.go:246-308 | a block that shares an instant with the query, in a file that does, and that every skip index keeps, is delivered; and no other, if ranges end after they begin |
| `LazyBlockReader.DescendingReverses` | engine/detached_lazy_load_index_reader.go:246-308 | a descending query gets the reverse list |
| `DownSampleLog.DownSampleFilesInfo.Marshal` | engine/downsample_info.go:39-69 | the bytes appended are the body of the record and a checksum of everything before it |
| `DownSampleLog.DownSampleFilesInfo.Unmarshal` | engine/downsample_info.go:71-165 | reading succeeds exactly if a record can be read, and gives it and what follows it; the extra length checks reject nothing |
| `DownSampleLog.ParseBody` | engine/downsample_info.go:39-165 | a written record whose lengths fit is read back, with what follows it left over |
| `DownSampleLog.BodyParse` | engine/downsample_info.go:71-165 | whatever is read is a record whose lengths fit, and writing it again gives back the input |
| `DownSampleLog.RoundTrip` | engine/downsample_info.go:39-165 | a record is read back unchanged if and only if its numbers fit into 64 bits and its lengths into 16 |
| `DownSampleLog.MostSignificantFirst` | engine/downsample_info.go:39-69 | every byte of a number, the most significant one first |
| `DownSampleLog.BytesOfRecord` | engine/downsample_info.go:39-69 | a record byte by byte: task, level, measurements, old and new files in this order, each list with its length in two bytes |
| `DownSampleLog.LongNameIsNotReadBack` | engine/downsample_info.go:43-47 | a name of 65536 bytes is not read back |
| `FieldFixing.FixFields` | coordinator/points_writer.go:210-231 | without "time" fields, the last field of every run of equal keys stays, and it fails exactly if neighbours with the same key differ in type |
| `FieldFixing.FixedFields` | coordinator/points_writer.go:210-231 | for sorted fields: strictly rising keys, never "time", and exactly the fields after which no other has the same key |
| `FieldFixing.FixFails` | coordinator/points_writer.go:210-231 | for sorted fields: a failure exactly if two fields with the same key, other than "time", differ in type |
| `RowRouting.InjestionCtx.GetShardRow` | coordinator/context.go:58-67 | the binary search finds the entry of a shard exactly if there is one |
| `RowRouting.InjestionCtx.SetShardRow` | coordinator/context.go:69-84 | the map stays strictly sorted, the row is appended to its shard, and no other shard changes |
| `RowRouting.RouteAndMapOriginRows` | coordinator/points_writer.go:381-544 | without a fatal error the rows in the map and the dropped ones are all rows; the rows under a shard are, in the order of the request, exactly those in range, with a valid time and valid fields, a known measurement and engine and a schema that takes them, mapped to that shard; an error is reported exactly if a row was dropped or stored in part; it is fatal exactly if some row fails, and then the rows before the first of them are done and that row is in the map exactly if only its engine was unknown |
| `RowRouting.JudgeMeans` | coordinator/points_writer.go:381-544 | whether or not schemas are cleaned, a row is placed exactly if it passes every check, and it is dropped only for one of seven reasons |

## Left out

- FragmentSlices.InitInc: counts are unbounded here; in the source they are 32-bit and stay in range for fewer than 2^31 fragments, and the number of iterations goes through a floating-point division.
- DownSampleWriter.WriteIntoStorage.Work: the aggregator sends no empty chunk and no series has id 0, which the source uses as its sign for no series; columns are written whole and not split into segments, and the call prefix of field names is not part of the model.
- DownSampleWriter.WriteIntoStorage.WriteRecord: no empty records and no series with id 0, for the same reasons.
- DownSampleAggregator.FileSequenceAggregator.AggregateSameSchema: a chunk size of 0, with which the source would send an empty chunk, and segments that are empty or out of order.
- DownSampleAggregator.FileSequenceAggregator.Aggregate: the same.
- DownSamplePipeline.DownSample: the same; the single-call case, in which the reducers write the times, is not part of the model.
- DownSamplePipeline.DownSampleFiles: the same, and a file in which a series occurs twice.
- DownSampleAggregator.KickNilRow: records of one field, so a row is without a value exactly if that field is nil.
- LazyBlockReader.DeliveredByTime: for a range or block that ends before it begins only that what shares an instant is delivered.
- DownSampleWindows.AppendRecWithNilRows: values keep their window only if the shard starts before the end of the first window, which holds for data inside the shard.
- PromSteps.NewQuery: a query that ends before its first window does, and instant queries without a step, which take other branches.
- VectorCursor.IsSameWindow: a step longer than the range and instant queries take other branches.
- StaleMarkers.PrepareRecord: every record has a row that is no marker; what the incremental reducer does with one that has none is `IncReducer.IncReducer.AggregateNothing`.
- SliceReducer.ReduceBatch: the same.
- SliceReducer.Evaluate: the same.
- IncReducer.Evaluate: the same.
- RateRuns.Evaluate: the same.
- IncReducer.IncReducer.AggregateNothing: the times of the points, not their values.
- IncReducer.MarkersLast: a query that begins within one step length of the epoch, and a record of markers only that is not the last one.
- IncReducer.IncReducer.Step: the first step of a batch in time has a row of the batch in its window, which the grid guarantees.
- OverTime.MergeIsWhole: exact values; NaN, which has tests of its own, and compensated sums are not modelled.
- OverTime.Reduce: the same, and the returned time is not modelled.
- OverTime.ReduceAvg: the same; infinite means have a branch of their own.
- OverTime.ReduceMin: values are not NaN.
- OverTime.ReduceMax: values are not NaN.
- OverTime.ReduceSum: an exact sum for the compensated one.
- PartitionEngine.Engine.UnrefDBPTs: the partitions are not marked meanwhile; giving back a reference of a marked one is `Partition.DBPTInfo.Unref`, and in every interleaving `PartitionSafety.RefProtocol`.
- AggregateCursor.Reduce: the time column; the columns of the reducers are not modelled.
- AggregateCursor.Cursor.InNextWindow: queries without an interval, which have one window, take another branch.
- AggregateCursor.Cursor.Next: the same; records come in ascending time.
- AggregateCursor.AggregateWindows: the same.
- FragmentSlices.GetBatchFrag: the early return with a batch of segments.
- RowRouting.RouteAndMapOriginRows: the answers of the checks are inputs, including how often a row is tried again while its measurement is missing; the source tries without limit. Reuse of old entries of the map is modelled as new entries.
- LazyBlockReader.ReadAll: the time range is fixed; narrowing it between calls is not part of the model.
- ScanDistribution.CreateGroupSubCursor: work items are recorded, whether or not they turn out to have a cursor; parallel appends are modelled in one order, which is sound because they go to different groups.
- Queries with a range shorter than the step and instant queries without a step.
- The merge functions of the slice reducer (rate, deriv, quantile and others): only which samples they are called with.
- Floating-point rounding and compensated sums.
- Error returns of file reads, of the skip-index and primary-key scans and of shard writes.
- Shard-key and alive-shard caches, stream aggregation rows, raft, subscriptions, statistics and tracing.
