# NeMo RL: verified models of the batching engine, the asynchronous GRPO protocol and their neighbours

The project models the parts of NeMo RL that decide which rows are trained on, when, and with which numbers,
and proves what callers rely on.

* **Asynchronous GRPO** (`ReplayBuffer.dfy`, `Collector.dfy`, `AsyncProtocol.dfy`, `AsyncTheorems.dfy`,
  `AsyncProgress.dfy`). The replay buffer and the collector are classes; the whole system - collector thread,
  prompt-group workers, buffer, trainer, delivery of new weight versions - is a transition system. P is the number of
  prompts per step and A the maximal trajectory age. Reading the last generated target and the locked check are two steps, as in the code. A run is
  *fresh* when no reservation picks a step at or below the buffer's current answer; the safety theorems are about
  fresh runs, and what happens otherwise is stated exactly.
* **Sharding and batching** (`Seqs.dfy`, `Batches.dfy`, `DynamicBatching.dfy`, `DynamicOrder.dfy`,
  `SequencePacking.dfy`, `Sharding.dfy`): `shard_by_batch_size` in its plain, dynamic and packing modes, `get_batch`,
  `reorder_data` and the dynamic microbatch iterator.
* **Bin packing** (`Packing.dfy`, `BinCounts.dfy`, `ModifiedFirstFit.dfy`, `Packers.dfy`): all four algorithms and the
  adjustment of the number of bins.
* **Numbers** (`TopKTopP.dfy`, `Advantages.dfy`, `DynamicSampling.dfy`): top-k/top-p filtering, baselines and
  advantages, and dynamic sampling over steps and epochs.
* **Trees, coordinates, text** (`ConfigPrune.dfy`, `NamedSharding.dfy`, `BoxedAnswer.dfy`).

`Wrappers.dfy` and `Arith.dfy` hold Option, Result and small facts about products. `dafny verify dfyconfig.toml` checks
the whole project.

## What the code does not guarantee

* The unlocked read before the locked check can reserve one step twice; the left-over group then ages until `sample`
  raises (`AsyncTheorems.DoubleReservationCrashes`). It happens exactly when the picked step is not above the last
  target pushed in between (`AsyncTheorems.StalePickIffReservedBefore`); a run is fresh if and only if it reserves no
  step twice (`AsyncTheorems.FreshIffNothingReservedTwice`).
* A step W is skipped, and training waits for it for ever, exactly when version W reaches the collector before anyone
  has reserved W and no collector batch in progress will still pick it: a batch that has read its version only can pick
  W if its own window holds W, one that has also read the last generated target only if W is its next pick
  (`AsyncProgress.TrainsAgainIffNotDoomed`; reached in `AsyncProgress.SkippedStepIsReachable` and, although the batch's
  window still holds W, in `AsyncProgress.StaleBatchMissesStep`). The version that training starts
  from is the exception: its window holds its own step.
* The clean-up that ends a worker is documented as error handling, but it also releases the reservation when a
  worker other than the first one ends early; the protocol model follows the code.
* `reorder_data` with the indices of dynamic batching undoes the sharding only for one chunk or one shard
  (`DynamicOrder.RoundTripIff`); sequence packing has no such limit.
* Minimising a config loses an empty mapping or list that stands over a different base value
  (`ConfigPrune.EmptyIsLost`, `ConfigPrune.PruningPreservesMeaning`). With `--base` the file moves to a new parent: its
  meaning over that parent is kept, what it meant under the old one need not be.
* Under the leave-one-out baseline dynamic sampling can keep some responses of a prompt and drop others
  (`Advantages.LeaveOneOutSplits`, with the exact condition in `Advantages.LeaveOneOutKeepsTogether`).
* The `NamedSharding` constructor does not check axis names; with a repeated name `get_ranks` at a rank's own
  coordinates is no longer that rank (`NamedShardings.CoordsLeadBack`).
* The strict answer check sees only the last hundred characters (`BoxedAnswer.StrictBoxWindow`).

## Model

| member | source | states |
|---|---|---|
| ReplayBuffers.ReplayBuffer.Create | nemo_rl/algorithms/async_utils.py:43-53 | a non-positive size is refused; otherwise an empty buffer of that size |
| ReplayBuffers.ReplayBuffer.PushWithWaitSignal | nemo_rl/algorithms/async_utils.py:55-82 | "full" leaves the object unchanged; success appends one entry to all three lists and raises the highest generated target |
| ReplayBuffers.ReplayBuffer.GetExistingTargetWeights | nemo_rl/algorithms/async_utils.py:97-100 | exactly the targets that some buffered group has |
| ReplayBuffers.ReplayBuffer.Sample | nemo_rl/algorithms/async_utils.py:102-223 | read off the three lists: raises exactly on an outdated version or when no group is asked for, succeeds exactly when n groups for the current step are there, hands out the items at the first n of their positions with the mean of their ages, and removes exactly those positions; handed out and left make up the old list; stalling or raising changes nothing |
| ReplayBuffers.EnoughMeansSelection | nemo_rl/algorithms/async_utils.py:148-197 | there are n positions of groups for the step exactly when n groups are wanted, and the filters select the first n |
| ReplayBuffers.ChosenAndRest | nemo_rl/algorithms/async_utils.py:204-220 | the items at ascending positions and the list without them are the whole list |
| ReplayBuffers.ReplayBuffer.PopSelected | nemo_rl/algorithms/async_utils.py:211-215 | popping in reverse order removes exactly the selected entries from the three lists in lockstep, the others keep their order |
| ReplayBuffers.ReplayBuffer.Clear | nemo_rl/algorithms/async_utils.py:230-235 | empties the queue, keeps the highest generated target |
| ReplayBuffers.FiltersSelectWanted | nemo_rl/algorithms/async_utils.py:148-180 | the two filters of sample find exactly the groups of the current target inside the version window |
| ReplayBuffers.PopAllDropsWanted | nemo_rl/algorithms/async_utils.py:191-215 | popping the first n wanted indices from the back is dropping the first n wanted entries |
| ReplayBuffers.TakeDropConserves | nemo_rl/algorithms/async_utils.py:191-215 | what sample hands out and what it leaves are together the old buffer, nothing lost or doubled |
| ReplayBuffers.OnlySurplusStays | nemo_rl/algorithms/async_utils.py:191-215 | a wanted group stays behind only when more than n were there |
| ReplayBuffers.AverageAgeWithinWindow | nemo_rl/algorithms/async_utils.py:193-197 | the reported average age lies between 0 and the maximal age |
| Collectors.NextTargetIsLeastFree | nemo_rl/algorithms/async_utils.py:294-342 | the reserved step is the least step of the generation window that is neither generated nor being generated; None means there is none |
| Collectors.AsyncTrajectoryCollector.GetNextTargetForGeneration | nemo_rl/algorithms/async_utils.py:323-342 | answers that step and adds exactly it to the reservations |
| Collectors.AsyncTrajectoryCollector.ShouldPauseForGenerationLimits | nemo_rl/algorithms/async_utils.py:355-377 | pauses exactly when no step of the window is free |
| Collectors.AsyncTrajectoryCollector.ReleaseReservation | nemo_rl/algorithms/async_utils.py:706-715 | gives back one reservation and no other |
| AsyncProtocol.StepKeepsInv | nemo_rl/algorithms/async_utils.py:451-508 | every step of collector, worker, trainer and version delivery keeps the protocol invariant |
| AsyncProtocol.RunInv | nemo_rl/algorithms/async_utils.py:451-508 | the invariant holds at the end of every fresh run |
| AsyncProtocol.BufferBound | nemo_rl/algorithms/grpo.py:2491-2502 | at most (A + 1) * P groups are buffered |
| AsyncProtocol.PushFindsRoom | nemo_rl/algorithms/async_utils.py:68-69 | while a worker has still to push, the buffer has room |
| AsyncProtocol.PickIsNew | nemo_rl/algorithms/async_utils.py:323-342 | a reservation above the last generated target was never made before |
| AsyncProtocol.SampleDoesNotRaise | nemo_rl/algorithms/async_utils.py:133-145 | under the invariant sample does not find a group that is too old |
| AsyncTheorems.AgeSafety | nemo_rl/algorithms/async_utils.py:133-145 | in every fresh run each buffered group has W <= target <= W + A and target - A <= version <= target, and sample never raises |
| AsyncTheorems.BufferSafety | nemo_rl/algorithms/async_utils.py:281-287 | in every fresh run the buffer stays within (A + 1) * P, no push is refused, and at most P * A workers hold the semaphore |
| AsyncTheorems.ExactlyOnce | nemo_rl/algorithms/async_utils.py:637-741 | reservations strictly increase; the batch trained on at step W holds each prompt of W exactly once and nothing of W is left anywhere |
| AsyncTheorems.UnchangedAnswerIsFresh | nemo_rl/algorithms/async_utils.py:328-340 | if nothing was pushed between reading the last target and the locked check, the reservation is fresh |
| AsyncTheorems.StalePickIffReservedBefore | nemo_rl/algorithms/async_utils.py:328-340 | the two-step read and check picks a step already reserved if and only if it is not above what the buffer would answer now |
| AsyncTheorems.DoubleReservationIsReachable | nemo_rl/algorithms/async_utils.py:328-340 | a concrete schedule reserves step 0 twice |
| AsyncTheorems.DoubleReservationCrashes | nemo_rl/algorithms/async_utils.py:141-145 | continued, that schedule makes sample raise its error about groups older than the window |
| AsyncTheorems.FreshIffNothingReservedTwice | nemo_rl/algorithms/async_utils.py:323-342 | over whole runs: the reservations are distinct, and then strictly increasing, if and only if no reservation was stale |
| AsyncProgress.EveryNumberOfWorkers | nemo_rl/algorithms/async_utils.py:281-287 | the bound on the workers is attained: for every n up to P * A some fresh run has exactly n of them |
| AsyncProgress.SpawnIffPermit | nemo_rl/algorithms/async_utils.py:493 | a spawning collector with prompts left can spawn if and only if fewer than P * A workers run |
| AsyncProgress.PushRefusedIffFull | nemo_rl/algorithms/grpo.py:2491-2502 | a push is refused exactly when the buffer holds 2 * P * A groups |
| AsyncProgress.FirstPushReleases | nemo_rl/algorithms/async_utils.py:704-715 | the worker of the first prompt can give the reservation back as soon as it has pushed, while it still runs |
| AsyncProgress.ReleasedByWorker | nemo_rl/algorithms/async_utils.py:704-741 | a step reserved before stays reserved exactly unless a worker for it ends, or the worker of its first prompt gives it back |
| AsyncProgress.TrainsAgainIffNotDoomed | nemo_rl/algorithms/async_utils.py:294-342 | after any fresh run some continuation trains again if and only if the state is not doomed |
| AsyncProgress.DoomedForever | nemo_rl/algorithms/grpo.py:2651-2690 | from a doomed state no continuation at all, fresh or not, trains again |
| AsyncProgress.BarrenStays | nemo_rl/algorithms/async_utils.py:451-508 | no step of collector, worker, trainer or delivery leads out of what is left of a doomed state |
| AsyncProgress.TrainOnceMore | nemo_rl/algorithms/async_utils.py:451-508 | from any other state a schedule that trains again: what runs is finished, versions are delivered until one serves the awaited step, and that step is reserved and spawned |
| AsyncProgress.TrainAfterStale | nemo_rl/algorithms/async_utils.py:323-342 | also a collector about to reserve a trained step again gets to the awaited step, in its next batch |
| AsyncProgress.SkippedStepIsReachable | nemo_rl/algorithms/async_utils.py:294-342 | a fresh run reaches a doomed state with an idle collector |
| AsyncProgress.StaleBatchMissesStep | nemo_rl/algorithms/async_utils.py:323-342 | a fresh run reaches a doomed state whose collector has begun a batch that could serve the awaited step and picks a trained one |
| Seqs.SortedIsUnique | nemo_rl/distributed/batched_data_dict.py:404-406 | any stable sort of positions by key gives the order used here |
| Seqs.ArgSortInverts | nemo_rl/distributed/batched_data_dict.py:238-266 | sorting positions by the values of a permutation inverts it |
| Seqs.DealConserves | nemo_rl/distributed/batched_data_dict.py:482-490 | dealing bins round robin loses and doubles nothing |
| Seqs.DealIsStride | nemo_rl/distributed/batched_data_dict.py:409-411 | the i-th hand of a deal is the slice [i::k] |
| Batches.GetBatch | nemo_rl/distributed/batched_data_dict.py:671-703 | the offsets accumulated over the element counts (or batch_size * batch_idx) cut out the batch, with every missing-layout and range error |
| Batches.CountedBatch | nemo_rl/distributed/batched_data_dict.py:671-703 | when get_batch succeeds on a shard with recorded element counts, and which rows and layout it then cuts out |
| Batches.PlainBatch | nemo_rl/distributed/batched_data_dict.py:671-703 | and without recorded element counts |
| Batches.BatchedDataDict.ReorderData | nemo_rl/distributed/batched_data_dict.py:238-266 | overwrites the rows with the rows at the ranks of the given indices |
| Batches.BatchedDataDict.SelectIndices | nemo_rl/distributed/batched_data_dict.py:838-860 | the rows at the given positions in the given order, negative ones counted from the end; an error exactly when one is out of range |
| Batches.ReorderUndoes | nemo_rl/distributed/batched_data_dict.py:238-266 | reordering by the permutation that arranged the rows restores them |
| Batches.ShardRowAt | nemo_rl/distributed/batched_data_dict.py:541-590 | even shards: row c * shard_size + j of shard s is row c * batch_size + s * shard_size + j of the data |
| Batches.ShardsConserve | nemo_rl/distributed/batched_data_dict.py:541-590 | over all shards the first chunks appear exactly as often as in the data |
| Batches.UnevenShardsTile | nemo_rl/distributed/batched_data_dict.py:551-559 | uneven shards concatenate to the data |
| DynamicBatching.ChunkMicrobatches | nemo_rl/distributed/batched_data_dict.py:601-662 | succeeds exactly when no lookup or assertion fails; then the layout, read off the rows: it tiles the chunk, records the longest real length rounded up to the multiple or the width, stays within the budget, and one more row would not |
| DynamicBatching.AddRow | nemo_rl/distributed/batched_data_dict.py:640-662 | one more row keeps the greedy layout |
| DynamicBatching.CheckedLength | nemo_rl/distributed/batched_data_dict.py:606-636 | the longest real length over the shards at a position, rounded up to the multiple and capped by the width, or the failing lookup, division or assertion |
| DynamicBatching.BuildMicrobatches | nemo_rl/distributed/batched_data_dict.py:594-667 | succeeds exactly when the rows at every position of every chunk can be batched; every chunk gets its greedy layout, one layout for all shards, stated on the rows |
| DynamicBatching.FitsMeansRowFits | nemo_rl/distributed/batched_data_dict.py:606-636 | a position can be batched if and only if every shard has a row there and its recorded length is within the budget |
| DynamicBatching.RoundsUpIsUnique | nemo_rl/distributed/batched_data_dict.py:629-633 | length, multiple and width leave one rounded length |
| DynamicBatching.RecordedIsUnique | nemo_rl/distributed/batched_data_dict.py:640-662 | the rows of a range leave one recorded length |
| DynamicBatching.FewestMicrobatches | nemo_rl/distributed/batched_data_dict.py:601-662 | on the rows themselves: the loop divides a chunk within the budget, and no division within the budget has fewer microbatches |
| DynamicBatching.GreedyStaysAhead | nemo_rl/distributed/batched_data_dict.py:640-662 | the j-th greedy microbatch reaches at least as far as the j-th of any split within the budget |
| DynamicBatching.GreedyIsOptimal | nemo_rl/distributed/batched_data_dict.py:601-662 | no contiguous split within the budget uses fewer microbatches |
| DynamicBatching.GreedyIsSplit | nemo_rl/distributed/batched_data_dict.py:601-662 | the greedy layout is such a split itself, so the minimum is attained |
| DynamicOrder.SortAndStride | nemo_rl/distributed/batched_data_dict.py:394-414 | the loop computes the chunk-wise sorted and strided order, a permutation of the rows |
| DynamicOrder.SortedRounds | nemo_rl/distributed/batched_data_dict.py:394-414 | the rows of a chunk are dealt in ascending rounds: the j-th row of each shard is no longer than the j-th of the next shard, and the last shard's no longer than the next one of the first |
| DynamicOrder.ShardChunkRows | nemo_rl/distributed/batched_data_dict.py:394-427 | chunk c of shard s holds the s-th slice of the rows of chunk c in sorted order |
| DynamicOrder.LoadBalance | nemo_rl/distributed/batched_data_dict.py:394-414 | the total lengths of any two shards in a chunk differ by at most longest minus shortest |
| DynamicOrder.RoundTripHolds | nemo_rl/distributed/batched_data_dict.py:238-266 | with one chunk or one shard, concatenating the shards and reordering restores the rows |
| DynamicOrder.RoundTripFails | nemo_rl/distributed/batched_data_dict.py:238-266 | with two or more of both and distinct rows it never does |
| DynamicOrder.RoundTripIff | nemo_rl/distributed/batched_data_dict.py:238-266 | for distinct rows the round trip holds if and only if there is one chunk or one shard |
| DynamicOrder.MicrobatchesWithDynamicShapes | nemo_rl/distributed/batched_data_dict.py:757-780 | refuses exactly the batches without one list of ranges or without lengths; fails when a range or a length is out of bounds; else yields the row ranges cut to the recorded lengths |
| DynamicOrder.RecordedLengthCovers | nemo_rl/distributed/batched_data_dict.py:606-662 | the recorded length is at least the real length of every row of every shard, at most the width, so the cut keeps every real token |
| Packing.ConcatenativePack | nemo_rl/data/packing/algorithms.py:311-351 | fails exactly on an over-long sequence; otherwise a packing in the given order, each bin cut only where the next sequence could not join |
| Packing.FirstFitPack | nemo_rl/data/packing/algorithms.py:379-417 | fails exactly on an over-long sequence; otherwise each sequence, in the given order, is in the first bin that had room, a packing in which no sequence fits into an earlier bin |
| Packing.FirstFitOverflows | nemo_rl/data/packing/algorithms.py:379-417 | any two neighbouring bins of first fit overflow one bin together |
| Packing.CutsOverflow | nemo_rl/data/packing/algorithms.py:311-351 | without a limit neighbouring concatenative bins overflow one bin together |
| Packing.WithinTwiceOptimal | nemo_rl/data/packing/algorithms.py:379-417 | such packings use fewer than twice the bins of any packing |
| BinCounts.TargetIsLeast | nemo_rl/data/packing/algorithms.py:104-114 | the target count is the least multiple that is not below the number of bins and not below the minimum |
| BinCounts.AdjustBinCount | nemo_rl/data/packing/algorithms.py:91-167 | fails exactly when there are fewer sequences than the target; otherwise the target count is met, old bins keep a non-empty front part, each new bin holds one moved sequence, and a bin gives up sequences only after every fuller one is down to one |
| BinCounts.Split | nemo_rl/data/packing/algorithms.py:128-165 | the redistribution loop never reaches its "this is a bug" branch |
| ModifiedFirstFit.Pack | nemo_rl/data/packing/algorithms.py:530-652 | fails exactly on a non-positive capacity or length or an over-long sequence; otherwise a packing in which any two bins overflow one bin together |
| ModifiedFirstFit.Classify | nemo_rl/data/packing/algorithms.py:496-528 | each sequence in the class of its size, by the bounds of a half, a third and a sixth of the capacity, in the order of the indices |
| ModifiedFirstFit.AddMedium | nemo_rl/data/packing/algorithms.py:563-569 | each bin in order takes one medium item; no item left, or taken by a later bin, was larger and would have fitted |
| ModifiedFirstFit.AddSmallPairs | nemo_rl/data/packing/algorithms.py:571-590 | from the last bin: none with a medium item takes a pair; a pair is the smallest item and the largest beside it; where none was taken no two items left or taken later fit |
| ModifiedFirstFit.AddPair | nemo_rl/data/packing/algorithms.py:580-590 | the first small item joins the bin together with the last other one that fits beside it; it is never lost |
| ModifiedFirstFit.FillGreedily | nemo_rl/data/packing/algorithms.py:592-611 | each bin in order takes the largest item that fits until none does; afterwards no remaining item fits into any of the large bins |
| ModifiedFirstFit.PlaceLeftover | nemo_rl/data/packing/algorithms.py:630-648 | looking at the emptiest bin only is enough: sizes stay sorted and open bins overflow in pairs |
| ModifiedFirstFit.AllOverflow | nemo_rl/data/packing/algorithms.py:530-652 | every two bins of the result overflow one bin together |
| Packers.RunAlgorithm | nemo_rl/data/packing/algorithms.py:354-473 | what is particular to each algorithm: greedy cuts in the given order, first fit in order of falling length (of equal ones the last first) or of the shuffle, or bins that overflow in pairs |
| Packers.RunPacker | nemo_rl/data/packing/algorithms.py:169-190 | that packing, then the adjustment: whole rounds of bins; it fails exactly when the algorithm does or its bins cannot be split into a multiple of the shards |
| Packers.PadChunk | nemo_rl/distributed/batched_data_dict.py:445-459 | each length of the chunk rounded up to the multiple: at or above the length, less than one multiple above, divisible by it |
| Packers.PackChunks | nemo_rl/distributed/batched_data_dict.py:451-467 | every chunk is packed on its padded lengths; the exact condition for success, which for chunks of a multiple of the shards is that every chunk is packable |
| SequencePacking.DealChunk | nemo_rl/distributed/batched_data_dict.py:476-514 | after the loop each shard holds its bins' rows, positions, ranges and padded lengths |
| SequencePacking.ShardPacked | nemo_rl/distributed/batched_data_dict.py:466-534 | the shards, their layouts and batch_sorted_indices |
| SequencePacking.IndicesPermute | nemo_rl/distributed/batched_data_dict.py:520-523 | batch_sorted_indices is a permutation of the rows for any number of chunks |
| SequencePacking.PackedRoundTrip | nemo_rl/distributed/batched_data_dict.py:429-534 | the shards one after the other are the rows in that order and reorder_data restores the batch |
| SequencePacking.PackedBatch | nemo_rl/distributed/batched_data_dict.py:671-694 | get_batch(c) of a shard is exactly the rows of its bins of chunk c, with their layout |
| SequencePacking.BatchesUnion | nemo_rl/distributed/batched_data_dict.py:466-534 | over the shards get_batch(c) is exactly the rows of global batch c |
| SequencePacking.MicrobatchIsBin | nemo_rl/distributed/batched_data_dict.py:476-514 | the ranges tile the slice; microbatch b is one bin; its recorded length is the sum of its lengths, each rounded up to the padding multiple, a multiple itself and within capacity; all shards have equally many |
| Sharding.CheckArguments | nemo_rl/distributed/batched_data_dict.py:349-389 | accepts exactly the calls that pass the assertions and divisions |
| Sharding.SizesMeaning | nemo_rl/distributed/batched_data_dict.py:383-389 | chunks times batch size is the whole batch; even shards tile a chunk; uneven ones are just large enough |
| Sharding.ShardRanges | nemo_rl/distributed/batched_data_dict.py:544-562 | the ranges of a shard are non-empty, in bounds, and select its rows |
| Sharding.CopyRanges | nemo_rl/distributed/batched_data_dict.py:564-577 | copying behind a moving offset fills the preallocated tensor with the ranges one after the other |
| Sharding.BuildShards | nemo_rl/distributed/batched_data_dict.py:541-590 | shard s gets its block of every chunk |
| Sharding.ShardByBatchSize | nemo_rl/distributed/batched_data_dict.py:268-669 | in each mode, with even and with uneven shards, the exact condition for success and what the answer then is |
| Sharding.ShardingConserves | nemo_rl/distributed/batched_data_dict.py:268-669 | in every mode, even or uneven, the shards together hold every row exactly once |
| Sharding.EvenBatch | nemo_rl/distributed/batched_data_dict.py:696-703 | get_batch(c) of a plain or dynamic shard is its block of global batch c with the layout of chunk c |
| Sharding.DynamicBatchIterates | nemo_rl/distributed/batched_data_dict.py:757-780 | every dynamic microbatch lies in its batch and its length is between each row's real tokens and the width |
| Sharding.DynamicShardRows | nemo_rl/distributed/batched_data_dict.py:541-590 | the dynamic shards hold the rows in the order of the indices handed out, block by block |
| Sharding.DynamicBatchesBalance | nemo_rl/distributed/batched_data_dict.py:394-414 | get_batch(c) of any two dynamic shards: the total lengths differ by at most the range of the lengths in the chunk |
| TopKTopP.KthIsUnique | nemo_rl/algorithms/logits_sampling_utils.py:97-99 | the k-th largest logit is one value |
| TopKTopP.TopKPathsAgree | nemo_rl/algorithms/logits_sampling_utils.py:97-99 | whatever sorts are used, the sorted path and the sort-free path have the same top-k threshold, the k-th largest logit |
| TopKTopP.TopKMasksAgree | nemo_rl/algorithms/logits_sampling_utils.py:161-196 | the sorted top-k mask scattered back to the original positions is the mask of the sort-free path |
| TopKTopP.TopKOnly | nemo_rl/algorithms/logits_sampling_utils.py:88-108 | keeps exactly the logits that are at least the k-th largest; fails exactly when k exceeds the vocabulary |
| TopKTopP.TopP | nemo_rl/algorithms/logits_sampling_utils.py:182-187 | the running sum gives the top-p mask |
| TopKTopP.Scatter | nemo_rl/algorithms/logits_sampling_utils.py:191-196 | the i-th sorted value returns to its original position |
| TopKTopP.FilterRow | nemo_rl/algorithms/logits_sampling_utils.py:161-196 | output i is the logit if kept and -inf otherwise; the mask is the sorted mask put back |
| TopKTopP.FilteredIsUnique | nemo_rl/algorithms/logits_sampling_utils.py:161-196 | row, sort and parameters determine the answer |
| TopKTopP.TopPSmallestSufficient | nemo_rl/algorithms/logits_sampling_utils.py:168-187 | for 0 < top_p < 1 the kept tokens are a suffix of the sorted order with mass at least top_p; without the lowest the mass is less |
| TopKTopP.FilteredIsSufficient | nemo_rl/algorithms/logits_sampling_utils.py:161-196 | the same for the filtered row in its original positions, without its sort: kept logits are some of what top-k leaves, hold at least top_p of its mass, without their lowest less, and none dropped outranks them |
| TopKTopP.LogitOrder | nemo_rl/algorithms/logits_sampling_utils.py:97-108 | logits are totally ordered by value, -inf below all |
| TopKTopP.NoDroppedOutranks | nemo_rl/algorithms/logits_sampling_utils.py:168-196 | no dropped token outranks a kept one |
| TopKTopP.ApplyTopKTopP | nemo_rl/algorithms/logits_sampling_utils.py:136-208 | for every chunk size: no mask exactly when neither parameter asks for one; for 0 < top_p < 1 every row keeps a smallest sufficient set; with top-k only the logits at least the k-th largest; the exact error cases, k above the vocabulary without any row included |
| TopKTopP.ChunkSizeIrrelevant | nemo_rl/algorithms/logits_sampling_utils.py:156-204 | two chunk sizes give the same result |
| Advantages.CalculateBaselineAndStd | nemo_rl/algorithms/utils.py:86-163 | every position gets the baseline and squared std of its own prompt group |
| Advantages.GroupStatistics | nemo_rl/algorithms/utils.py:128-161 | both statistics of a group, with the branch for at most one valid response |
| Advantages.BatchAdvantages | nemo_rl/algorithms/utils.py:117-161 | the positions of one prompt hold exactly its group's advantages and stds, in order |
| Advantages.AdvantagesSumToZero | nemo_rl/algorithms/advantage_estimator.py:58-64 | under both baselines the advantages of a prompt sum to zero |
| Advantages.LeaveOneOutAdvantages | nemo_rl/algorithms/utils.py:122-141 | the leave-one-out advantage is n / (n - 1) times the mean-baseline one |
| Advantages.SquaredStdIsSampleVariance | nemo_rl/algorithms/utils.py:153-161 | mean baseline: the squared std is the sample variance, not negative, zero exactly when all rewards are equal |
| Advantages.SamePromptSameStd | nemo_rl/algorithms/utils.py:153-161 | mean baseline: one std per prompt |
| Advantages.LeaveOneOutStdZero | nemo_rl/algorithms/utils.py:153-161 | leave-one-out: the std of a response is zero exactly when all the other rewards are equal |
| Advantages.LeaveOneOutKeepsTogether | nemo_rl/algorithms/utils.py:153-161 | leave-one-out: a prompt's responses are all zero-std or all not, if and only if the rewards are equal or no single one is the only different one |
| Advantages.LeaveOneOutSplits | nemo_rl/algorithms/utils.py:153-161 | rewards 1, 0, 0 split their prompt |
| Advantages.ComputeAdvantage | nemo_rl/algorithms/advantage_estimator.py:45-74 | at every token of a response: reward minus baseline, divided by std + 1e-6 exactly where normalisation is on and the std is positive |
| Advantages.NormalizedSumToZero | nemo_rl/algorithms/advantage_estimator.py:66-72 | mean baseline: normalised advantages still sum to zero per prompt |
| Advantages.ReinforcePlusPlus | nemo_rl/algorithms/advantage_estimator.py:164-222 | token advantages, less baseline and penalty, standardised over the kept tokens; NaN, written None, exactly when the mask is empty |
| Advantages.StandardizedMoments | nemo_rl/algorithms/advantage_estimator.py:216-222 | masked mean 0; masked second moment at most 1, and 1 exactly when the variance is not below 1e-8 |
| Advantages.StandardizedDistances | nemo_rl/algorithms/advantage_estimator.py:216-222 | the order of the tokens is kept and all their distances are stretched alike: the square, times the variance clamped at 1e-8, is the old square |
| DynamicSampling.DynamicSample | nemo_rl/algorithms/grpo.py:855-929 | one generation batch: which rows join the cache, when the step is complete, when it raises; an all-zero batch leaves the cache alone |
| DynamicSampling.SelectKept | nemo_rl/algorithms/grpo.py:858-867 | the kept indices select the rows with non-zero std in order |
| DynamicSampling.RunStep | nemo_rl/algorithms/grpo.py:1503-1649 | a completed step returns exactly the first P * G non-zero-std rows, uses at most max + 1 batches and no more than needed, or raises, or runs out of data with the cache intact |
| DynamicSampling.RunEpoch | nemo_rl/algorithms/grpo.py:1405-1414 | an epoch is a sequence of such steps on consecutive batches, each starting with an empty cache and counter |
| DynamicSampling.StepKeepsBlocks | nemo_rl/algorithms/grpo.py:919-923 | if each prompt's block shares its std, a step trains on exactly P whole blocks, the first kept ones |
| DynamicSampling.MeanBaselineBlocks | nemo_rl/algorithms/grpo.py:1439-1443 | with the mean baseline a batch of repeated prompts consists of such blocks |
| DynamicSampling.MeanBaselineNeverSplits | nemo_rl/algorithms/grpo.py:855-929 | so with the mean baseline a completed step trains on exactly P prompts, each with all its G responses side by side, the first kept ones in generation order |
| ConfigPrune.PruningPreservesMeaning | tools/config_cli.py:234-270 | merging the pruned child over the base equals merging the child if and only if no empty mapping or list is lost |
| ConfigPrune.PruningOverParents | tools/config_cli.py:389-397 | pruned against a file and merged over that file with all it inherits: the same exact condition |
| ConfigPrune.EmptyIsLost | tools/config_cli.py:253-256 | an empty mapping over a scalar is dropped and the base value comes back |
| ConfigPrune.PruningIsIdempotent | tools/config_cli.py:234-270 | pruning twice is pruning once |
| ConfigPrune.PrunedIsMinimal | tools/config_cli.py:234-270 | dropping any remaining entry at any depth changes the merged config |
| ConfigPrune.Minimize | tools/config_cli.py:321-412 | fails exactly on non-mappings and, without --base, on a defaults entry that is missing, null or not a string; the defaults of the result are the given path or the old entry |
| ConfigPrune.CheckAcceptsMinimized | tools/config_cli.py:500-591 | minimize-check accepts what minimize writes |
| ConfigPrune.CheckAcceptsOnlyMinimized | tools/config_cli.py:500-591 | and nothing else |
| ConfigPrune.MinimizePreservesMeaning | tools/config_cli.py:386-412 | minimising keeps what the child means over its base, inferred or given with the parents of its own, if and only if no empty entry is lost |
| NamedShardings.Create | nemo_rl/distributed/named_sharding.py:34-76 | accepts exactly matching names and duplicate-free ranks |
| NamedShardings.CoordOfOffset | nemo_rl/distributed/named_sharding.py:116-122 | coordinates survive flattening |
| NamedShardings.StepAlongAxis | nemo_rl/distributed/named_sharding.py:116-122 | row-major order: one step along an axis passes over all the entries of the later axes |
| NamedShardings.SizeOfSplit | nemo_rl/distributed/named_sharding.py:92-95 | the number of ranks is the product of the axes |
| NamedShardings.OffsetOfCoord | nemo_rl/distributed/named_sharding.py:116-122 | every flat position has its coordinates |
| NamedShardings.GetWorkerCoords | nemo_rl/distributed/named_sharding.py:103-122 | every axis name once, with the coordinate of the rank on the last axis of that name, or an error exactly when the rank is absent |
| NamedShardings.GetRanks | nemo_rl/distributed/named_sharding.py:155-199 | answers what the fixed axes select, a valid sub-layout or one rank, or the first error of the arguments |
| NamedShardings.FixValid | nemo_rl/distributed/named_sharding.py:187-199 | a sub-array of a duplicate-free layout passes the constructor |
| NamedShardings.CoordsLeadBack | nemo_rl/distributed/named_sharding.py:103-199 | get_ranks at the coordinates of a rank is that rank if and only if no axis name is used twice |
| NamedShardings.OneAtATime | nemo_rl/distributed/named_sharding.py:155-199 | fixing axes together equals fixing them one at a time, with the same error; only a further call on an int, which has no get_ranks, is an invalid name in the single call |
| NamedShardings.FixTwice | nemo_rl/distributed/named_sharding.py:187-199 | fixing axes of a sub-array is fixing them in the full array |
| NamedShardings.NoArguments | nemo_rl/distributed/named_sharding.py:155-199 | without arguments the whole layout comes back |
| NamedShardings.FixHolds | nemo_rl/distributed/named_sharding.py:150-153 | a sub-array holds a rank exactly when its coordinates match the fixed axes |
| NamedShardings.GetRanksByCoord | nemo_rl/distributed/named_sharding.py:124-153 | the matching ranks in ascending order; an out-of-range index gives none; an unknown name is an error |
| NamedShardings.AxisPartitions | nemo_rl/distributed/named_sharding.py:124-153 | over one axis each rank is found at exactly one index |
| NamedShardings.EveryRankHasCoords | nemo_rl/distributed/named_sharding.py:103-122 | every rank of the layout sits at some coordinates |
| BoxedAnswer.LastBoxedOnlyString | nemo_rl/environments/dapo_math_verifier.py:21-48 | the loop finds the last box; None exactly when there is no mark or the last one never closes |
| BoxedAnswer.ExtractedUnboxes | nemo_rl/environments/dapo_math_verifier.py:51-63 | what is extracted never fails to unbox, and its content is balanced |
| BoxedAnswer.BoxRoundTrip | nemo_rl/environments/dapo_math_verifier.py:30-63 | extracting then unboxing a balanced box that no later mark follows gives its content |
| BoxedAnswer.IsCorrectStrictBox | nemo_rl/environments/dapo_math_verifier.py:197-221 | fails exactly when the indices are not four; otherwise the content of the last box of the cut-out part, None exactly when no box closes there, scored 1 if it is the ground truth and -1 if not, with Python's negative slice starts |
| BoxedAnswer.StrictBoxWindow | nemo_rl/environments/dapo_math_verifier.py:211-221 | a last box with the ground truth scores 1 if and only if it starts within the last hundred characters |

## Left out

- Columns: a row is an abstract sample with its real length and its padded tokens; the dictionary of columns, padding of widths in `from_batches` and multimodal tensors are not modelled.
- Ray, GPUs, weight transfer, logging, timers, checkpoints and validation: only the weight versions and their order are kept.
- Protocol assumptions: no worker raises, collection keeps going, every collector batch has P prompts, and every refit delivers a new version. Waiting for pending generations before a refit is not required, so more schedules are covered than occur.
- Liveness under fair schedules, the pause and resume events, and the wake-up that the check and the clear of the limit event can miss. AsyncProgress.TrainsAgainIffNotDoomed says whether some schedule of the model trains again, not that every one does.
- Re-reading the version inside a collector batch is allowed at any prompt, not only after a refit.
- AsyncTheorems.AgeSafety: for fresh runs; a run in which the two-step reservation goes stale can break it, as the concrete schedules show. The same holds for AsyncTheorems.BufferSafety and AsyncTheorems.ExactlyOnce.
- Negative sizes and multiples: batch sizes, shard counts, length and padding multiples, token budgets of dynamic batching, row lengths and chunk sizes are natural numbers.
- Dynamic batching with uneven shards: conservation is proved, the microbatch layout is only what the loop computes or the failing lookup.
- `chunk`, `all_gather`, `repeat_interleave` and the plain microbatch iterator: easy members.
- The microbatch iterator for packed sequences slices the ranges that SequencePacking.MicrobatchIsBin describes; it is not a member of its own.
- ModifiedFirstFit.Pack: which of equally long sequences is placed where, and in which order the bins of the left-overs come, is not stated; the choices of the phases are in the contracts of the phases.
- Unknown algorithm names and metrics of the packers.
- Floating point: arithmetic is exact; a standard deviation is its square, a root is a parameter, which in Reinforce++ has the property of a reciprocal root, and softmax is any positive non-decreasing weight.
- Advantages.ReinforcePlusPlus: NaN is one answer, None, for the whole tensor; a tensor without any token is excluded.
- Advantages.CalculateBaselineAndStd: the leave-one-out std with two valid responses divides by zero and is left undefined (None); the normalised advantage is then not divided.
- Sorting of tensors: any order that ascends (or, for top-k, descends), since torch does not promise one for ties; an empty vocabulary is excluded.
- The KL estimators, reward scaling and shaping, the GDPO estimator and gradients of the filter.
- Override markers, interpolations, missing values and Python's equality of 1 and True in configs; numbers and booleans are opaque literals.
- ConfigPrune.CheckAcceptsMinimized: the order of keys in the written file, which minimize-check compares as well, is not modelled.
- ConfigPrune.PrunedIsMinimal: relative to what the child is pruned against; over an explicit base's own parents an entry can be one that they give anyway.
- Explicit bases of minimize: the relative path of the base and what its own defaults expand to are parameters.
- Zero-dimensional layouts, for which numpy itself refuses the lookup, are treated like the others.
- NamedShardings.Create: ragged nested lists and non-integer ranks, which numpy or the constructor rejects, are excluded by the types.
- Answer normalisation and the Minerva check.
