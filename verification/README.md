# FlashMemory: a verified model of the training, evaluation and benchmarking logic

This project models the parts of the FlashMemory repository whose correctness depends on more than one
function at a time, and proves what they promise. Each module follows one component:

| module | component |
|---|---|
| `Trainer` | the joint trainer's control flow for one rank, and the collectives it issues |
| `Ranks`, `LockstepInvariant`, `Lockstep` | N ranks running it under blocking collectives, any interleaving: the steps, what they keep, the theorems |
| `BucketedJob` | the trainer's ranks loading through the batch sampler |
| `UnequalLoaders` | the same ranks when their loaders yield different numbers of batches |
| `GatedValidation` | the old call pattern that let only rank 0 into the first validation |
| `EarlyStopping` | best metrics, best checkpoints and the early-stop flag over validation histories |
| `Sampler` | the length-bucketed batch sampler: sort, cut, shuffle, deal to ranks |
| `LruCache` | the document cache of the datasets |
| `Labels` | the CSR label index, label windows, the sample index, positive and negative sampling |
| `Collate`, `PairwiseLoss` | padded collation, mask selection, the chunked pairwise loss |
| `Evaluation` | score aggregation over layers, threshold counts, recall@K |
| `Hadamard` | the in-place Walsh-Hadamard butterfly |
| `ScoreForms` | the quantised and the dequantised form of the block score |
| `SpanLayout` | the line allocator of the trace converter |
| `Workload`, `WorkloadRounds`, `WorkloadCompletion` | the two-thread multi-turn request workload: steps and conservation, rounds, how runs end |
| `Redirects` | redirect chains and rings of the line-retrieval generator |
| `Boxed` | the extractor of boxed answers |
| `Arith`, `Lists`, `Wrappers` | shared arithmetic, list and result types |

`dafny verify dfyconfig.toml` checks everything.

## How to read it

Code that changes things step by step is a method or a class whose contract ties the new state to a
function of the old one; what the code promises is then proved about that function. The two concurrent
programs are step systems: a state, a set of atomic steps with guards, and theorems over every finite run
from the initial state, whatever the interleaving.

The main results:

* **Lockstep.** For every number of ranks, every interleaving and every validation result, all ranks issue
  the same collectives, never more than one apart; some rank can always move until all have left; every run
  is finite (`LockstepTheorem`, `RunsAreFinite`). N ranks are one rank: what each has issued at the end, and
  where it left, is what one rank does that is told the verdict of the early-stopping rule on rank 0's reports
  (`WholeRun`); if the flag was set, that is the nested loops cut at the call site of the first report that
  completes a stale window, and what still follows is spelled out (`StopPoint`). Without early stopping the job
  can end if and only if all loaders yield the same number of batches (`LoadersMustAgree`); the sampler provides
  that (`BucketedJob.NeverDeadlocks`). The old call pattern, which let only rank 0 into the first validation, is
  shown to block in every run (`GatedValidationDeadlocks`).
* **Padding optimality.** No way of grouping the samples into batches has a smaller total of batch maxima
  than the cut of the sorted list (`PaddingOptimal`). Every batch of every rank is a slice of that list
  (`RankBatchAt`), so the batches of an epoch are apart in length (`BatchesOrdered`).
* **Walsh-Hadamard.** The butterfly loop computes the sign-matrix transform for exactly the powers of two;
  the transform is its own inverse and keeps inner products after normalisation.
* **LRU.** The cache is exactly the most recently used documents; misses never rise with capacity.
* **Span layout.** The two-neighbour test is a whole scan on the lines the allocator builds from spans of
  positive length, and no two of them on one line overlap; with spans of no length, the layout is free of
  overlaps if and only if none of them meets, at its turn, a longer one around it on the request's current
  line (`RoomsExact`).
* **Workload.** Conservation, the cap and the pacing of rounds by the barrier hold under every interleaving and
  any failures; at every point of every run, processing all replies is within reach if and only if something
  may be sent, no request has failed and the handler is neither gone nor bound to leave
  (`CompletionTheorem`).
* **Loss and recall.** Over padded, chunked batches the pairwise loss is the sum over the pairs of a positive and
  a negative score, and the margin loss vanishes exactly for separated samples (`MarginLossVanishes`). recall@K
  is the share of the positives that a true top set holds (`RecallIsHitRate`, `EvaluateTokens`).
* **Round trips.** Collate then select by mask; box then extract; quantise then scale back.

## What the code does not promise

Where a natural reading of the code or its comments is false, the model follows the code and says exactly
when the property holds:

* `early_stop` is never cleared (`EarlyStopSticks`). A stop decided by the validation before training, which
  takes patience 1 and metrics that are not positive (`FirstVerdict`, `StopBeforeTrainingHappens`), does not
  prevent training: the first epoch still runs to its first scheduled validation or to its end
  (`StoppedBeforeTraining`, `StopBeforeTraining`).
* The sampler's `__len__` promises one batch when there is data but no rank gets a batch, and without
  `drop_last` it may be one too small (`LenExact`, `LenCanBeWrong`).
* A cache of size 0 raises on the first access (`DocCache.GetHeavy` returns `Err`).
* A zero-length span may skip the overlap test and then hide a long one from it (`CheckSafeIff`,
  `LayoutExact`, `ZeroLengthBreaksIt`).
* A failed request is never taken off the count of running ones: with as many failures as the cap nothing is
  ever sent again (`SendingStops`). With the barrier on, one failure stops all later rounds
  (`FailureStopsTheBarrier`). After any failure not all replies can be processed (`CompletionTheorem`,
  `FailingRun`).
* The response handler reads the progress bar only after its wait has run out. It may leave between a
  request's progress-bar update and its reply, or after that reply has come into the queue, and then the reply is
  lost (`HandlerLeavesExactly`, `LastReplyCanBeLost`).
* The comment at `training/dataloader.py:107` describes the block frequency as the share of tokens labelled
  with a block. The loop counts label entries, which is the same if and only if no token's row repeats a block
  (`FrequencyIsShare`, `FrequencyCanExceedShare`).
* Boxed contents come back if and only if none holds a further box and no box is followed by a percent sign
  (`ContentsIff`): a box inside a box is lost (`NestedBoxIsLost`), and a percent sign leaves the closing brace on
  the answer, which is balanced exactly without one (`AnswersBalanced`).
* The two score forms differ for a negative key scale and a nonzero key (`ScoreFormsAgreeIff`).
* A sample whose labels are all out of range gets one arbitrary positive (`PosAllMeans`).

## Model

| member | source | states |
|---|---|---|
| `Trainer.Progress` | training/train.py:1281-1405 | every program point of the trainer leads strictly closer to its end, whatever the flag |
| `Trainer.SoloIsNestedLoops` | training/train.py:1281-1405 | without a stop, the program issues one optional validation, then per epoch an all-reduce per batch, the scheduled validations, the closing validation and the barrier, and leaves after the last epoch |
| `Trainer.StopIsPrompt` | training/train.py:1374-1405 | a stop decided inside an epoch ends the program with no further collective; one decided at an epoch's end, after that epoch's barrier |
| `Trainer.StopSpelledOut` | training/train.py:1281-1405 | what a stop at each call site still issues and where it exits; before training, with an epoch to run: valEvery + 1 all-reduces and one validation if 0 < valEvery < b, otherwise b all-reduces, and never the closing validation or the epoch barrier |
| `Trainer.GuidedCut` | training/train.py:1374-1405 | a rank that is told the verdicts runs the whole program, or issues it up to the first stop and then what a stop at that scheduled call site prescribes |
| `Trainer.SharingPoint` | training/train.py:1261-1268 | a validation, and nothing else, leads to the broadcast that shares its verdict |
| `LockstepInvariant.RunsKeepInv` | training/train.py:1201-1405 | every step of every run keeps the invariant: all ranks within one collective of a common front, with a common flag, on the course of the rank that is told the verdicts |
| `Ranks.VerdictSticks` | training/train.py:1254-1267 | the early-stopping rule on growing prefixes of the reports never takes a stop back |
| `Lockstep.NoDeadlock` | training/train.py:1201-1405 | under the invariant, some rank can move unless all have left |
| `Lockstep.LockstepTheorem` | training/train.py:1201-1405 | in every run the collectives of any two ranks agree and differ by at most one, and no reachable state is a deadlock |
| `Lockstep.FlagsAgreeAfterValidation` | training/train.py:1261-1268 | ranks returning from a validation return from the same one with the same flag; until rank 0 runs the next one, it is the verdict of the early-stopping rule on all rank 0 has seen |
| `Lockstep.ExitTogether` | training/train.py:1374-1405 | at the end all ranks left at the same epoch and step, after the same collectives, with the flag set exactly if rank 0 saw `patience` stale validations in a row |
| `Lockstep.WholeRun` | training/train.py:1281-1405 | every rank has issued exactly the collectives, and left exactly where, one rank does that is told the early-stopping verdicts on rank 0's reports |
| `Lockstep.StopPoint` | training/train.py:1374-1405 | without a stop the run is the nested loops; with one it is the nested loops cut at a scheduled call site, that of the least k whose first k reports hold a stale window, followed by exactly: nothing inside an epoch, the barrier at its end, the first stretch of the first epoch before training |
| `Lockstep.FirstVerdict` | training/train.py:1226-1256 | the first report is a stop exactly if patience is 1 and neither ensemble metric is positive |
| `Lockstep.StoppedBeforeTraining` | training/train.py:1281-1381 | in every such run that ends, all ranks issue one validation, then train up to the first scheduled validation of the first epoch or to its end, and leave there |
| `Lockstep.StopBeforeTrainingHappens` | training/train.py:1281-1283 | a run from the start that returns from the validation before training with the flag set |
| `Lockstep.EveryRunCanEnd` | training/train.py:1201-1405 | every run can be continued until all ranks have left |
| `UnequalLoaders.NeverAllExit` | training/train.py:1286-1405 | without early stopping, with two loaders that yield different numbers of batches, no run has all ranks at the end |
| `UnequalLoaders.LoadersMustAgree` | training/train.py:1286-1405 | without early stopping a job of at least one epoch can end if and only if all loaders yield the same number of batches |
| `Ranks.RunsAreFinite` | training/train.py:1281-1405 | no run is longer than a bound fixed by the configuration |
| `Ranks.OnlyRankZeroValidates` | training/train.py:1201-1256 | in every run the other ranks keep no report and no metric; of their trackers only the early-stop flag changes |
| `BucketedJob.NeverDeadlocks` | training/dataloader.py:732-755 | the sampler gives every rank the same number of batches in every epoch, with or without `drop_last`, so a job that loads through it never deadlocks and always ends |
| `Trainer.StopBeforeTraining` | training/train.py:1281-1294 | a stop decided before training changes the next collective only if there is an epoch but no batch |
| `GatedValidation.GatedStartStuck` | training/train.py:1273-1280 | the old call pattern starts in the blocked family of states |
| `GatedValidation.GatedValidationDeadlocks` | training/train.py:1273-1280 | from there, with two or more ranks, no collective ever completes and no rank ever leaves, in every run |
| `EarlyStopping.ValidationState.constructor` | training/train.py:1170-1177 | the state after an empty history |
| `EarlyStopping.ValidationState.RecordLayers` | training/train.py:1239-1246 | the loop over layers brings exactly the improved per-layer metrics up to date |
| `EarlyStopping.ValidationState.Record` | training/train.py:1226-1256 | one validation's effect on the whole state |
| `EarlyStopping.BestEnsemble` | training/train.py:1227-1238 | each best ensemble metric is the maximum of 0 and all values seen, its checkpoint from the earliest validation attaining it |
| `EarlyStopping.BestPerLayer` | training/train.py:1239-1246 | the same for both metrics of every layer |
| `EarlyStopping.LastImproves` | training/train.py:1226-1238 | a validation counts as an improvement exactly if it sets a positive record for an ensemble metric |
| `EarlyStopping.StaleCounter` | training/train.py:1248-1251 | the counter is the length of the trailing run of validations without a record |
| `EarlyStopping.EarlyStopExact` | training/train.py:1248-1256 | the flag is set if and only if some `patience > 0` consecutive validations improved neither ensemble metric |
| `EarlyStopping.EarlyStopSticks` | training/train.py:1254-1256 | once set, it survives every later validation |
| `Sampler.SortIndicesCorrect` | training/dataloader.py:735-737 | the sorted indices are a permutation, ascending in length and stable |
| `Sampler.CutBatches` | training/dataloader.py:739-744 | the slicing loop yields the consecutive slices, a short last one only without `drop_last` |
| `Sampler.CutShape` | training/dataloader.py:739-744 | with `drop_last`: n/b batches, all full, and end to end the start of the sorted list |
| `Sampler.CutKeepsAll` | training/dataloader.py:739-744 | without `drop_last` the batches end to end are the sorted list |
| `Sampler.LengthBucketedBatchSampler.constructor` | training/dataloader.py:717-727 | the settings as given, epoch 0 |
| `Sampler.LengthBucketedBatchSampler.SetEpoch` | training/dataloader.py:729-730 | sets the epoch and nothing else |
| `Sampler.LengthBucketedBatchSampler.Batches` | training/dataloader.py:732-748 | as many batches as there are slices; the batch at each place is the slice of the samples sorted by length whose number the permutation drawn with seed + epoch has there, or that place itself without shuffling |
| `Sampler.LengthBucketedBatchSampler.Iterate` | training/dataloader.py:732-755 | the j-th batch of this rank is the one at place rank + j * world_size, and there are (number of batches) / world_size of them |
| `Sampler.DealShape` | training/dataloader.py:750-755 | a rank gets (number of batches) / world_size of them |
| `Sampler.DealAt` | training/dataloader.py:752-755 | a rank's j-th batch is the global batch rank + j * world_size |
| `Sampler.RankBatchAt` | training/dataloader.py:732-755 | the j-th batch of a rank, straight from the sorted samples: the slice that stands at place rank + j * world_size of the epoch |
| `Sampler.BatchAt` | training/dataloader.py:732-748 | the same for the batches before dealing |
| `Sampler.BatchesOrdered` | training/dataloader.py:732-755 | of any two batches that ranks get in an epoch, no sample of the one is longer than any sample of the other |
| `Sampler.EqualCounts` | training/dataloader.py:732-755 | all ranks get the same number of batches in every epoch: all batches, the short one included unless dropped, divided by world_size |
| `Sampler.EqualShares` | training/dataloader.py:732-755 | with `drop_last`, for every shuffle and epoch, all ranks get n / b / world_size batches, all of size b |
| `Sampler.NoSampleTwice` | training/dataloader.py:732-755 | equal samples mean the same rank, batch and place, with or without `drop_last` |
| `Sampler.FewDropped` | training/dataloader.py:742-755 | fewer than batch_size * world_size samples are dropped per epoch |
| `Sampler.LenExact` | training/dataloader.py:757-762 | `__len__` is the number of batches yielded if and only if there is no data, or every rank gets a batch and a kept short batch does not give every rank one more; otherwise it is 1 with nothing yielded, or one too small |
| `Sampler.LenCanBeWrong` | training/dataloader.py:757-762 | both failures on concrete data |
| `Sampler.SlicesAreOptimal` | training/dataloader.py:735-744 | slices of a sorted list have the least total of maxima among groupings of samples no shorter in count |
| `Sampler.PaddingOptimal` | training/dataloader.py:735-744 | no choice of n/b disjoint groups of b samples has a smaller total of group maxima than the sampler's cut |
| `LruCache.DocCache.constructor` | training/dataloader.py:71-72 | an empty cache over the documents on disk |
| `LruCache.DocCache.Evict` | training/dataloader.py:161-163 | the loop drops least recently used documents until there is room, and fails exactly if the capacity is below 1 |
| `LruCache.DocCache.GetHeavy` | training/dataloader.py:151-176 | the stored document comes back, loaded from disk exactly if it was not held; the cache is again that of the history, and the loads so far are its misses |
| `LruCache.ContentsIsRecent` | training/dataloader.py:151-176 | after any history the cache is the most recently used different documents up to capacity, in recency order |
| `LruCache.RecencyPosition` | training/dataloader.py:157-159 | what stands behind a document in recency order is exactly what was used since |
| `LruCache.CachedIff` | training/dataloader.py:564-578 | a document is held if and only if it was used and fewer than `capacity` others were used since |
| `LruCache.LargerHoldsMore` | training/dataloader.py:564-578 | what a smaller cache holds, a larger one holds |
| `LruCache.MissesFall` | training/dataloader.py:564-578 | misses never rise with capacity |
| `LruCache.FullCacheLoadsOnce` | training/dataloader.py:564-578 | with room for all documents each is loaded once |
| `Labels.SliceIsRows` | training/dataloader.py:131-134 | for well-formed row pointers the flat slice is the rows of its tokens end to end |
| `Labels.WindowIsUnion` | training/dataloader.py:193-195 | a block is in the window of token t if and only if some entry of a token from t up to, but not including, t + interval names it; the last tokens have shorter windows |
| `Labels.AddDoc` | training/dataloader.py:127-136 | the inner loop adds exactly the samples of one document |
| `Labels.BuildSamples` | training/dataloader.py:124-136 | the sample index lists, in order and once each, exactly the tokens whose number is a multiple of the step and for which some token of [t, t + interval) has a label |
| `Labels.Unique` | training/dataloader.py:195-195 | the different values, ascending |
| `Labels.Below` | training/dataloader.py:197-197 | exactly the in-range values, ascending |
| `Labels.Others` | training/dataloader.py:212-212 | exactly the blocks that are not positives, ascending |
| `Labels.SplitCount` | training/dataloader.py:212-213 | positives and the negative pool make up all blocks |
| `Labels.PosAllMeans` | training/dataloader.py:194-201 | the positives are the in-range blocks labelled at some token of [t, t + interval), or the one drawn block if there are none |
| `Labels.PickFrom` | training/dataloader.py:203-225 | different in-range indices; negatives disjoint from all true positives even after subsampling; min(n_pos * neg_ratio, pool) of them; labels one then zero |
| `Labels.PickBlocks` | training/dataloader.py:594-612 | the whole selection: every chosen positive is one of those, no negative is; it fails exactly for a document without blocks |
| `Labels.BlockFreq` | training/dataloader.py:110-122 | for every labelled block the number of label entries that name it, divided by the number of tokens; nothing for a document without tokens |
| `Labels.CountLabels` | training/dataloader.py:117-120 | the nested loops count, for every block, the label entries that name it |
| `Labels.FrequencyIsShare` | training/dataloader.py:106-122 | the frequency of every block is the share of tokens labelled with it if and only if no token's row repeats a block |
| `Labels.FrequencyCanExceedShare` | training/dataloader.py:106-122 | a document on which it is not: frequency 2, share 1 |
| `Collate.FillRow` | training/dataloader.py:284-289 | one slice assignment writes one padded row and nothing else |
| `Collate.FillKeys` | training/dataloader.py:677-678 | the same for the keys of all layers |
| `Collate.Allocate` | training/dataloader.py:662-665 | all-zero tensors |
| `Collate.FillSample` | training/dataloader.py:666-681 | one sample written into all tensors, the others unchanged |
| `Collate.JointCollate` | training/dataloader.py:654-690 | fails exactly on an empty batch or a sample whose layers disagree; otherwise every row padded to the longest |
| `Collate.SelectRecovers` | training/dataloader.py:268-300 | selecting padded rows by their mask gives the unpadded rows in order, for every width that fits |
| `Collate.CollatedSelects` | training/dataloader.py:654-690 | `labels[mask]` and `weights[mask]` of a collated batch are those of all samples, unpadded and in order |
| `Collate.CollatedRows` | training/dataloader.py:662-690 | row i of a collated batch starts with the labels and weights of sample i, then zeros; its mask is true exactly on the former |
| `PairwiseLoss.ChunkedSums` | training/train.py:1312-1332 | over chunks of 64 rows: the loss is the sum of elem(p - q) over the unmasked positive scores p and negative scores q of each row, the count the number of such pairs |
| `PairwiseLoss.SumsArePairs` | training/train.py:1316-1332 | masking the square of score differences is pairing the list of positive scores with the list of negative scores |
| `PairwiseLoss.AllPairsAddsUp` | training/train.py:1321-1331 | what the sum over all pairs is: one pair counts elem(p - q), and splitting either list splits the sum |
| `PairwiseLoss.PaddingIndependent` | training/train.py:1611-1630 | for any scores in the padding the numerator is the sum of elem(p - q) over the scores p labelled 1 and q labelled 0 of each unpadded sample, the count the number of positives times that of negatives |
| `PairwiseLoss.CollatedLoss` | training/train.py:1312-1335 | from collation to loss: for any scores of a collated batch the sums are those over the positive and negative scores of the samples that were collated |
| `PairwiseLoss.MarginLossVanishes` | training/train.py:1322-1332 | the margin loss is never negative, and zero if and only if in every sample every positive scores above every negative by the margin |
| `PairwiseLoss.NoPairsZeroMean` | training/train.py:1333-1335 | a batch without pairs has loss zero after clamping the denominator |
| `PairwiseLoss.MeanUndone` | training/train.py:1333-1335 | the reported loss times the number of pairs, or 1 if there are none, is the summed loss |
| `Evaluation.AccumulateLayer` | training/eval.py:112-136 | one layer, batch by batch, takes the pointwise maximum with what was there, for every batch size |
| `Evaluation.Aggregate` | training/eval.py:99-136 | the accumulated matrix is the running maximum of the layers at every token and block, for every batch size |
| `Evaluation.RunningMaxIsMaximum` | training/eval.py:99-136 | for scores that are not negative it is the layers' maximum |
| `Evaluation.MaxIsUnion` | training/eval.py:148-148 | thresholding the maximum is the union of the layers' predictions |
| `Evaluation.MinIsIntersection` | training/eval.py:307-313 | thresholding the minimum is their intersection |
| `Evaluation.SumAddsUp` | training/eval.py:307-313 | the sum the mean is taken of adds up: one score is itself, and parts add up to the whole |
| `Evaluation.MeanBetween` | training/eval.py:307-313 | the mean predicts what all layers predict, and nothing that no layer predicts |
| `Evaluation.CountsSplit` | training/eval.py:150-155 | hits plus misses are the positives below n, hits plus false alarms are the predictions |
| `Evaluation.TpFnIsPositives` | training/eval.py:150-155 | hits plus misses are the token's in-range positives |
| `Evaluation.CountsAre` | training/eval.py:148-155 | the three counts are the numbers of blocks that score at least 0.5 and are positive, score so and are not, and are positive and do not |
| `Evaluation.PrefixIsTop` | training/eval.py:158-165 | every prefix of the sorted partition is a true top set, so one partition serves all K |
| `Evaluation.RecallIsHitRate` | training/eval.py:158-167 | recall@K times the number of positives is the number of positives in the first min(K, blocks) of the ranking, which are a true top set |
| `Evaluation.RecallTheorem` | training/eval.py:158-167 | recall@K lies in [0, 1], never falls with K, and is 1 once K covers all blocks |
| `Evaluation.EvaluateTokens` | training/eval.py:138-169 | for every strided token the in-range labels of its window; counts are sums of numbers of blocks, and each recall is the sum, over the tokens with positives, of the share of the positives held by a true top set of min(K, blocks) blocks |
| `Evaluation.TokensOfOk` | training/eval.py:139-142 | the positives of a token are exactly the in-range blocks labelled in its window, ascending |
| `Evaluation.SumTokens` | training/eval.py:139-169 | the loop over the tokens |
| `Evaluation.CountToken` | training/eval.py:144-169 | one token adds its counts and recalls, or nothing if it has no positives |
| `Evaluation.AddRecalls` | training/eval.py:163-167 | the loop over K adds, for each, the number of the first min(K, blocks) places of the ranking that hold a positive, over the number of positives |
| `Evaluation.TotalsTheorem` | training/eval.py:138-169 | over all tokens hits plus misses are all in-range labels of the windows, and summed recalls lie between 0 and the token count and never fall with K |
| `Hadamard.GuardIsPow2` | training/utils.py:109-109 | the bit test accepts exactly the powers of two |
| `Hadamard.TopBit` | training/utils.py:112-116 | how the top bit of an index enters the common-bit count, hence the block structure of the sign matrix |
| `Hadamard.OddDoubles` | training/utils.py:112-116 | the sign matrix of size 2m repeats that of size m three times and negates it once |
| `Hadamard.Butterfly` | training/utils.py:113-115 | sum and difference of two transformed halves is the transform of the whole |
| `Hadamard.StageStep` | training/utils.py:112-116 | one pass turns transformed blocks of s into transformed blocks of 2s |
| `Hadamard.Butterflies` | training/utils.py:108-116 | the loop fails exactly off the powers of two, ends with s = d, and gives at i the sum over j of (-1)^popcount(i AND j) x[j] |
| `Hadamard.HadamardTransform` | training/utils.py:101-117 | the whole function: fails exactly off the powers of two, and the square root of d times entry i is the sum over j of (-1)^popcount(i AND j) x[j] |
| `Hadamard.TransformLinear` | training/utils.py:101-117 | the transform is linear |
| `Hadamard.TransformTwice` | training/utils.py:101-117 | unnormalised, applied twice it multiplies by d |
| `Hadamard.TransformDot` | training/utils.py:101-117 | unnormalised, it multiplies inner products by d |
| `Hadamard.NormalisedInvolution` | training/utils.py:101-117 | normalised, it is its own inverse |
| `Hadamard.NormalisedDot` | training/utils.py:101-117 | normalised, it preserves inner products |
| `ScoreForms.ClampIdle` | training/inference.py:47-52 | the clamp to [-448, 448] never changes a value |
| `ScoreForms.Dequantises` | training/inference.py:47-52 | without rounding the scale undoes the quantisation |
| `ScoreForms.ScoreFormsAgree` | training/inference.py:224-242 | for key scales that are not negative both branches give the same score, for every block, number of heads and weights |
| `ScoreForms.ScoreFormsAgreeIff` | training/train.py:212-221 | they agree for all heads if and only if the key scale is not negative or the key is zero |
| `ScoreForms.NegativeScaleDiffers` | training/inference.py:224-242 | a head on which they differ otherwise |
| `SpanLayout.Bisect` | sglang/scripts/convert_otel_2_perfetto.py:59-59 | the insertion point: all spans before it start earlier, the next one does not |
| `SpanLayout.CheckSafeIff` | sglang/scripts/convert_otel_2_perfetto.py:58-70 | on a sorted line the two-neighbour test misses no overlap of any span of positive length if and only if no span hides an earlier, longer one |
| `SpanLayout.CheckIsScan` | sglang/scripts/convert_otel_2_perfetto.py:58-70 | on a line of disjoint spans of positive length it is a scan of the whole line |
| `SpanLayout.CheckIsSafe` | sglang/scripts/convert_otel_2_perfetto.py:58-70 | on a line of disjoint spans, some without length, a span that passes the test overlaps nothing |
| `SpanLayout.InsertSorted` | sglang/scripts/convert_otel_2_perfetto.py:72-73 | insertion keeps a line sorted |
| `SpanLayout.InsertOk` | sglang/scripts/convert_otel_2_perfetto.py:72-73 | inserting a span that overlaps nothing keeps a line sorted and disjoint |
| `SpanLayout.FindFit` | sglang/scripts/convert_otel_2_perfetto.py:111-116 | the loop over lines returns the first line whose test passes, or the next free number |
| `SpanLayout.ChooseFits` | sglang/scripts/convert_otel_2_perfetto.py:95-120 | the current line if it has room, else the lowest line with room; a new line exactly if every line overlaps the span |
| `SpanLayout.ZeroLengthStays` | sglang/scripts/convert_otel_2_perfetto.py:95-102 | a zero-length span goes onto the line of the request's previous span of the same process, whatever is there |
| `SpanLayout.GraphStaysOk` | sglang/scripts/convert_otel_2_perfetto.py:95-120 | line numbers of every process stay exactly 1..n, current lines among them |
| `SpanLayout.Layout.constructor` | sglang/scripts/convert_otel_2_perfetto.py:239-239 | no lines, no slots, nothing placed |
| `SpanLayout.Layout.FindLine` | sglang/scripts/convert_otel_2_perfetto.py:95-120 | the chosen line, the new current line, the opened line and its slot entry |
| `SpanLayout.Layout.LayoutSpan` | sglang/scripts/convert_otel_2_perfetto.py:243-254 | one span put on its chosen line, which becomes the current one; every line keeps exactly one slot record |
| `SpanLayout.Layout.LayoutRoom` | sglang/scripts/convert_otel_2_perfetto.py:241-254 | the loop over one request's spans |
| `SpanLayout.Layout.LayoutRooms` | sglang/scripts/convert_otel_2_perfetto.py:239-254 | the loop over requests; line numbers of every process end as 1..n, and every line has one slot record |
| `SpanLayout.EveryEventPlaced` | sglang/scripts/convert_otel_2_perfetto.py:242-254 | every span is placed once, in order |
| `SpanLayout.LayoutTheorem` | sglang/scripts/convert_otel_2_perfetto.py:241-254 | for spans of positive length in any order every line stays sorted and disjoint, and no two spans on one line overlap |
| `SpanLayout.RoomsTheorem` | sglang/scripts/convert_otel_2_perfetto.py:239-254 | the same across all requests |
| `SpanLayout.LayoutExact` | sglang/scripts/convert_otel_2_perfetto.py:95-120 | one request, zero-length spans included: no two spans on one line overlap if and only if no zero-length span, at its turn, lies strictly inside a span of the current line it is put on untested |
| `SpanLayout.RoomsExact` | sglang/scripts/convert_otel_2_perfetto.py:239-254 | the same across all requests |
| `SpanLayout.WholeLayoutExact` | sglang/scripts/convert_otel_2_perfetto.py:229-254 | from the empty layout, the whole layout is free of overlaps if and only if every untested zero-length span fits |
| `SpanLayout.CleanInput` | sglang/scripts/convert_otel_2_perfetto.py:229-254 | if no zero-length span of the input lies strictly inside a span of the same process, the whole layout is free of overlaps |
| `SpanLayout.ZeroLengthBreaksIt` | sglang/scripts/convert_otel_2_perfetto.py:96-102 | from the empty layout, (0,100), (50,50), (60,70) all go onto line 1, where the long span and the last one overlap |
| `Workload.ReadyQueue.constructor` | sglang/benchmark/hicache/bench_multiturn.py:252-255 | the queue as given |
| `Workload.ReadyQueue.Append` | sglang/benchmark/hicache/bench_multiturn.py:257-259 | appends at the end |
| `Workload.ReadyQueue.Pop` | sglang/benchmark/hicache/bench_multiturn.py:261-272 | nothing exactly if empty; otherwise the first request under fifo, the drawn one under random, removed |
| `Workload.QueueIsStep` | sglang/benchmark/hicache/bench_multiturn.py:261-272 | what the queue gives the sender is a step of the workload: `Pop` at the front under fifo, at the drawn place under random |
| `Workload.StepConserves` | sglang/benchmark/hicache/bench_multiturn.py:359-463 | no step changes how often a client occurs over all places |
| `Workload.SizesAddUp` | sglang/benchmark/hicache/bench_multiturn.py:359-463 | the sizes of all places add up to the number of clients |
| `Workload.ConservationTheorem` | sglang/benchmark/hicache/bench_multiturn.py:359-463 | in every run, failures included, each client is in exactly one place, sent minus completed never exceeds max_parallel, and the question pool never runs out |
| `Workload.PoolLasts` | sglang/benchmark/hicache/bench_multiturn.py:305-313 | the pool of follow-up questions is large enough |
| `Workload.FailuresEatTheCap` | sglang/benchmark/hicache/bench_multiturn.py:371-379 | failed requests count against the cap; with as many as the cap the sender is not about to send and cannot get ready to |
| `Workload.SendingStops` | sglang/benchmark/hicache/bench_multiturn.py:371-379 | from then on nothing is sent in any continuation of the run |
| `WorkloadRounds.BarrierTheorem` | sglang/benchmark/hicache/bench_multiturn.py:450-457 | with the barrier on, in every run, failures included, no request of round r + 1 is ready before every reply of round r is processed, and rounds differ by at most one |
| `WorkloadRounds.FailureStopsTheBarrier` | sglang/benchmark/hicache/bench_multiturn.py:450-455 | with the barrier on and one failed client, unless a release is under way, no later round is released in any continuation of the run |
| `WorkloadRounds.RunsStaySound` | sglang/benchmark/hicache/bench_multiturn.py:359-463 | every run keeps the rounds of clients in play, parked or failed below num_rounds and the bar between the processed replies and those plus failures |
| `WorkloadCompletion.AllProcessed` | sglang/benchmark/hicache/bench_multiturn.py:402-457 | without a failure, with or without the barrier, when nobody has a request in play exactly num_clients * num_rounds replies have been processed and the pool of follow-up questions is used up, but for one per client with a single round |
| `WorkloadCompletion.BarRoom` | sglang/benchmark/hicache/bench_multiturn.py:146-215 | the progress bar never passes its total, and once it is full no request is waiting or in flight |
| `WorkloadCompletion.CanFinish` | sglang/benchmark/hicache/bench_multiturn.py:359-460 | from every state without a failure and with the handler neither gone nor bound to leave, a run leads to full completion |
| `WorkloadCompletion.Frozen` | sglang/benchmark/hicache/bench_multiturn.py:371-460 | without room to send, or once the handler has left or has timed out with the bar full, nothing more is processed in any run |
| `WorkloadCompletion.CompletionTheorem` | sglang/benchmark/hicache/bench_multiturn.py:359-463 | at every point of every run full completion is within reach if and only if something may be sent, no request has failed and the handler is neither gone nor bound to leave, or it has happened |
| `WorkloadCompletion.HandlerLeavesExactly` | sglang/benchmark/hicache/bench_multiturn.py:402-460 | in every run the handler leaves having processed everything if and only if no request has failed, the queue is empty and no request is between its progress-bar update and its reply |
| `WorkloadCompletion.LastReplyCanBeLost` | sglang/benchmark/hicache/bench_multiturn.py:359-368 | one client and one round, no failure: the handler can leave before the last reply is queued, or with it in the queue, and it is never processed |
| `WorkloadCompletion.FailingRun` | sglang/benchmark/hicache/bench_multiturn.py:366-367 | in every configuration one failed first request already puts completion out of reach |
| `Redirects.Walk` | sglang/benchmark/line_retrieval/gen_data.py:63-74 | the walk ends; it reports a ring exactly if the chain never reaches a line without redirection, and otherwise the exact chain |
| `Redirects.RingFound` | sglang/benchmark/line_retrieval/gen_data.py:71-74 | meeting a line again means the chain is endless and closes there |
| `Redirects.EndKeepsValue` | sglang/benchmark/line_retrieval/gen_data.py:75-75 | a line that ends some chain ends its own, so overwriting never changes its value |
| `Redirects.Resolve` | sglang/benchmark/line_retrieval/gen_data.py:57-76 | rings, links and values of all lines; every value is the original value of the chain's end despite overwriting in place |
| `Redirects.GroupByHops` | sglang/benchmark/line_retrieval/gen_data.py:78-83 | the hop groups partition the lines that are not rings, each ascending |
| `Boxed.FirstSep` | sglang/benchmark/reasoning_benchmark/answer_extraction.py:184-184 | the first place where the separator starts |
| `Boxed.SplitJoins` | sglang/benchmark/reasoning_benchmark/answer_extraction.py:184-184 | for every text, the pieces joined by the separator are the text |
| `Boxed.SplitFree` | sglang/benchmark/reasoning_benchmark/answer_extraction.py:184-184 | no piece holds the separator |
| `Boxed.ScanPiece` | sglang/benchmark/reasoning_benchmark/answer_extraction.py:185-196 | the text up to the brace that closes the box, with that brace exactly if a percent sign follows; nothing if the box never closes |
| `Boxed.ExtractBoxedAnswers` | sglang/benchmark/reasoning_benchmark/answer_extraction.py:182-197 | what the pieces contribute, in order |
| `Boxed.AnswersUnique` | sglang/benchmark/reasoning_benchmark/answer_extraction.py:182-197 | the contract determines the result |
| `Boxed.AnswersBalanced` | sglang/benchmark/reasoning_benchmark/answer_extraction.py:185-196 | for any input every answer is cut from a piece at the brace that closes its box, and is balanced exactly if no percent sign follows there; otherwise it is the balanced text with that brace |
| `Boxed.SplitRender` | sglang/benchmark/reasoning_benchmark/answer_extraction.py:184-184 | splitting undoes joining boxes with separator-free text |
| `Boxed.RoundTrip` | sglang/benchmark/reasoning_benchmark/answer_extraction.py:182-197 | from any text with boxes around balanced, separator-free contents exactly the contents come back in order, each with a closing brace appended if and only if a percent sign follows its box |
| `Boxed.RoundTripIff` | sglang/benchmark/reasoning_benchmark/answer_extraction.py:182-197 | for any boxes around balanced contents in separator-free text, the contents with the braces that percent signs append come back if and only if no content holds a further box |
| `Boxed.ContentsIff` | sglang/benchmark/reasoning_benchmark/answer_extraction.py:182-197 | the contents themselves come back if and only if none holds a further box and no box is followed by a percent sign |
| `Boxed.NestedBoxIsLost` | sglang/benchmark/reasoning_benchmark/answer_extraction.py:182-197 | every box around a box fails to come back |

## Left out

* Floating point: scores, metrics, losses and tensors are over `real`; rounding, bf16 and the FP8 bit layout are not modelled, and NaN metrics do not occur.
* The elementwise functions of the scores (sigmoid, and log-sigmoid in the pairwise loss) are arbitrary function parameters; autograd, optimisers and learning-rate schedules are absent.
* Random generators and library kernels are parameters or predicates with their documented contract: `shuffle` is any permutation fixed by seed and length, `choice` any subset of the size asked for, `argpartition` with `argsort` any ranking by score.
* Ranks: a collective blocks every rank until all have issued it, the broadcast's source included; one all-reduce per step stands for the gradient synchronisation of a backward pass; the collectives of setting up and tearing down the process group, the run without DDP and the plain distributed sampler are not modelled.
* EarlyStopping: a report covers all trained layers, as the validation function returns them; the single-layer trainer's own early stopping is not modelled.
* SpanLayout: lines are values inside the graph, so the identity of the container objects is not captured; the sorting of requests and spans before layout is not modelled, since the theorems hold for every order; spans that end before they start are not covered; a request without spans, on which that sorting fails, is not modelled.
* Workload: the shared objects are one state value changed by atomic steps, not Dafny objects; request contents, histories, metrics, waiting times (a wait for a reply may run out whenever the queue is empty) and an unknown queue policy are not modelled; with `num_rounds` 0 the progress bar has total 0 and is not counted on, the barrier's metric tables do not exist, and the theorems on rounds start at 1.
* Collate: hidden states and positions, which are stacked without padding, are not part of the batch; the keys are opaque blocks; the single-layer collation is the case of one layer, without the check that layers agree.
* PairwiseLoss: the single-layer trainer skips a batch without pairs instead of clamping; binary cross-entropy, focal loss and label smoothing are not modelled.
* Labels: the loss weights of the samples (trivial-block weights and label scores) are not modelled.
* Evaluation: the model call that produces scores, and precision, recall, F1 and their sums over documents, are not modelled.
* Redirects: the drawing of redirections and the text of the lines are not modelled; the table is any table with targets in range.
* Boxed: the other answer normalisers of the file are not modelled.
* RoPE and its YaRN ramp, hard-negative mining, data generation, checkpoint and pickle files, argument parsing, and the other benchmark clients would add little or depend on code outside this repository.
