# CL-NLG core in Dafny

This project models the data handling and training control of CL-NLG, a
curriculum-learning setup for natural-language generation from dialogue
acts. An example is a line `intent&utterance`: a dialogue act such as
`inform(name='x';area=dont_care)` and the sentence that realises it. The
modelled parts are these:

- **Dataset** (`data.dfy`). The text file is parsed into two aligned lists.
  The list is indexed Python-style, and the two collate functions build
  tokenizer input from a batch.
- **Bucket curriculum** (`curriculum.dfy`). Every example is scored (by
  default with the word-count score). The examples are stably sorted by
  score. The sorted data is cut into `len // bucket_size + 1` buckets. Under
  `one_pass` these are consecutive slices; under `baby_step` they are
  growing prefixes.
- **Dialogue-act parser and formatter** (`featparser.dfy`). An act is split
  into its act type and slot/value pairs. Special values are unified to their
  key, and other values are delexicalised to `_`. The formatter outputs the
  act type followed by the features in sorted order. Repeated delexicalised
  slots are numbered `_1`, `_2`, ...
- **Training control** (`train.dfy`):
  - the epoch loop of `train_with_dataloader`: weighted epoch loss, best
    loss, the history lists, checkpoint saves, patience and early stop after
    a grace period of 51 epochs, and the self-paced-learning weight buffers;
  - single-bucket training;
  - bucket-curriculum training, one fresh run per yielded curriculum;
  - the dispatch on the curriculum name.
- **Utilities** (`utils.dfy`). `check_config` derives `enc_dec` and
  `model_loc`. `rotate_checkpoints` chooses which checkpoint directories to
  delete, oldest step first.

`pystr.dfy` models the Python string operations the code relies on. These are
`split`, `find`/`in`, `lower`, `replace`, `strip`, whitespace `split()`,
`str(int)`/`int(str)` and negative indexing. `sorting.dfy` is `sorted`: a
stable insertion sort by a total preorder with Python's tuple and string
order. `wrappers.dfy` holds `Option` and `Result`. An exception the source
raises is a `Failure` with its own error value. Nothing is excluded by a
precondition the source does not have.

The model follows the code as it is written, in particular:

- When the bucket size divides the dataset size, the schedule has one more
  bucket than the full ones. Under `one_pass` that last bucket is empty.
  `RandomSampler` raises ValueError on an empty dataset, so the generator
  raises there, after the full buckets have been yielded and trained
  (`Curriculum.OnePassYields`, `Train.DivisibleOnePassFails`). Under
  `baby_step` the last two buckets are both the whole dataset.
- `check_config` creates `<output_dir>/log` before it tests whether the
  output directory exists and is not empty. That test therefore always
  holds, and train mode fails exactly when `--overwrite_output_dir` is not
  given.
- A bucket size of 0 raises ZeroDivisionError. A negative bucket size yields
  no bucket at all.
- Special-value unification is the code's loop. Each table entry tests the
  value as already rebound by the entries before it.
- In `parse`, `split('(')[1]` is only the text between the first and the
  second `(`.
- The SPL buffer `prev_v_s` is refilled with 1 at the start of every epoch,
  so the regulariser's weights are recorded but never scale a loss.
- Two calls do not match their callees:
  - `get_curriculum` builds each bucket as
    `dataset_class(intents, utterances, separator)`, but the dataset
    constructor takes no arguments (common/data.py:11).
  - `train_bucket_curriculum` passes `num_bucket=` where the parameter is
    `bucket_size`.

  As written, each call raises TypeError. The model takes the evident
  intent: a bucket is the sliced columns with the separator, and the count
  is the bucket size.

## Model

| member | source | states |
|---|---|---|
| Curriculum.LengthScoreCountsWords | common/curriculum.py:58-59 | the length score of two texts written as words joined by single spaces is the total number of words |
| Curriculum.Scored | common/curriculum.py:18 | as many scored examples as the shorter of the two lists holds, because zip truncates |
| Curriculum.SortByDifficultyCorrect | common/curriculum.py:20-21 | after the sort difficulties are non-decreasing, the triples are a permutation of the scored input, each keeps its own score, and equal scores keep their input order |
| Curriculum.Columns | common/curriculum.py:22 | unzipping the sorted triples fails exactly on an empty list, and otherwise gives three columns of full length that rebuild every triple |
| Curriculum.FloorDivIsFloor | common/curriculum.py:36 | `//` rounds toward negative infinity, for either sign of the divisor |
| Curriculum.NumBucketsPositive | common/curriculum.py:36 | with a positive bucket size there is at least one bucket, and n lies at or above (count-1)*bucket_size and below count*bucket_size |
| Curriculum.NumBucketsNegative | common/curriculum.py:36-41 | a negative bucket size on a non-empty dataset gives no bucket to iterate over |
| Curriculum.BucketRangeInside | common/curriculum.py:41-45 | every bucket's bounds satisfy start <= end <= n |
| Curriculum.OnePassContiguous | common/curriculum.py:42-43 | one_pass bucket b+1 starts where bucket b ends |
| Curriculum.OnePassSizes | common/curriculum.py:42-43 | every one_pass bucket but the last holds bucket_size examples, the last holds `n % bucket_size` |
| Curriculum.BabyStepNested | common/curriculum.py:44-45 | baby_step buckets start at 0, grow, begin with the first one_pass bucket and end with the whole dataset |
| Curriculum.DivisibleExtraBucket | common/curriculum.py:36-45 | when the bucket size divides n there are n/bucket_size+1 buckets, the last one_pass bucket is empty and the last two baby_step buckets are the whole dataset |
| Curriculum.OnePassPrefix | common/curriculum.py:41-43 | the first k one_pass slices put end to end are the prefix of the sorted data up to k*bucket_size |
| Curriculum.OnePassCovers | common/curriculum.py:41-43 | all one_pass slices put end to end are exactly the sorted data |
| Curriculum.TenExamplesBySizeThree | common/curriculum.py:36-43 | ten examples with bucket size 3 give the buckets [0,3), [3,6), [6,9), [9,10) |
| Curriculum.BucketCurriculum.Init | common/curriculum.py:8-18 | the curriculum keeps the dataset and its columns and one score per example, equal to the scored pairs |
| Curriculum.BucketCurriculum.SortColumns | common/curriculum.py:20-22 | the columns become those of the stably sorted triples; an empty dataset fails and changes nothing |
| Curriculum.BucketCurriculum.Create | common/curriculum.py:7-22 | the constructor succeeds exactly on a non-empty dataset, and its examples are the sorted scored pairs |
| Curriculum.BucketCurriculum.GetCurriculum | common/curriculum.py:24-52 | bucket size 0, an unknown name and a batch size below 1 raise before anything is yielded, a negative size yields nothing, and otherwise the schedule is yielded in order up to its first empty bucket, where the sampler raises |
| Curriculum.FirstEmpty | common/curriculum.py:41-52 | the generator's stopping index: every bucket before it is non-empty, and the bucket there, if any, is empty |
| Curriculum.Yields | common/curriculum.py:41-52 | what is yielded is a prefix of the schedule; an error is raised exactly when some bucket is empty, and it is the sampler's error at the first empty bucket |
| Curriculum.YieldsUpToEmpty | common/curriculum.py:41-52 | after a run of non-empty buckets, an empty one stops the generator with the sampler's error |
| Curriculum.OnePassYields | common/curriculum.py:41-52 | under one_pass everything is yielded without error, except that when the bucket size divides the dataset size the last, empty bucket raises after the others are yielded |
| Curriculum.BabyStepYields | common/curriculum.py:41-52 | under baby_step a non-empty dataset has no empty bucket, so the whole schedule is yielded without error |
| Curriculum.Schedule | common/curriculum.py:41-52 | the schedule yields `len // bucket_size + 1` buckets |
| Curriculum.OnePassScheduleCovers | common/curriculum.py:41-48 | under one_pass the buckets' intents and utterances, concatenated, are the sorted columns, and every bucket keeps the separator |
| Curriculum.BabyStepScheduleGrows | common/curriculum.py:44-48 | under baby_step each bucket is a prefix of the next and the last is the whole sorted dataset |
| Data.ParseLine | common/data.py:30-33 | a line parses exactly when the separator is non-empty and occurs in the lower-cased line; an empty separator is its own error |
| Data.ParseLineShape | common/data.py:31-33 | neither half holds the separator; the lower-cased line starts with intent, separator, utterance; and what follows is empty or starts with the separator |
| Data.ParseLineRoundTrip | common/data.py:24-35 | a line written as intent, separator, utterance (lower case, no separator inside) reads back as that pair |
| Data.FewShotWozDataset.constructor | common/data.py:11-14 | a new dataset has an empty separator and no examples |
| Data.FewShotWozDataset.FromTxtLines | common/data.py:23-43 | loading succeeds exactly when every line parses, and then has one aligned pair per line in file order; otherwise it names the first bad line and its error |
| Data.FewShotWozDataset.Len | common/data.py:45-46 | the length is the number of intents and of utterances |
| Data.FewShotWozDataset.GetItem | common/data.py:48-49 | an index in [-len, len) gives the aligned pair, negative indices counting from the end; any other index fails |
| Data.LmRawStrings | common/data.py:80 | one joined string per pair of the batch |
| Data.LmRawSplitsBack | common/data.py:73-80 | a joined string splits on the separator back into the two halves, each with its added space |
| Data.LmCollate | common/data.py:73-82 | the inputs and labels are the same token ids, those of the joined strings with length 80 |
| Data.Unzip | common/data.py:65 | unzipping fails exactly on an empty batch and otherwise gives two lists as long as the batch |
| Data.UnzipRoundTrip | common/data.py:65 | zipping the unzipped halves gives back the batch |
| Data.ZipRoundTrip | common/data.py:65 | unzipping two zipped aligned lists gives them back |
| Data.EncDecCollate | common/data.py:55-70 | the collate fails exactly on an empty batch; otherwise inputs are the batch's intents tokenized to 40 and labels its utterances tokenized to 60 |
| FeatParser.UnifyRange | utils/FeatParser.py:42-45 | unification either keeps the value or replaces it by a key of the table |
| FeatParser.UnifyUnlisted | utils/FeatParser.py:42-45 | a value listed under no key is kept |
| FeatParser.UnifyListed | utils/FeatParser.py:42-45 | a value listed under some key always ends up as a key |
| FeatParser.ActType | utils/FeatParser.py:29 | the act type contains no `(` |
| FeatParser.Pieces | utils/FeatParser.py:30 | the pieces exist exactly when the act has a `(` and the separator is non-empty, and no piece contains the separator |
| FeatParser.SlotName | utils/FeatParser.py:36-40 | a normalised slot name contains no `_` and no space |
| FeatParser.ParsePieceCases | utils/FeatParser.py:32-39 | a piece fails exactly when it holds two or more `=`, and is "no slot" exactly when empty |
| FeatParser.ParsePieceShape | utils/FeatParser.py:32-48 | a parsed slot has no `_` or space, and its value is `?`, `_`, a special key, or a kept value only when values are kept |
| FeatParser.RequestedSlot | utils/FeatParser.py:35-37 | a non-empty piece without `=` is the normalised slot with value `?` |
| FeatParser.FirstBad | utils/FeatParser.py:32-48 | the search finds the first piece that is not a pair, and finds none only when every piece parses |
| FeatParser.ParseSpec | utils/FeatParser.py:25-49 | a successful parse has one entry per piece |
| FeatParser.ParseSpecSuccess | utils/FeatParser.py:25-49 | entries that are the parses of all pieces make the act's result |
| FeatParser.ParseSpecFailure | utils/FeatParser.py:25-49 | the first unparsable piece makes the act's error |
| FeatParser.ParseWrittenForm | utils/FeatParser.py:29-30 | an act written `act(body)` has act type `act`, and its pieces are the body split on the separator |
| FeatParser.DialogActParser.UnifyValue | utils/FeatParser.py:42-45 | the loop computes the unification of the value |
| FeatParser.DialogActParser.ParseOne | utils/FeatParser.py:33-48 | one loop iteration computes the parse of a piece |
| FeatParser.DialogActParser.Parse | utils/FeatParser.py:25-49 | `parse` returns the act type and one entry per piece, or its first exception |
| FeatParser.DialogActParser.ParsePieces | utils/FeatParser.py:32-48 | the loop over the pieces gives the entries in order, or the index of the first piece that is not a pair |
| FeatParser.PiecesFromFailure | utils/FeatParser.py:32-48 | a failure names a rejected piece with every piece before it accepted |
| FeatParser.PiecesFromSuccess | utils/FeatParser.py:32-48 | a success has one entry per piece, each that piece's parse |
| FeatParser.SplitParts | utils/FeatParser.py:29-30 | a missing `(` and an empty separator are the two errors raised before the loop, and otherwise the pieces and act type come from the split on `(` |
| FeatParser.FeaturesBound | utils/FeatParser.py:86-99 | each entry contributes at most one feature |
| FeatParser.DelexNumbering | utils/FeatParser.py:91-97 | the delexicalised values of a slot are labelled `_1`, `_2`, ... in order, one per such entry |
| FeatParser.DelexLabelsDistinct | utils/FeatParser.py:91-97 | no two features of one slot share a numbered label |
| FeatParser.FormatOutputShape | utils/FeatParser.py:100-101 | the output starts with `('a', acttype)` and continues with the only sorted permutation of the features |
| FeatParser.SoftDActFormatter.Format | utils/FeatParser.py:81-101 | `format` passes on a parse error, and otherwise returns the act type and the sorted feature list |
| FeatParser.CollectFeatures | utils/FeatParser.py:84-99 | the loop with its `mem` counter builds the feature list |
| FeatParser.AddFeature | utils/FeatParser.py:86-99 | one entry adds its feature, and `mem` stays one more than the number of delexicalised entries per slot |
| FeatParser.RequestOneSlot | utils/FeatParser.py:115 | an act requesting one slot, such as `request(area)`, parses to its act type and that slot with value `?` |
| FeatParser.ReqmoreExample | utils/FeatParser.py:114 | `reqmore()` parses to act `reqmore` with a single "no slot" entry |
| PyStr.FindFrom | utils/FeatParser.py:35 | the first occurrence at or after a position, or none at all |
| PyStr.ContainsIff | utils/FeatParser.py:35 | `p in s` holds exactly when `p` occurs somewhere in `s` |
| PyStr.Split | common/data.py:31 | at least one piece, the pieces joined by the separator give the string back, and no piece holds the separator |
| PyStr.SplitAtFirst | components/train.py:224 | the first piece is the text before the first separator, then come the pieces of the rest |
| PyStr.SplitSingle | utils/FeatParser.py:29-30 | a split has a single piece exactly when the separator is absent |
| PyStr.SplitJoin | common/data.py:31 | splitting undoes joining pieces that do not hold a one-character separator |
| PyStr.Lower | common/data.py:31 | lowering keeps the length and leaves no upper-case letter |
| PyStr.LowerFixesLowered | common/data.py:31 | text without upper-case letters is unchanged by lowering |
| PyStr.RemoveChar | utils/FeatParser.py:30 | after `replace(c, '')` the character is gone and nothing grew |
| PyStr.LStrip | utils/FeatParser.py:37-39 | left strip drops exactly the leading run of dropped characters |
| PyStr.RStrip | utils/FeatParser.py:37-39 | right strip drops exactly the trailing run of dropped characters |
| PyStr.StripShape | utils/FeatParser.py:37-39 | strip leaves the longest infix whose end characters are not dropped, and everything outside it was dropped |
| PyStr.Words | common/curriculum.py:59 | `split()` yields only non-empty runs without whitespace |
| PyStr.WordsOfJoin | common/curriculum.py:59 | `split()` undoes joining words with single spaces |
| PyStr.Decimal | utils/FeatParser.py:93 | `str(n)` is a non-empty run of digits |
| PyStr.DecimalRoundTrip | common/utils.py:196 | `int(str(n)) == n` |
| PyStr.DecimalInjective | utils/FeatParser.py:93-97 | different counts render as different labels |
| PyStr.PyIndex | common/data.py:48-49 | an index is valid exactly in [-n, n) and reads position idx or n+idx |
| Sorting.Sort | common/curriculum.py:21 | `sorted` returns a permutation of its input |
| Sorting.SortSorted | common/curriculum.py:21 | `sorted` returns its input in order |
| Sorting.SortStable | common/curriculum.py:21 | sorting by an integer key keeps elements of equal key in input order |
| Sorting.KeyOrderTotal | common/curriculum.py:21 | comparing by an integer key is a total preorder |
| Sorting.PairLeTotalPreorder | utils/FeatParser.py:100 | tuple order on string pairs is a total preorder |
| Sorting.IntStrLeTotalPreorder | common/utils.py:198 | tuple order on (step, path) pairs is a total preorder |
| Sorting.SortedPermutationUnique | utils/FeatParser.py:100 | two sorted permutations of the same string pairs are equal |
| Sorting.StrLeAntisym | utils/FeatParser.py:100 | string order is antisymmetric |
| Sorting.StrLeTotal | utils/FeatParser.py:100 | any two strings are ordered one way or the other |
| Sorting.StrLeTrans | utils/FeatParser.py:100 | string order is transitive |
| Train.SelectModeCases | components/train.py:222-235 | `NC` and any name containing `spl` train one bucket (with SPL exactly for `spl`), exactly `one_pass` and `baby_step` train the bucket curriculum, and every other name fails |
| Train.SplRegularizerName | components/train.py:223-225 | the regulariser name is the text after the last `.` |
| Train.MinOfIsMinimum | components/train.py:100-103 | the best epoch loss is infinite only with no epochs, and otherwise one of the epoch losses and at most all of them |
| Train.SeqMinIsMinimum | components/train.py:110 | `min` of a non-empty list is one of its elements and at most all of them |
| Train.IsBetterIff | components/train.py:110 | an epoch is better exactly when its dev loss is below every earlier one |
| Train.PatienceBound | components/train.py:114-118 | patience is 0 through epoch index 50 and grows by at most one per epoch after that |
| Train.FirstStop | components/train.py:120-123 | the stopping epoch lies between the current epoch and the epoch limit |
| Train.FirstStopSpec | components/train.py:40-123 | the loop ends right after the first epoch whose patience reaches the limit, or after the last epoch |
| Train.NoStopInGrace | components/train.py:114-123 | no early stop happens through epoch index 50 |
| Train.EpochsRunSpec | components/train.py:40-123 | at most num_train_epochs epochs run; all of them without dev data or with patience 0 or less; at least min(n, 52); a shorter run ended on an early stop |
| Train.EpochLosses | components/train.py:100-101 | one epoch loss per completed epoch |
| Train.RunEpoch | components/train.py:48-73 | one epoch accumulates the size-weighted loss and the example count and appends the batch losses and sizes; with SPL one weight is recorded per batch |
| Train.SnapshotStep | components/train.py:40-125 | one epoch extends every history list by that epoch's entries and updates the best loss, dev losses, checkpoints and buffers |
| Train.PatienceStep | components/train.py:110-118 | patience resets in the grace period or on an improvement, and otherwise grows by one |
| Train.ContinueAfter | components/train.py:120-123 | after an epoch the run ends exactly when it stopped there, and otherwise continues from the next epoch |
| Train.TrackDev | components/train.py:107-123 | the dev step appends the dev loss, saves in the grace period or on an improvement, updates patience and reports the stop |
| Train.TrainWithDataloader | components/train.py:16-127 | the loop returns the run's complete history, or fails with the division by zero of an empty loader |
| Train.EpochLoop | components/train.py:40-125 | the epoch loop runs exactly the epochs before the early stop, leaving that many epochs' history, or fails in the first epoch on a loader with no examples |
| Train.TrainEpoch | components/train.py:40-125 | one epoch fails exactly on an empty loader, and otherwise gives the next history, patience and stop decision |
| Train.RunLengths | components/train.py:70-111 | a run has one epoch entry per epoch, one batch entry per batch of every epoch, and one dev entry per epoch with dev data |
| Train.RepeatBlock | components/train.py:73 | each epoch's block of `batch_ex_seen` is the loader's batch sizes |
| Train.RunExamplesSeen | components/train.py:70-102 | every `epoch_ex_seen` entry is the loader's number of examples |
| Train.RunBest | components/train.py:103 | the best loss is infinite exactly when no epoch ran, and otherwise the smallest epoch loss |
| Train.RunSplBuffers | components/train.py:44-98 | the buffers are unset exactly when training has no SPL or no epoch ran; otherwise they hold the last epoch's regulariser weights, one per batch |
| Train.EmptyLoaderFails | components/train.py:100 | a loader with no batches fails in its first epoch |
| Train.WeightedSumAtMost | components/train.py:70 | the running loss is at most the bound times the examples seen |
| Train.WeightedSumAtLeast | components/train.py:70 | the running loss is at least the bound times the examples seen |
| Train.EpochLossIsWeightedMean | components/train.py:70-100 | the epoch loss lies between the smallest and the largest batch loss |
| Train.SavedEpochsSpec | components/train.py:114-125 | without dev data every epoch saves a checkpoint, and so does every epoch of the grace period |
| Train.TrainWithOneBucket | components/train.py:130-162 | single-bucket training writes the run's five flat lists, or fails as the run does |
| Train.BatchSizesSpec | common/curriculum.py:49-51 | the loader's batches cover every example once, none is empty or larger than the batch size, and only the last may be short |
| Train.NestShape | components/train.py:192-204 | entry c of each nested list is curriculum c's flat list |
| Train.BestOfIsMinimum | components/train.py:180-189 | the overall best loss is at most every curriculum's best loss and is one of them |
| Train.TrainBucketCurriculum | components/train.py:165-207 | bucket training succeeds exactly when every yielded curriculum's run does and the generator raises nothing, and then returns the smallest best loss and the nested histories; otherwise it fails with the first failing run's error, or with the generator's error once every run has succeeded |
| Train.TrainCurriculum | components/train.py:186-188 | each curriculum gets a fresh run with no SPL |
| Train.FailedCurriculum | components/train.py:181-188 | one failing curriculum run makes the whole bucket training fail |
| Train.AllCurricula | components/train.py:181-188 | when every curriculum run succeeds, the runs are exactly those of the training |
| Train.DivisibleOnePassFails | components/train.py:181-188 | when the bucket size divides the dataset size, one_pass yields the n / bucket_size full buckets and then raises the sampler's error, so bucket training cannot succeed |
| Utils.Args.constructor | common/utils.py:148-150 | the parsed arguments are stored as given; enc_dec starts false and model_loc empty |
| Utils.Args.CheckConfig | common/utils.py:148-176 | `enc_dec` holds exactly for t5; `model_loc` is the model name in train mode, the model path in decode mode, and empty otherwise; the `log` directory is added to the output directory; train mode fails exactly without overwrite |
| Utils.LineEnd | common/utils.py:194 | no newline occurs before the end of the first line |
| Utils.LastStepAt | common/utils.py:194 | the greedy `.*` settles on the last position where `<prefix>-<digit>` matches |
| Utils.DigitRun | common/utils.py:194 | the greedy `[0-9]+` takes the maximal run of digits |
| Utils.CheckpointStepShape | common/utils.py:194-196 | a matched path has a `<prefix>-<digit>` match on its first line |
| Utils.CheckpointStepOfName | common/utils.py:194-196 | a checkpoint named `<dir><prefix>-<step>` reads back its step |
| Utils.CheckpointStepOfDigits | common/utils.py:194-196 | a name ending in `<prefix>-<digits>` reads back the number the digits spell |
| Utils.RotateCheckpoints | common/utils.py:179-204 | the directories removed, in order, are the selection of the oldest matched checkpoints |
| Utils.CollectCandidates | common/utils.py:189-196 | the loop keeps each matched path with its step, in glob order |
| Utils.CandidatesMatch | common/utils.py:189-196 | every candidate is a globbed path that matches, with its step |
| Utils.CandidatesComplete | common/utils.py:189-196 | every globbed path that matches is a candidate, with its step |
| Utils.DeletesOnlyCheckpoints | common/utils.py:189-204 | only globbed paths that match the checkpoint pattern are deleted |
| Utils.RotationFromCandidates | common/utils.py:198-201 | every deleted path belongs to a candidate |
| Utils.RotationKeepsLimit | common/utils.py:198-201 | once the limit is exceeded, exactly min(candidates, limit) checkpoints survive |
| Utils.RotationWithinLimit | common/utils.py:181-187 | nothing is deleted without a positive limit or while the globbed paths stay within it |
| Utils.DeletesOldest | common/utils.py:198-201 | the deleted checkpoints are a prefix of those sorted by (step, path), and no deleted step exceeds a surviving one |
| Utils.RotationPrefix | common/utils.py:198-201 | the deleted checkpoints are the first ones by (step, path), and no deleted step exceeds a surviving one |
| Utils.DeletesOldestMatched | common/utils.py:184-204 | every globbed path that matches and is not deleted has a step at least that of every deleted path |
| Utils.DeletedBeforeSurvivor | common/utils.py:184-204 | a deleted path matches, with a step at most that of any matched path that survives |
| Utils.RotatedBefore | common/utils.py:198-201 | a deleted path comes from a candidate whose step is at most that of any kept candidate |

## Left out

- File I/O is not modelled. Lines and glob results are inputs. The pickle
  cache, `from_bin_file`, `history.json` and the `rmtree`/`save_checkpoint`
  side effects are not modelled; deletions and saves are returned as lists.
- The tokenizer, model, optimiser, `loss.backward()` and the evaluator are
  outside the model. The tokenizer is a function parameter. Batch losses and
  dev losses are given by functions of the epoch and step.
- The internals of `SplRegularizer` (`v`, `update_hyper`) are given as a
  function of the epoch and batch. `intent_slot_score_fn`, `get_dataset`,
  `get_data_loader`, `get_collate_fn` and `evaluate_bleu` are not part of
  this model.
- Logging, `set_seed`, `tqdm`, the device choice and `print` are left out.
  Only the directory `check_config` creates for the log file is modelled,
  because it decides the output-directory test.
- The shuffling of `RandomSampler` is left out. A loader is its list of batch
  sizes, which is independent of the sampling order.
- Floats are modelled as exact reals, and `float('inf')` as a separate value.
  Rounding is not modelled.
- `rotate_checkpoints` with `use_mtime=True` is left out, because
  modification times come from the file system.
- The special-values JSON file is a parameter: an ordered list of keys, each
  with its listed values.
- The generator `get_curriculum` is run to the end: the model returns the
  items it yielded and the exception it then raised. The interleaving with
  training is kept only in order: every yielded item is trained before the
  exception surfaces.
- PyStr.Lower: lowers only A-Z. The other Unicode case mappings of Python's
  `str.lower` are not modelled.
- Utils.CheckpointStep: the checkpoint prefix is matched literally. A prefix
  holding regular-expression metacharacters would be a pattern in the source.
- Curriculum.Example: difficulty scores are integers. The scoring function
  may return floats, but the modelled score counts words.
- Data.FewShotWozDataset.FromTxtLines: fills local lists and stores them
  once at the end. When a line fails, the partly filled object the source
  abandons is not modelled.
