# Patch bagging and patient-level bookkeeping of hrdl, in Dafny

The hrdl repository trains image classifiers on patches cut from large
images: each image (or patient) is a folder of patch files. This project
models the parts of it that keep track of those patches, and proves
properties of the model:

- **`PatchDataset`** indexes a `root/class/image/patch` tree. The index has
  one entry per image folder, holding the folder's patch paths and its class label.
  It cuts every image's patch list into bags of `group_size` paths joined by
  commas, dropping the incomplete tail. It also hands out the label table and
  an all-`None` patch-score table.
- **`PatientLevelValidation`** is a training callback.
  - After every batch it expands the bags back into single patches and writes
    each patch's output into a score table.
  - At the end of a validation epoch it turns each image's scores into a
    majority vote of per-patch argmax classes, then computes an accuracy over
    the images. Then it resets the tables.
- **`DownstreamTrainingDataset`** is the older dataset.
  - It buckets file paths by split, class and patient.
  - It shuffles each patient's paths and cuts them into bags, then optionally
    subsamples the resulting index.
  - It can prune patients that have too few patches.
- **The ROC script** (`make_ROC_1outneuron.py`):
  - runs each model over the validation batches;
  - flattens and accumulates the predictions;
  - fills a fresh score table with them;
  - collects the non-`None` scores and the label of every image;
  - records the results per model name.

Python dicts are modelled as `Dicts.Dict`, a map together with its key
insertion order. A nested score table that the code mutates in place is a
`ScoreTables.ScoreTable` object whose `table` field the writers assign. The
callback and both datasets are classes. Loops that build results become
methods with loop invariants. Each method is proved equal to a recursive
specification function, and the properties are then proved about that
function.

Inputs that come from outside are parameters:

- directory listings are `listdir` (a `string -> seq<string>` function);
- the glob result is the list `allFilenames`;
- the regular expression is `findall`;
- a model's forward passes over the validation loader are `run`, which yields
  the scored batches.

`random.sample` and `random.shuffle` are arbitrary choices made with `:|`. The
choice made is kept in ghost state (`orders`, `picked`). Floating-point scores
are left generic (`V`), or are integer logit vectors in the callback.

Module map: `Wrappers` (Option, Result), `Dicts`, `Text` (`",".join`,
`str.split(",")`, `os.path.join`, `str.replace`), `Grouping` (`zip_longest`
chunking, `repeat_interleave`, flattening), `ScoreTables`, `Batches` (bag
expansion), `PatchDatasets`, `PatientLevel`, `Downstream` and `MakeRoc`.

## Model

| member | source | states |
|---|---|---|
| Dicts.Dict.Put | src/data_stuff/NEW_patch_dataset.py:70 | `d[k] = v` maps k to v; a new key is appended to the key order and an existing key keeps its place; well-formedness is kept |
| Dicts.Dict.Remove | src/data_stuff/downstream_dataset.py:121 | `d.pop(k)` removes exactly k; the other keys keep their order |
| Dicts.PutAllValues | src/data_stuff/NEW_patch_dataset.py:63-70 | after a run of assignments, the keys are the old keys plus the assigned ones; an assigned key holds the value of its last assignment; every other key keeps its old value |
| Dicts.PutAllFreshKeys | src/data_stuff/NEW_patch_dataset.py:133-137 | assigning distinct new keys appends them to the key order, in the order of assignment |
| Text.SplitJoin | src/data_stuff/NEW_patch_dataset.py:93-107 | `",".join(bag).split(",")` gives back the bag when no path contains a comma |
| Text.JoinSplit | src/data_stuff/NEW_patch_dataset.py:93-107 | joining the comma-split pieces of a string gives back the string |
| Text.SplitPieces | src/data_stuff/NEW_patch_dataset.py:107 | `split(",")` yields at least one piece, and no piece contains a comma |
| Text.PathJoin4Plain | src/data_stuff/NEW_patch_dataset.py:68 | `os.path.join` of a root without a trailing `/` and plain names is `root/class/folder/patch` |
| Text.RemoveChar | src/data_stuff/downstream_dataset.py:179 | `replace('/', '')` keeps every other character and leaves no `/` behind |
| Grouping.FullGroupsShape | src/data_stuff/NEW_patch_dataset.py:90-92 | `zip_longest` chunking without the padded tail gives n div g groups of exactly g; in order they make up the prefix of length (n div g)·g; exactly one more padded group exists iff n mod g ≠ 0 |
| Grouping.FullGroupsSlice | src/data_stuff/NEW_patch_dataset.py:90-92 | bag j is exactly the slice of patches j·g through j·g+g−1 |
| Grouping.RepeatAt | src/callback_stuff/PatientLevelValidation.py:34-36 | `repeat_interleave(g)` has length n·g, and element k is original element k div g |
| Grouping.FlattenUniformAt | src/callback_stuff/PatientLevelValidation.py:32-33 | flattening lists of length g gives length n·g, and element k is element k mod g of list k div g |
| Batches.ExpandAligned | src/callback_stuff/PatientLevelValidation.py:31-36 | when every bag splits into g > 1 paths, ids, paths, outputs and targets all reach length n·g, and position k holds path k mod g of bag k div g together with that bag's id, output and target; g ≤ 1 leaves the batch unchanged |
| ScoreTables.Fill | src/callback_stuff/PatientLevelValidation.py:71-72 | writing scores keeps the table well formed and keeps its image keys |
| ScoreTables.FillLastWriteWins | src/callback_stuff/PatientLevelValidation.py:71-72 | after the writes, `t[ids[i]][paths[i]]` holds the score of the last position naming that pair |
| ScoreTables.FillUntouched | src/callback_stuff/PatientLevelValidation.py:71-72 | a pair no position names keeps its presence and its value; an image no position names is unchanged |
| ScoreTables.CollectedPlusNone | src/callback_stuff/PatientLevelValidation.py:107-113 | the collected scores plus the `None` count make up all patch entries; nothing is collected exactly when every entry is `None` |
| ScoreTables.CollectScores | src/callback_stuff/PatientLevelValidation.py:107-113 | the loop collects the non-`None` scores in patch order and counts the `None`s |
| ScoreTables.CollectedMembers | make_ROC_1outneuron.py:257 | a value is collected exactly when some patch entry of the image holds it |
| PatchDatasets.ClassIndexSound | src/data_stuff/NEW_patch_dataset.py:57-60 | every listed class gets an index; an index points back at a position holding its class, so no two classes share one; with distinct names, the i-th class gets i |
| PatchDatasets.PatchDataset.ClassToIdx | src/data_stuff/NEW_patch_dataset.py:57-60 | the enumerate loop builds that index map and covers every listed class |
| PatchDatasets.DatasetDictEntries | src/data_stuff/NEW_patch_dataset.py:63-72 | the index's keys are exactly the folders listed under the classes; each folder holds the label of the last class listing it, since a later assignment overwrites an earlier one, and the joined paths of that class's listing of the folder, in order |
| PatchDatasets.DatasetDictKeyOrder | src/data_stuff/NEW_patch_dataset.py:63-70 | when no folder name repeats in the tree, the index's keys are the folders in the order the loops visit them |
| PatchDatasets.PatchPathsPlain | src/data_stuff/NEW_patch_dataset.py:64-70 | for plain names, a stored path is `root/class/folder/patch` |
| PatchDatasets.PatchDataset.MakeDataset | src/data_stuff/NEW_patch_dataset.py:38-72 | the nested loops build exactly the class map and the index described above |
| PatchDatasets.GroupedLength | src/data_stuff/NEW_patch_dataset.py:86-100 | the grouped dataset has the sum over images of len(patches) div g samples |
| PatchDatasets.ImageSamplesShape | src/data_stuff/NEW_patch_dataset.py:87-94 | an image yields n div g samples; each carries its id and label and splits into exactly the patches j·g through j·g+g−1 of the image; in order they give the prefix of length (n div g)·g |
| PatchDatasets.ImageSampleSplits | src/data_stuff/NEW_patch_dataset.py:93-107 | a sample's joined string splits back into its own bag |
| PatchDatasets.GroupedSamplesFromImages | src/data_stuff/NEW_patch_dataset.py:86-95 | every grouped sample names an image of the index and carries that image's label |
| PatchDatasets.PatchDataset.GroupDataset | src/data_stuff/NEW_patch_dataset.py:74-95 | the append loop produces the bags of every image, images in key order |
| PatchDatasets.PatchDataset.constructor | src/data_stuff/NEW_patch_dataset.py:30-36 | `__init__` stores the root and group size, the index and class map of the tree, and the bags cut from that index |
| PatchDatasets.PatchDataset.Length | src/data_stuff/NEW_patch_dataset.py:99-100 | `__len__` is the number of full bags over all images |
| PatchDatasets.PatchDataset.GetSamplesDict | src/data_stuff/NEW_patch_dataset.py:119-121 | returns the dataset's own well-formed index, from which its bags were cut |
| PatchDatasets.PatchDataset.GetLabelDict | src/data_stuff/NEW_patch_dataset.py:123-129 | the label dict has exactly the index's image ids, in the same order, and maps each one to `samples[id][1]` |
| PatchDatasets.PatchDataset.GetImgSamplesScoreDict | src/data_stuff/NEW_patch_dataset.py:131-138 | returns a new table object holding the all-`None` table over the index |
| PatchDatasets.EmptyTableShape | src/data_stuff/NEW_patch_dataset.py:131-138 | the empty table is well formed; its images are the index's ids in order; each image's inner table is the all-`None` table over its patch paths |
| PatchDatasets.EmptyInnerShape | src/data_stuff/NEW_patch_dataset.py:135-137 | an inner table's keys are exactly the image's patch paths (in order when distinct), and every value is `None` |
| PatientLevel.ExpandAsWrittenSplitsFirstPath | src/callback_stuff/PatientLevelValidation.py:37-38 | as written, g == 1 turns a two-sample batch's first path into seven one-character "paths", and `update_dicts`' length assertion fails |
| PatientLevel.ExpandAsWrittenSingle | src/callback_stuff/PatientLevelValidation.py:37-38 | as written, the g == 1 branch yields one "path" per character of the first path and keeps the ids |
| PatientLevel.GroupedSampleSplits | src/callback_stuff/PatientLevelValidation.py:31-33 | a sample of the grouped dataset splits into exactly g paths, all of its own image |
| PatientLevel.ImageSampleMembers | src/data_stuff/NEW_patch_dataset.py:90-94 | a sample of one image splits into exactly g of that image's patch paths |
| PatientLevel.UpdateOutcomeWrites | src/callback_stuff/PatientLevelValidation.py:60-72 | for equal-length lists whose ids are all in the table, `update_dicts` succeeds and keeps the image keys; each named pair holds the score of its last position; unnamed pairs are unchanged |
| PatientLevel.ArgMax | src/callback_stuff/PatientLevelValidation.py:120 | `argmax` is the first position of a largest logit |
| PatientLevel.MostFrequentIsBest | src/callback_stuff/PatientLevelValidation.py:120 | the running best is one of the votes seen so far; it is at least as frequent as each of them, and the smaller class on a tie |
| PatientLevel.MajorityVoteIsMode | src/callback_stuff/PatientLevelValidation.py:120 | the majority vote is one of the votes, no class is more frequent, and among equally frequent classes it is the smallest |
| PatientLevel.CorrectCounts | src/callback_stuff/PatientLevelValidation.py:131 | the number of hits is at most n; it equals n iff every prediction is right, and 0 iff none is |
| PatientLevel.AccuracyBounds | src/callback_stuff/PatientLevelValidation.py:131 | accuracy lies in [0, 1]; it is 1 iff every prediction is right, and 0 iff none is |
| PatientLevel.ImageRowsOk | src/callback_stuff/PatientLevelValidation.py:104-123 | the per-image loop succeeds iff every image succeeds, and then it yields each image's line in key order |
| PatientLevel.ScoreDictReport | src/callback_stuff/PatientLevelValidation.py:98-133 | scoring succeeds iff there is an image and every image has a score; then there is one line per image in key order, with the image's own label and the majority of its argmax votes; the `None` count and the scores add up to the patches; the accuracy is the fraction of right votes |
| PatientLevel.ScoreDictOfEmptyTableFails | src/callback_stuff/PatientLevelValidation.py:114-117 | a just-reset all-`None` table cannot be scored: stacking an image's empty score list fails |
| PatientLevel.ImageRowsStopsAt | src/callback_stuff/PatientLevelValidation.py:104-117 | the first image without a score makes the whole scoring fail with that image's error |
| PatientLevel.PatientLevelValidation.constructor | src/callback_stuff/PatientLevelValidation.py:8-15 | stores the group size; no dataset or table is attached yet |
| PatientLevel.PatientLevelValidation.Setup | src/callback_stuff/PatientLevelValidation.py:17-24 | takes both datasets' indexes and two new all-`None` tables over them |
| PatientLevel.PatientLevelValidation.OnTrainBatchEnd | src/callback_stuff/PatientLevelValidation.py:26-40 | the training table becomes `update_dicts` of the expanded batch; the validation table is unchanged; for `group_size == 1` the batch's paths are used one per sample, the corrected branch of the first finding |
| PatientLevel.PatientLevelValidation.OnValidationBatchEnd | src/callback_stuff/PatientLevelValidation.py:43-57 | the validation table becomes `update_dicts` of the expanded batch; the training table is unchanged; for `group_size == 1` the batch's paths are used one per sample, the corrected branch of the first finding |
| PatientLevel.PatientLevelValidation.UpdateDicts | src/callback_stuff/PatientLevelValidation.py:60-72 | checks the four lengths, then writes the scores position by position; a missing image raises `KeyError` |
| PatientLevel.PatientLevelValidation.ScoreDict | src/callback_stuff/PatientLevelValidation.py:98-133 | the scoring loop computes exactly the report characterised by `ScoreDictReport` |
| PatientLevel.PatientLevelValidation.OnValidationEpochEnd | src/callback_stuff/PatientLevelValidation.py:75-95 | unless sanity checking, it returns both majority-vote accuracies or the first failure; after it, both tables are new all-`None` tables over the datasets' indexes |
| Downstream.EmptyBucketsShape | src/data_stuff/downstream_dataset.py:163-176 | the starting dict has exactly the four (split, class) buckets, all empty |
| Downstream.GetSetClassPatientId | src/data_stuff/downstream_dataset.py:148-155 | parsing succeeds iff the regex finds exactly 3 matches, and then returns them; otherwise it fails with the match count |
| Downstream.DatasetDictOutcome | src/data_stuff/downstream_dataset.py:159-188 | building the dict succeeds iff every path parses into a known bucket; otherwise the first such failure decides the error (wrong match count or `KeyError`) |
| Downstream.DatasetDictBuckets | src/data_stuff/downstream_dataset.py:177-183 | with all paths parsable, the dict has the four buckets; a patient is present iff some path names it; it holds exactly its paths in input order; the sizes total len(all_filenames) |
| Downstream.DatasetDictKeys | src/data_stuff/downstream_dataset.py:163-183 | a built dict has exactly the four (split, class) buckets |
| Downstream.AddPathSize | src/data_stuff/downstream_dataset.py:180-183 | appending one path keeps the buckets well formed and grows the total by one |
| Downstream.AddPathEntry | src/data_stuff/downstream_dataset.py:180-183 | appending a path extends exactly its own patient's list and no other |
| Downstream.DatasetDictStops | src/data_stuff/downstream_dataset.py:177-178 | once a prefix of the paths fails, the whole build fails with the same error |
| Downstream.NewSizeInRange | src/data_stuff/downstream_dataset.py:72-75 | a fraction in [0, 1] gives a sample size between 0 and the mapping size |
| Downstream.PatientEntriesShape | src/data_stuff/downstream_dataset.py:57-69 | a patient with n patches gives n div g entries; each has its class id, g copies of the patient id, and g paths that split back into its group of the shuffle; in order they use a prefix of the shuffled list, so no patch is used twice |
| Downstream.ShuffledCommaFree | src/data_stuff/downstream_dataset.py:59 | a shuffle keeps the length and the comma-freeness of the paths |
| Downstream.GroupsSplitJoin | src/data_stuff/downstream_dataset.py:68 | each joined group splits back into itself |
| Downstream.ClassEntriesShape | src/data_stuff/downstream_dataset.py:53-69 | every entry of a class has that class id, g paths, and g copies of one of the class's patients, all of whose paths are that patient's |
| Downstream.ClassEntriesCount | src/data_stuff/downstream_dataset.py:53-69 | a class contributes the sum of len(patches) div g over its patients |
| Downstream.FullMappingShape | src/data_stuff/downstream_dataset.py:47-70 | every entry of the mapping has g paths and `class_to_idx` of one class, and belongs to one patient of that class whose paths they are |
| Downstream.FullMappingCount | src/data_stuff/downstream_dataset.py:47-70 | the unsampled mapping has the sum over classes and patients of len(patches) div g entries |
| Downstream.PrunedShape | src/data_stuff/downstream_dataset.py:108-123 | after pruning, a patient stays in a class of the split iff it has at least the minimum number of patches; kept lists are unchanged; the other split is unchanged |
| Downstream.RemovedBadList | src/data_stuff/downstream_dataset.py:111-115 | the listed bad patients of a class are exactly its patients below the minimum |
| Downstream.PopAllBad | src/data_stuff/downstream_dataset.py:108-123 | popping the listed bad patients one by one gives the pruned buckets |
| Downstream.PopAllStep | src/data_stuff/downstream_dataset.py:120-121 | each pop removes one patient from its own class bucket |
| Downstream.DownstreamTrainingDataset.constructor | src/data_stuff/downstream_dataset.py:15-41 | the object holds the given settings, dict and index |
| Downstream.DownstreamTrainingDataset.Init | src/data_stuff/downstream_dataset.py:15-41 | `__init__` fails like `make_dataset_dict` does; it raises `KeyError` when the split's class buckets are missing; with them present it fails exactly when a `subset_size` makes int(count·subset) negative or larger than the count, and then with `ValueError`; on success the index mapping is a valid draw over the built dict, and its length is the entry count or int(count·subset), the product taken on exact reals |
| Downstream.DownstreamTrainingDataset.MakeDatasetDict | src/data_stuff/downstream_dataset.py:159-188 | the loop builds the bucketed dict or stops at the first bad path |
| Downstream.DownstreamTrainingDataset.CreateIndexMapping | src/data_stuff/downstream_dataset.py:47-77 | `KeyError` iff a class bucket is missing; otherwise the mapping of some per-patient shuffle; with `subset_size` it is int(len·s) entries drawn without replacement, or `ValueError` when int(len·s) is out of range, the product taken on exact reals |
| Downstream.DownstreamTrainingDataset.Subsample | src/data_stuff/downstream_dataset.py:71-75 | `random.sample(mapping, int(og·s))` is that many entries at distinct positions, or `ValueError` when the size is negative or too large; og·s is taken on exact reals |
| Downstream.DownstreamTrainingDataset.ClassIndexEntries | src/data_stuff/downstream_dataset.py:53-69 | the patient loop of one class produces the entries of some shuffle of each patient's list |
| Downstream.DownstreamTrainingDataset.PatientIndexEntries | src/data_stuff/downstream_dataset.py:57-69 | one patient's entries are its complete groups of some permutation of its paths |
| Downstream.DownstreamTrainingDataset.Length | src/data_stuff/downstream_dataset.py:43-44 | `__len__` is the mapping's length at any time; while the mapping is the one `__init__` built from the current buckets, that is the entry count or int(count·subset), the product taken on exact reals |
| Downstream.DownstreamTrainingDataset.RemovePatientsWithLessThanMinPatches | src/data_stuff/downstream_dataset.py:108-123 | fails with `KeyError`, changing nothing, iff a class bucket of the split is missing; otherwise the dict becomes the pruned buckets; the index mapping is untouched |
| Downstream.DownstreamTrainingDataset.FindBadPatients | src/data_stuff/downstream_dataset.py:111-115 | the first loop lists the (class, patient, count) triples below the minimum, in class and key order |
| Downstream.DownstreamTrainingDataset.BadPatientsOf | src/data_stuff/downstream_dataset.py:113-115 | the same triples for one class |
| Downstream.DownstreamTrainingDataset.PopPatients | src/data_stuff/downstream_dataset.py:120-121 | the second loop pops every listed patient from its class bucket of the split |
| MakeRoc.Min3 | make_ROC_1outneuron.py:276 | the zip's length is the shortest of the three lengths |
| MakeRoc.FillOutcomeWrites | make_ROC_1outneuron.py:275-277 | when every zipped id is in the table, `fill_dict` succeeds and keeps the image keys; each zipped pair holds its last prediction; every other entry, including everything past the shortest list, is unchanged |
| MakeRoc.FillDict | make_ROC_1outneuron.py:275-277 | the loop writes up to the first missing image, which raises `KeyError` |
| MakeRoc.ExpandLength | make_ROC_1outneuron.py:299-304 | a fitting batch expands to four aligned lists with g entries per sample for g > 1, else one |
| MakeRoc.AccumulatedAppend | make_ROC_1outneuron.py:314-320 | accumulating a + b is the concatenation of accumulating a and then b |
| MakeRoc.AccumulatedAligned | make_ROC_1outneuron.py:314-320 | over fitting batches, the four accumulated lists share one length: the sample count times g for g > 1, else the sample count |
| MakeRoc.AccumulatedAsWrittenGrouped | make_ROC_1outneuron.py:299-315 | for g > 1 the code as written and the corrected expansion accumulate the same lists |
| MakeRoc.GetPreds | make_ROC_1outneuron.py:279-325 | the batch loop accumulates the expanded lists in batch order; stacking fails when nothing was predicted; for `group_size <= 1` each batch is used unchanged, the corrected branch of the second finding |
| MakeRoc.ExpandAsWrittenMisfiles | make_ROC_1outneuron.py:314-315 | as written, g == 1 files the two predictions under the keys "r" and "/" without error, and both real patches stay `None` |
| MakeRoc.ExpandFillsOwnPatches | make_ROC_1outneuron.py:299-315 | with the corrected expansion, that batch fills each image's own patch |
| MakeRoc.ExpandFillsBatch | make_ROC_1outneuron.py:299-320 | in general, filling from a corrected expanded batch succeeds, and each flattened position's patch holds its prediction (last write wins) |
| MakeRoc.ImageLevelSpec | make_ROC_1outneuron.py:255-263 | the per-image loop succeeds iff every key has a score and a label; then there is one prediction and one label per key, in key order: the image's non-`None` scores and `samples_dict_gt[id][1]` |
| MakeRoc.RocImageLevelSpec | make_ROC_1outneuron.py:250-269 | `get_roc_image_level` succeeds iff there is an image and every image has a score and a label; a value is in an image's prediction iff some patch of that image holds it |
| MakeRoc.GetRocImageLevel | make_ROC_1outneuron.py:250-269 | the loop computes that collection, stopping at the first image without a score or a label |
| MakeRoc.ImageLevelStops | make_ROC_1outneuron.py:255-259 | once an image fails, the whole collection fails with its error |
| MakeRoc.EvaluateModel | make_ROC_1outneuron.py:374-400 | one model: `get_preds`, then `fill_dict` into a new all-`None` table, then the image-level collection; the first exception stops it; its `get_preds` step takes the corrected `group_size <= 1` branch |
| MakeRoc.EvaluateNotNameMismatch | make_ROC_1outneuron.py:386-400 | evaluating a model never raises the name assertion |
| MakeRoc.AllOkSpec | make_ROC_1outneuron.py:374-413 | a loop over steps succeeds iff every step does, and then yields every step's value in order; failing, it fails with some step's error |
| MakeRoc.EvaluationsSpec | make_ROC_1outneuron.py:374-390 | one list's models evaluate iff each does, and then give their evaluations in order |
| MakeRoc.EvaluateList | make_ROC_1outneuron.py:374-413 | the inner loop evaluates the list's models in order, stopping at the first failure; each evaluation takes the corrected `group_size <= 1` branch |
| MakeRoc.RecordedAsPutAll | make_ROC_1outneuron.py:354-356 | the records are the successive `record_dict[name] = ...` assignments, once every value exists |
| MakeRoc.RecordedSpec | make_ROC_1outneuron.py:354-356 | the records exist iff every value does; their names are exactly the names used; a name holds the value of its last use |
| MakeRoc.MainOutcomeFails | make_ROC_1outneuron.py:338-354 | `make_roc_main` fails its assertion iff the model lists and names differ in number; otherwise it succeeds iff every model of the zipped lists evaluates, with `setup` building the datasets as the third finding intends |
| MakeRoc.MainOutcomeAsWrittenFails | make_ROC_1outneuron.py:373-376 | as written, with matching names the call succeeds iff every zipped model list is empty, and otherwise fails with the `TypeError` of `dm.setup()` |
| MakeRoc.MainOutcomeRecords | make_ROC_1outneuron.py:354-390 | on success, the record names are exactly the zipped names, and each holds, in order, the evaluations of the models of the last list carrying it |
| MakeRoc.MakeRocMain | make_ROC_1outneuron.py:338-413 | the assertion and the nested loops compute exactly that outcome; each evaluation takes the corrected `group_size <= 1` branch and a data module whose `setup` has run |

## Left out

- Image loading, transforms and tensor stacking in both datasets' `__getitem__` are not modelled: they are file I/O and framework calls.
- `PatchDataModule` (`prepare_data`, `setup`, the data loaders with their batching, shuffling and `drop_last`) is not modelled. The batches a loader yields are given as input. A data module is represented by the validation `PatchDataset` its `setup` builds, and `dm.group_size` by that dataset's group size. The missing `stage` argument of the script's `dm.setup()` is the third finding.
- Model forward passes (`model.get_preds`, the Lightning `outputs`) are the parameter `run` or the given batch outputs. The model classes and experiment scripts are not modelled.
- The floating-point analytics are not modelled: sigmoid, mean, ROC, AUC, `get_roc_sample_level`, interpolation and averaging. Neither are the raw-sum logits and raw-sum accuracy of `score_dict`, or the plotting functions. `get_roc_image_level` is modelled up to the stacked per-image scores and labels.
- `PatientLevel.ArgMax`: logits are integers instead of floats, so NaN and float rounding are not modelled.
- `PatientLevel.MajorityVote`: a tie between equally frequent classes goes to the smallest class. The source's `torch.mode` documents no tie rule, so this choice is the model's.
- `os.listdir`, `glob` and the regular expression are inputs (`listdir`, `allFilenames`, `findall`). Their order and matching are not modelled; only the 3-match contract is.
- `random.sample` and `random.shuffle` are arbitrary choices. The model states that the result is some permutation or some draw without replacement, not its distribution.
- The `print`s, `debug_mode`, `self.log` calls and `check_dataset_dict` only report, so they are not modelled. The epoch's logged accuracies are returned instead.
- The `pdb.set_trace()` trap on an image without scores is modelled as the error `NoScores`, in the callback and in the ROC script alike. The debugger session is not modelled.
- The unused `all_patient_targets` field and the commented-out calls are not modelled. In particular, `DownstreamTrainingDataset.__init__` does not prune: its call to `remove_patients_with_less_than_min_patches` is commented out, so `Init` does not call the pruning method either.
- `make_roc_main` records are modelled as one ordered list of evaluations (predictions, filled table, image-level scores and labels) per model name. The stored model objects, `num_models`, the sample-level ROC entries and the averaged curves are not modelled. A repeated name is reset at the start of its iteration; the model keeps the last list's evaluations, as the source does.
- `torch.stack(...).squeeze(-1)` is represented as the list of predictions itself; tensor shapes are not modelled.
- `DownstreamTrainingDataset`'s hard-coded `classes` and `class_to_idx` are the constants `Classes` and `ClassToIdx`.
- Downstream.DownstreamTrainingDataset.Subsample: the sample size `int(og_size * subset_size)` is computed from the exact real product (`NewSize`), not the float one. The two can differ: with 100 entries and a subset of 0.29, the float product is 28.999999999999996, so the source draws 28 entries where the model draws 29. Float rounding is not modelled.
- Downstream.DownstreamTrainingDataset.CreateIndexMapping: with `subset_size`, its entry count inherits the exact-real `NewSize` of `Subsample`; float rounding of the product is not modelled.
- Downstream.DownstreamTrainingDataset.Init: the index mapping it stores inherits the exact-real `NewSize` of `Subsample`; float rounding of the product is not modelled.
- Downstream.DownstreamTrainingDataset.Length: the length it states inherits the exact-real `NewSize` of `Subsample`; float rounding of the product is not modelled.
- PatientLevel.PatientLevelValidation.OnTrainBatchEnd: for `group_size == 1` it uses the batch's paths one per sample (`Batches.Expand`). The source's `list(img_paths[0])` branch fails `update_dicts`' length assertion instead; see the first row of "## Findings", whose as-written half is `PatientLevel.ExpandAsWrittenSplitsFirstPath`.
- PatientLevel.PatientLevelValidation.OnValidationBatchEnd: the same corrected `group_size == 1` branch as `OnTrainBatchEnd`, in place of the source's `list(img_paths[0])`.
- MakeRoc.GetPreds: for `group_size <= 1` it accumulates each batch unchanged (`Accumulated`). The source's `list(img_paths[0])` branch misfiles the predictions instead; see the second row of "## Findings", whose as-written half is `MakeRoc.ExpandAsWrittenMisfiles` and `AccumulatedAsWritten`.
- MakeRoc.EvaluateModel: its `get_preds` step is the corrected `Accumulated`, so for `group_size <= 1` it does not reproduce the source's misfiling and the `pdb` stop that follows.
- MakeRoc.EvaluateList: each model's evaluation is the corrected `Evaluate`, as for `EvaluateModel`.
- MakeRoc.MakeRocMain: each model's evaluation is the corrected `Evaluate`, as for `EvaluateModel`. It also evaluates as if `dm.setup(stage)` had succeeded, while the source's `dm.setup()` raises `TypeError` on the first model of a non-empty list; see the third row of "## Findings", whose as-written half is `MakeRoc.MainOutcomeAsWrittenFails`. `MakeRoc.EvaluateList` and `MakeRoc.MainOutcomeFails` make the same assumption.

## Findings

| source | as written | input that shows it | evidently intended | confidence | as-written member | corrected member |
|---|---|---|---|---|---|---|
| src/callback_stuff/PatientLevelValidation.py:37-38 | with `group_size == 1`, `img_paths = list(img_paths[0])` turns the first path string of the batch into a list of its characters | a batch of two one-patch samples with paths `"r/a.jpg"` and `"r/b.jpg"`: seven "paths" against two ids, so `update_dicts`' length assertion fails | the paths are used unchanged, one per sample | not executed | PatientLevel.ExpandAsWrittenSplitsFirstPath | Batches.ExpandAligned |
| make_ROC_1outneuron.py:314-315 | the same `list(img_paths[0])` in `get_preds` for `group_size <= 1` | the same batch, with predictions 5 and 7: `fill_dict`'s zip stops at the two ids and stores 5 under key `"r"` and 7 under `"/"`; both real patches stay `None` and no error is raised | each prediction is stored under its own patch path | not executed | MakeRoc.ExpandAsWrittenMisfiles | MakeRoc.ExpandFillsOwnPatches |
| make_ROC_1outneuron.py:376 | `dm.setup()` is called without the `stage` argument that `PatchDataModule.setup(self, stage)` (src/data_stuff/NEW_patch_dataset.py:184) requires | the script's own call, `make_roc_main` with two non-empty model lists: `TypeError` on the first model, before any evaluation | `setup` builds `train_ds` and `val_ds`, and each model is evaluated on `dm.val_ds` | not executed | MakeRoc.MainOutcomeAsWrittenFails | MakeRoc.MainOutcomeFails |
