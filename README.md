# Verified models of MindSpore model-zoo scripts

This project models the sequential logic around the neural networks of the
MindSpore model zoo, in Dafny, and proves what those scripts promise. That
logic covers:

- label encoding and data set record layout (CRNN-Seq2Seq OCR, LUKE,
  AlexNet, E-NET, FCN8s);
- post-processing of network outputs (TextFuseNet, SiamRPN, FaceQuality,
  FaceRecognition, CPM, Transformer, ArtTrack person colouring);
- checkpoint key remapping on load (YOLOv3-tiny, FaceQuality,
  FaceRecognition, CPM, Transformer, FiBiNET);
- learning-rate schedules (DarkNet-53, SimpleBaselines and AlphaPose);
- configuration defaulting and argument merging (YOLOv3-tiny, DGU,
  ResNeXt, Single-Path-NAS, SqueezeNet);
- parameter grouping for weight decay (MobileNetV2, Single-Path-NAS);
- training-loop bookkeeping: GAT early stopping, the MobileNetV2 monitor,
  the ResNeXt progress monitor, the UniSiam average meter and the FiBiNET
  AUC metric;
- batching in the SKNet inference driver;
- architecture planning of the GloRe ResNets;
- the Android style-transfer image helpers;
- PanGu-Alpha incremental serving.

There is one Dafny module per source file. A few modules are shared:

- `Wrappers`: Option and Result;
- `Strings`: the Python string operations used;
- `StringOrder`: Python's `str` ordering and `sorted`;
- `PyNumbers`: floor division and `int()`;
- `CheckpointKeys`: ordered dictionary remapping, where the last write wins;
- `ParamGroups`: the stable two-way split of parameters;
- `StepLr`;
- `TrainFlags`.

Code that updates state step by step is modelled as methods with loops,
or as classes with `modifies` clauses. Each of them is proved against a
specification function, and the properties the scripts rely on are proved
about that function as lemmas. Exceptions and error codes become `Err`
values. Floating-point values are `real`.

## Model

| member | source | states |
|---|---|---|
| AlexnetPreprocess.CreateLabel | research/cv/Alexnet/preprocess.py:27-44 | the label map and total are those of the listing sorted by name, labelled by position; a listed name that is not a directory fails with NotADirectoryError |
| AlexnetPreprocess.CopyListing | research/cv/Alexnet/preprocess.py:29-32 | `file_list` is the listing, element for element and in order |
| AlexnetPreprocess.LabelDirectories | research/cv/Alexnet/preprocess.py:34-40 | the outer loop's map and total are `Labelled` of the directories, failing at the first name that is not a directory |
| AlexnetPreprocess.AssignLabel | research/cv/Alexnet/preprocess.py:38-39 | the inner loop's map is `Assigned` of the directory's files with label `i` |
| AlexnetPreprocess.AssignedOverrides | research/cv/Alexnet/preprocess.py:38-39 | the inner loop sets every listed file to `i` and leaves every other key as it was |
| AlexnetPreprocess.LabelledStaysFailed | research/cv/Alexnet/preprocess.py:36-37 | after a listed name fails to open, later directories do not change the outcome |
| AlexnetPreprocess.LabelledFails | research/cv/Alexnet/preprocess.py:36-37 | the call fails exactly when some listed name is not a directory, and then with NotADirectoryError |
| AlexnetPreprocess.LabelIsLastDirectory | research/cv/Alexnet/preprocess.py:36-39 | a file is labelled exactly when some class directory lists it; its label is the position of the last directory listing it |
| AlexnetPreprocess.AssignedKeys | research/cv/Alexnet/preprocess.py:38-39 | labelling a directory's files adds at most that many keys |
| AlexnetPreprocess.TotalCountsListings | research/cv/Alexnet/preprocess.py:34-40 | `total` is the number of files listed over all directories, counting repeats, and is at least the number of labelled names |
| AlexnetPreprocess.ListingOrderIrrelevant | research/cv/Alexnet/preprocess.py:29-33 | two listings holding the same names, in any order, give the same labels and total |
| FibinetEval.DatasetType | research/recommend/fibinet/eval.py:36-41 | `tfrecord` and `mindrecord` select their readers, and every other name selects H5 (each direction stated) |
| FibinetEval.CheckpointSource | research/recommend/fibinet/eval.py:48-69 | a `;` in `ckpt_path` selects its split slices, which join back to the path; without one, `ckpt_file` is loaded, not `ckpt_path` |
| FibinetEval.ListsAfterAppend | research/recommend/fibinet/eval.py:53-60 | adding two runs of entries one after the other is adding their concatenation |
| FibinetEval.ListsContents | research/recommend/fibinet/eval.py:53-60 | a key is gathered exactly when it is not optimizer state and some slice holds it; its list holds its values in slice order |
| FibinetEval.ValuesOfAbsent | research/recommend/fibinet/eval.py:58-60 | a key no entry holds has no values |
| FibinetEval.AddSlice | research/recommend/fibinet/eval.py:55-60 | the inner loop adds one slice's entries: the lists are `ListsAfter` of the slice |
| FibinetEval.GatherSlices | research/recommend/fibinet/eval.py:51-60 | the nested loop's `param_list_dict` is `ListsAfter` of all slices' entries, slice after slice |
| FibinetEval.MergeAll | research/recommend/fibinet/eval.py:61-67 | `param_dict` has the same keys, and each value is the merge of its list, with the strategy exactly when the key is in it |
| FibinetEval.Loaded | research/recommend/fibinet/eval.py:53-54 | one loaded checkpoint per slice path, in order |
| FibinetEval.LoadParams | research/recommend/fibinet/eval.py:48-69 | without `;` the parameters are the single checkpoint file; with `;` they are the merged gathered slices, key by key |
| FibinetMetrics.AucMetric.constructor | research/recommend/fibinet/src/metrics.py:28-30 | a new metric holds two empty lists, so it is aligned |
| FibinetMetrics.AucMetric.Clear | research/recommend/fibinet/src/metrics.py:32-35 | both lists become empty |
| FibinetMetrics.AucMetric.Update | research/recommend/fibinet/src/metrics.py:37-42 | the flattened prediction and labels are appended and the logits ignored; equal-length batches keep alignment as it was |
| FibinetMetrics.AucMetric.Eval | research/recommend/fibinet/src/metrics.py:44-53 | RuntimeError exactly when the lengths differ; otherwise the ROC-AUC score of the labels and predictions |
| FibinetMetrics.AlignedAfterUpdates | research/recommend/fibinet/src/metrics.py:37-45 | updates whose prediction and label batches have equal lengths leave lists of equal length |
| FibinetMetrics.EvaluatePass | research/recommend/fibinet/src/metrics.py:28-53 | a fresh metric fed a run of batches fails exactly when the concatenated lengths differ, and otherwise scores the concatenations |
| ParamGroups.Filter | research/cv/single_path_nas/train.py:148-166 | the kept parameters are parameters of the input that satisfy the test, never more than the input |
| ParamGroups.FilterNot | research/cv/single_path_nas/train.py:148-166 | the other group holds only parameters of the input that fail the test |
| ParamGroups.FilterKeeps | research/cv/single_path_nas/train.py:153-162 | every parameter that satisfies the test lands in the first group |
| ParamGroups.FilterNotKeeps | research/cv/single_path_nas/train.py:163-164 | every parameter that fails the test lands in the second group |
| ParamGroups.FilterPartition | research/cv/single_path_nas/train.py:148-166 | the two groups together hold every parameter exactly as often as the input does |
| ParamGroups.Partition | research/cv/single_path_nas/train.py:150-164 | the loop appends each parameter, in order, to exactly the group its test selects |
| SinglePathNasTrain.LrScheduler | research/cv/single_path_nas/train.py:46-66 | `exponential` and `cosine_annealing` select their schedules (both directions), and every other name raises NotImplementedError |
| SinglePathNasTrain.GetParamGroups | research/cv/single_path_nas/train.py:148-166 | two groups: the `.bias`/`.gamma`/`.beta` parameters with weight decay 0.0 first, then the rest without a setting; together a permutation of the trainable parameters |
| SinglePathNasTrain.Config.constructor | research/cv/single_path_nas/train.py:169-179 | the configuration holds the given loss-scale and label-smoothing settings |
| SinglePathNasTrain.Config.ApplyOverrides | research/cv/single_path_nas/train.py:169-179 | a dynamic loss scale sets `loss_scale` to 1 and disabled label smoothing sets its factor to 0; nothing else changes |
| SinglePathNasTrain.SmoothFactor | research/cv/single_path_nas/train.py:178-181 | the loss uses factor 0 without label smoothing and the configured factor with it |
| SqueezenetDataset.GetNumParallelWorkers | research/cv/squeezenet/src/dataset.py:178-191 | an int request above the CPU count is lowered to it and kept otherwise; a non-int request becomes `min(cores, 8)`; the result never exceeds the cores |
| SqueezenetDataset.GetNumParallelWorkersIdempotent | research/cv/squeezenet/src/dataset.py:178-191 | asking again with the answer returns the answer |
| SqueezenetDataset.GetNumParallelWorkersPositive | research/cv/squeezenet/src/dataset.py:178-191 | a positive request on a machine with cores gets at least one worker |
| SqueezenetDataset.GetRankInfo | research/cv/squeezenet/src/dataset.py:165-176 | `(1, 0)` without distribution; the group size and this device's rank with it |
| TrainFlags.RankSaveCkptFlag | research/cv/yolov3_tiny/train.py:82-87 | the flag is 0 or 1, and 1 exactly when saving is not restricted to the master or the rank is 0 |
| TrainFlags.OneSaverOnMaster | research/cv/yolov3_tiny/train.py:82-87 | with `is_save_on_master`, exactly one rank of a group saves checkpoints |
| TrainFlags.LossScale | research/cv/resnext152_64x4d/train.py:243-244 | a dynamic loss scale forces the static loss scale to 1; otherwise it is kept |
| UnisiamMeter.AverageMeter.constructor | research/cv/unisiam/util.py:34-41 | a new meter has value, average, sum and count all zero |
| UnisiamMeter.AverageMeter.Reset | research/cv/unisiam/util.py:37-41 | value, average, sum and count all become zero |
| UnisiamMeter.AverageMeter.Update | research/cv/unisiam/util.py:43-47 | the value is recorded, `val * n` added to the sum and `n` to the count; a zero count raises ZeroDivisionError with the average unchanged, otherwise average times count is the sum |
| UnisiamMeter.Accumulate | research/cv/unisiam/util.py:34-47 | a fresh meter fed samples fails exactly when some running count reaches zero; otherwise it holds the total sum and count, and their average |
| UnisiamMeter.AverageBounded | research/cv/unisiam/util.py:43-47 | with positive weights the accumulated sum lies between the smallest and largest value times the count, so the average stays in their range |
| PyNumbers.FloorDiv | research/cv/darknet53/src/lr_generator.py:65 | Python's `//`: the floor of the quotient for either sign of the divisor |
| PyNumbers.Trunc | research/nlp/dgu/modelart/start.py:177 | Python's `int()` of a float: truncation toward zero for either sign |
| Wrappers.PyIndex | research/cv/E-NET/src/dataset.py:166-167 | Python indexing with negative indices: defined exactly for `-len <= i < len`, reading from the end for negative `i`, IndexError otherwise |
| CheckpointKeys.RemapKeys | research/cv/FaceQualityAssessment/eval.py:239-246 | the renaming loop builds exactly the dictionary obtained by inserting each kept entry under its new name in checkpoint order |
| CheckpointKeys.RemappedDomain | research/cv/FaceQualityAssessment/eval.py:239-246 | a name is in the new dictionary if and only if some entry of the checkpoint is renamed to it |
| CheckpointKeys.RemappedLastWins | research/cv/FaceQualityAssessment/eval.py:239-246 | when several entries are renamed to one name, the value of the last of them is kept |
| CheckpointKeys.RemappedSize | research/cv/FaceQualityAssessment/eval.py:239-246 | the new dictionary never has more names than the checkpoint has entries |
| CheckpointKeys.StripPrefixRename | research/cv/yolov3_tiny/train.py:190-195 | optimizer state (`moments.`) is dropped, and only it; a prefixed name loses exactly the prefix; any other name is kept unchanged |
| CheckpointKeys.StripPrefixOrigin | research/cv/FaceRecognitionForTracking/eval.py:189-198 | every name of the new dictionary is either a checkpoint name without the prefix or a prefixed checkpoint name with the prefix removed, never optimizer state |
| CheckpointKeys.RemapStripping | research/cv/FaceRecognitionForTracking/eval.py:189-198 | the drivers' loop yields the remapped dictionary, every name in it comes from a non-optimizer entry, and it is no larger than the checkpoint |
| CheckpointKeys.StripPrefixKeeps | research/cv/yolov3_tiny/train.py:190-195 | a prefixed parameter that no later entry overwrites is found under its stripped name with its own value |
| Strings.StartsWithContains | research/nlp/cpm/eval.py:135-136 | a string that starts with a prefix contains it |
| Strings.IndexOf | research/cv/crnn_seq2seq_ocr/src/create_mindrecord_files.py:94-95 | the result is the position of the first occurrence of the character |
| Strings.IndexOfAfter | research/cv/crnn_seq2seq_ocr/src/create_mindrecord_files.py:94-95 | in `a + c + b` with `c` absent from `a`, the first `c` is at position `|a|` |
| Strings.Split | research/cv/yolov3_tiny/train.py:57 | `split` yields at least one part and no part contains the separator |
| Strings.JoinSplit | research/cv/yolov3_tiny/train.py:57 | joining the parts of a split with the separator gives back the original string |
| Strings.SplitJoin | research/cv/yolov3_tiny/train.py:57 | splitting a join of separator-free parts gives back the parts |
| Strings.LastIndexOf | research/cv/E-NET/src/dataset.py:66-67 | the result is -1 or the position of the character, and no later position holds it |
| Strings.LastPart | research/nlp/dgu/modelart/start.py:299 | `s.split(sep)[-1]` holds no separator, is a suffix of `s`, and is either all of `s` or preceded by the separator |
| Strings.AllButLastPart | research/cv/FCN8s/src/data/build_seg_data.py:47 | `sep.join(s.split(sep)[:-1])` followed by the separator and the last part rebuilds `s`; it is empty when `s` has no separator |
| Strings.FirstPart | research/cv/crnn_seq2seq_ocr/src/create_mindrecord_files.py:94 | the first part of the split is a separator-free prefix of `s`, ending at the first separator or at the end |
| Strings.SecondPart | research/cv/crnn_seq2seq_ocr/src/create_mindrecord_files.py:95 | `s.split(sep)[1]` raises IndexError exactly when the separator is absent, and otherwise is the second part of the split |
| Strings.PathJoin | research/cv/crnn_seq2seq_ocr/src/create_mindrecord_files.py:96 | `os.path.join` returns an absolute second part unchanged and otherwise extends the first part |
| Strings.PathJoinEndsWith | research/cv/crnn_seq2seq_ocr/src/create_mindrecord_files.py:96 | the joined path ends with its second part |
| Strings.StripChars | research/cv/FCN8s/src/data/build_seg_data.py:57-58 | `strip` never lengthens, leaves no stripped character at either end, and changes nothing when no character is stripped |
| Strings.StripCharsInfix | research/cv/FCN8s/src/data/build_seg_data.py:57-58 | the result of `strip` is the infix `s[a..b]` left after cutting a leading and a trailing run of stripped characters, maximal by the ends property above |
| Strings.Lower | research/nlp/dgu/modelart/start.py:133 | `lower` keeps the length and lowers each character independently |
| Strings.LowerChar | research/nlp/dgu/modelart/start.py:133 | an upper-case ASCII letter becomes the lower-case letter at the same place in the alphabet, and every other character is unchanged |
| Strings.RemoveChar | research/nlp/dgu/modelart/start.py:298 | `replace(c, '')` removes every `c` and keeps every other character as often as it occurs, never lengthens, and is the identity when `c` is absent |
| Strings.RemoveCharAppend | research/nlp/dgu/modelart/start.py:298 | removal works piece by piece, so the kept characters stay in their original order |
| Strings.ReplaceFirst | research/nlp/dgu/modelart/start.py:298 | a replacement count of zero changes nothing |
| Strings.ReplaceFirstLeftmost | research/nlp/dgu/modelart/start.py:298 | with a positive count, the leftmost occurrence of the pattern becomes the replacement, the text before it is kept, and the remaining count applies to the text after it |
| Strings.ReplaceFirstAbsent | research/nlp/dgu/modelart/start.py:298 | a pattern that does not occur is never replaced, whatever the count |
| Strings.DigitChar | research/cv/AlphaPose/modelart/start.py:161 | the digit character of `d` is a digit whose value is `d` |
| Strings.NatToString | research/cv/AlphaPose/modelart/start.py:161 | `str(n)` is a non-empty run of digits without a leading zero |
| Strings.DigitsValueOfNatToString | research/cv/AlphaPose/modelart/start.py:161 | the digits of `str(n)` read back as `n` |
| Strings.IntToString | research/cv/resnext152_64x4d/train.py:374 | `str(x)` is non-empty and starts with a minus sign exactly when `x` is negative |
| Strings.ParseInt | research/cv/yolov3_tiny/train.py:57 | `int(s)` raises ValueError on a blank string, and ValueError is its only error |
| Strings.IntToStringStripped | research/cv/yolov3_tiny/train.py:57 | `str(x)` has no surrounding whitespace |
| Strings.ParseIntOfIntToString | research/cv/yolov3_tiny/train.py:57 | `int(str(x)) == x` for every integer |
| Strings.ParseIntList | research/cv/yolov3_tiny/train.py:57 | a parsed list has one number per comma-separated part, and the only error is ValueError |
| Strings.ParseAll | research/cv/resnext152_64x4d/train.py:224-225 | parsing a list of parts fails exactly when some part fails, and otherwise gives each part's number in order |
| Strings.SeparatorNotInIntToString | research/cv/resnext152_64x4d/train.py:224-225 | a character other than a digit or minus sign never occurs in `str(x)` |
| Strings.ParseAllOfJoin | research/cv/resnext152_64x4d/train.py:224-225 | writing a non-empty list of integers with such a separator and parsing the parts back is lossless |
| Strings.ParseIntListOfJoin | research/cv/yolov3_tiny/train.py:57 | a comma-separated list of integers parses back to the same list |
| StringOrder.LessEqTotal | research/cv/Alexnet/preprocess.py:33 | any two strings are comparable in Python's string order |
| StringOrder.LessEqReflexive | research/cv/Alexnet/preprocess.py:33 | every string is at most itself |
| StringOrder.LessEqTransitive | research/cv/Alexnet/preprocess.py:33 | the string order is transitive |
| StringOrder.LessEqAntisymmetric | research/cv/Alexnet/preprocess.py:33 | two strings each at most the other are equal |
| StringOrder.Insert | research/cv/E-NET/src/dataset.py:157 | inserting into a sorted list keeps it sorted and adds exactly the new string |
| StringOrder.ConsSorted | research/cv/E-NET/src/dataset.py:157 | a sorted list stays sorted under a head that does not exceed it |
| StringOrder.Sort | research/cv/Alexnet/preprocess.py:33 | `sorted` returns a sorted permutation of its input |
| StringOrder.SortedHeadLeast | research/cv/Alexnet/preprocess.py:33 | the head of a sorted list is at most each of its elements |
| StringOrder.SortedTail | research/cv/Alexnet/preprocess.py:33 | the tail of a sorted list is sorted |
| StringOrder.MultisetTail | research/cv/Alexnet/preprocess.py:33 | the tail holds the list's contents less its head |
| StringOrder.SortedUnique | research/cv/E-NET/src/dataset.py:157 | two sorted orderings of the same strings are equal, so `sorted` depends only on the contents |
| StringOrder.SameHead | research/cv/E-NET/src/dataset.py:157 | two sorted orderings of one non-empty multiset start alike and continue with one multiset |
| CpmEval.CpmName | research/nlp/cpm/eval.py:135-140 | a weight name not already containing `cpm_model.` gets that prefix; one that contains it is kept; every resulting name contains it |
| CpmEval.CpmNameCollision | research/nlp/cpm/eval.py:133-140 | two different weights share a key only when one of them is the other with the prefix added |
| CpmEval.LoadWeights | research/nlp/cpm/eval.py:131-140 | `can_be_loaded` is the renamed checkpoint with later weights overwriting earlier ones; every key carries the namespace and every weight has its key |
| CpmEval.ArgMax | research/nlp/cpm/eval.py:190 | `argmax` returns the first position of a maximum |
| CpmEval.SelectColumns | research/nlp/cpm/eval.py:189 | `row[cand_ids]` picks the candidate columns in order, and raises IndexError exactly when a candidate lies past the row |
| CpmEval.Predict | research/nlp/cpm/eval.py:189-190 | a prediction is a candidate position whose logit is maximal among the candidates; it fails exactly when there is no candidate or a candidate lies past the row |
| CpmEval.PredictBatch | research/nlp/cpm/eval.py:189-190 | a batch's predictions are the rows' predictions in order, and the batch fails exactly when some row fails |
| CpmEval.Matches | research/nlp/cpm/eval.py:200 | the number of agreeing zipped positions is at most either length |
| CpmEval.MatchesAll | research/nlp/cpm/eval.py:200 | for equal lengths, every position agrees exactly when the predictions equal the labels |
| CpmEval.Accuracy | research/nlp/cpm/eval.py:200 | the accuracy fails with ZeroDivisionError exactly when there are no labels, lies in [0, 1], and is 1 exactly when the predictions equal the labels |
| CpmEval.ShareWithin | research/nlp/cpm/eval.py:200 | a count out of a positive total is a share in [0, 1], equal to 1 exactly when the count is the total |
| CpmEval.Gathered | research/nlp/cpm/eval.py:176-198 | the gathered labels are the batches' labels in order with one prediction per row, and gathering fails exactly when some batch fails |
| CpmEval.Evaluate | research/nlp/cpm/eval.py:176-201 | a failing batch ends the run with its error; otherwise `np.stack` raises ValueError on an empty dataset and on batches of different sizes (a short last batch), and else the result is the accuracy of the gathered predictions |
| CpmEval.StackedRowCount | research/nlp/cpm/eval.py:197-198 | batches of one size stack into a full table: rows and labels number the batches times the first batch's |
| CpmEval.UnevenBatchesNotStackable | research/nlp/cpm/eval.py:105-116 | with the remainder kept, a batch of two rows followed by one of one row cannot be stacked |
| CpmEval.GatheredStaysFailed | research/nlp/cpm/eval.py:176-195 | the first failing batch's error is the result of the whole run |
| Darknet53Lr.LinearWarmupLr | research/cv/darknet53/src/lr_generator.py:47-52 | the warm-up rate lies on the line from `init_lr` that reaches `base_lr` at `warmup_steps`, and a zero `warmup_steps` raises ZeroDivisionError |
| Darknet53Lr.RateAt | research/cv/darknet53/src/lr_generator.py:64-69 | step `i` fails with ZeroDivisionError on a zero epoch length; before the warm-up ends its rate is `base_lr * (i + 1) / warmup_steps`; after it, it fails exactly when `T_max` is 0 |
| Darknet53Lr.ScheduleUpToContents | research/cv/darknet53/src/lr_generator.py:63-72 | a successful schedule holds one rate per step, each the rate of its step, and it succeeds exactly when every step does |
| Darknet53Lr.ScheduleFails | research/cv/darknet53/src/lr_generator.py:60-72 | the schedule fails exactly when it has a step after the warm-up and `T_max` is 0 |
| Darknet53Lr.WarmupCosineAnnealingLr | research/cv/darknet53/src/lr_generator.py:55-72 | the loop yields the schedule of `int(max_epoch * steps_per_epoch)` steps with `int(warmup_epochs * steps_per_epoch)` warm-up steps |
| Darknet53Lr.StepRate | research/cv/darknet53/src/lr_generator.py:65-69 | the loop body computes the rate of step `i` |
| Darknet53Lr.ScheduleStaysFailed | research/cv/darknet53/src/lr_generator.py:64-70 | the first failing step's error is the result of every longer schedule |
| Darknet53Lr.WarmupReachesBase | research/cv/darknet53/src/lr_generator.py:66-67 | the last warm-up step runs at exactly `base_lr` |
| Darknet53Lr.WarmupIncreasing | research/cv/darknet53/src/lr_generator.py:66-67 | with a positive base rate the warm-up rates strictly increase |
| Darknet53Lr.ConstantWithinEpoch | research/cv/darknet53/src/lr_generator.py:65-69 | after the warm-up every step of one epoch has the same rate, the annealed rate of that epoch |
| Darknet53Lr.EpochOf | research/cv/darknet53/src/lr_generator.py:65 | `i // steps_per_epoch` is the epoch whose steps contain `i` |
| Darknet53Lr.GetLr | research/cv/darknet53/src/lr_generator.py:20-44 | any scheduler other than `cosine_annealing` raises NotImplementedError; otherwise the schedule's errors propagate, the pretrained epochs' rates are dropped, and the length assertion decides between the rest and AssertionError |
| Darknet53Lr.GetLrAssertionHolds | research/cv/darknet53/src/lr_generator.py:41-43 | for a positive epoch length and `0 <= pretrained_epoch_num <= epoch_num` the assertion of `get_lr` holds |
| DguStart.SaveSteps | research/nlp/dgu/modelart/start.py:134-153 | every supported task forces a positive checkpoint interval |
| DguStart.DefaultEpochs | research/nlp/dgu/modelart/start.py:134-153 | every supported task's default epoch count is positive |
| DguStart.Defaulted | research/nlp/dgu/modelart/start.py:131-166 | an unknown lower-cased task raises ValueError; otherwise that task's save steps are forced, each unset value takes its task or shared default, and set values are kept |
| DguStart.LowerIdempotent | research/nlp/dgu/modelart/start.py:133 | lower-casing twice is lower-casing once |
| DguStart.DefaultedIdempotent | research/nlp/dgu/modelart/start.py:131-166 | applying the defaults a second time changes nothing |
| DguStart.DefaultedSetsAll | research/nlp/dgu/modelart/start.py:157-166 | after defaulting, the epochs, both sequence lengths and the checkpoint path are all set |
| DguStart.Args.constructor | research/nlp/dgu/modelart/start.py:49-129 | the parsed arguments hold the given values |
| DguStart.Args.SetDefaultArgs | research/nlp/dgu/modelart/start.py:131-166 | in place, the arguments become their defaulted values; an unknown task raises ValueError after only the name was lower-cased |
| DguStart.Args.SetTaskDefaults | research/nlp/dgu/modelart/start.py:133-155 | the name is lower-cased, and a supported task gets its save steps, epochs and (for udc) sequence length and evaluation batch; nothing else changes |
| DguStart.Args.SetSharedDefaults | research/nlp/dgu/modelart/start.py:157-166 | each unset shared value (checkpoint path, learning rate, sequence lengths, evaluation batch) takes its default and nothing else changes |
| DguStart.DoTrainSetup | research/nlp/dgu/modelart/start.py:168-195 | a missing pretrained checkpoint raises ValueError; otherwise the step and example counts, a warm-up within the training steps, and a checkpoint directory that is None exactly when no save path was given |
| DguStart.WarmupWithin | research/nlp/dgu/modelart/start.py:177 | `int(max_train_steps * warmup_proportion)` lies between 0 and the step count for a proportion in [0, 1] |
| DguStart.DoEvalCheck | research/nlp/dgu/modelart/start.py:216-219 | a missing fine-tuned checkpoint raises ValueError exactly when the path is empty |
| DguStart.MetricName | research/nlp/dgu/modelart/start.py:205-209 | the classification tasks report "Accuracy" and every other task its metric's own name |
| DguStart.ResultTag | research/nlp/dgu/modelart/start.py:298 | the result tag holds no square bracket |
| DguStart.UploadNameParts | research/nlp/dgu/modelart/start.py:298-299 | an upload name is the train URL, the bracket-free result tag, `_` and the checkpoint's file name, in that order |
| DguStart.UploadTagExample | research/nlp/dgu/modelart/start.py:298 | the result `[1, 2, 3, 4]` becomes the tag `1_2_3, 4`: brackets removed and only the first two separators replaced |
| DguStart.BracketsRemoved | research/nlp/dgu/modelart/start.py:298 | a bracket-free result text inside one pair of brackets loses exactly those brackets |
| DguStart.Uploads | research/nlp/dgu/modelart/start.py:297-300 | there is one copy per evaluated checkpoint |
| DguStart.UploadsAt | research/nlp/dgu/modelart/start.py:297-300 | each checkpoint is copied to its own upload name, at its own position |
| DguStart.UploadAll | research/nlp/dgu/modelart/start.py:297-301 | the upload loop makes exactly the copies of `Uploads`, in the dictionary's order |
| EnetDataset.AnyEndsWith | research/cv/E-NET/src/dataset.py:51 | the name passes exactly when it ends with one of the extensions |
| EnetDataset.IsImage | research/cv/E-NET/src/dataset.py:50-51 | a file is an image exactly when its name ends in `.jpg` or `.png` |
| EnetDataset.LabelIsImage | research/cv/E-NET/src/dataset.py:50-55 | every label file (`_labelTrainIds.png`) also passes as an image file |
| EnetDataset.ImagePath | research/cv/E-NET/src/dataset.py:58-59 | the path ends with `basename + extension`, and is just that when it is absolute |
| EnetDataset.ImagePathCity | research/cv/E-NET/src/dataset.py:62-63 | the path ends with the name and, for a relative name, starts with the root |
| EnetDataset.SplitextRoot | research/cv/E-NET/src/dataset.py:67 | `os.path.splitext(p)[0]` is a prefix of `p` that is either all of it or stops at a `.` followed by no further `.` or `/` |
| EnetDataset.ImageBasename | research/cv/E-NET/src/dataset.py:66-67 | the base name contains no `/` |
| EnetDataset.LastIndexOfAppend | research/cv/E-NET/src/dataset.py:67 | the last occurrence in a concatenation is in the second part when it holds the character, and otherwise in the first |
| EnetDataset.ImageBasenameOfImagePath | research/cv/E-NET/src/dataset.py:58-67 | `image_basename(image_path(root, b, ext)) == b` for a plain base name and a one-dot extension, whatever the root |
| EnetDataset.SplitextRootDropsExtension | research/cv/E-NET/src/dataset.py:67 | after a directory ending in `/`, a base name followed by its extension loses just the extension |
| EnetDataset.SeparatorOfPath | research/cv/E-NET/src/dataset.py:67 | in such a path the last `/` ends the directory |
| EnetDataset.DotOfPath | research/cv/E-NET/src/dataset.py:67 | in such a path the last `.` starts the extension |
| EnetDataset.LastPartAfterDirectory | research/cv/E-NET/src/dataset.py:67 | `os.path.basename` of a directory ending in `/` plus a plain name is that name |
| EnetDataset.Resize | research/cv/E-NET/src/dataset.py:39-43 | a zero original height raises ZeroDivisionError; otherwise the new height is the requested one and the new width is the truncated aspect-preserving width |
| EnetDataset.CoTransform.constructor | research/cv/E-NET/src/dataset.py:72-85 | a checked stage keeps the given fields, with ratio 1.2 for stage 1 and 1.3 otherwise |
| EnetDataset.NewCoTransform | research/cv/E-NET/src/dataset.py:72-85 | a stage other than 1, 2 or 3 raises RuntimeError; otherwise a new transform holds the given fields and the stage's ratio |
| EnetDataset.RemapLabel | research/cv/E-NET/src/dataset.py:126 | the ignore value 255 becomes class 19, every other label is kept, and 255 never remains |
| EnetDataset.RemapIgnore | research/cv/E-NET/src/dataset.py:126 | in place, every element of the target becomes its remapped label |
| EnetDataset.RemapIdempotent | research/cv/E-NET/src/dataset.py:126 | remapping twice is remapping once |
| EnetDataset.Listed | research/cv/E-NET/src/dataset.py:155-156 | every listed path is `os.path.join(dp, f)` of a walked file whose name passes the filter, and there are no more paths than walked files |
| EnetDataset.ListedAppend | research/cv/E-NET/src/dataset.py:155-156 | listing a concatenated walk lists each part in turn |
| EnetDataset.ListedMultiset | research/cv/E-NET/src/dataset.py:155-156 | walks holding the same entries in any order list the same paths equally often |
| EnetDataset.RemoveOne | research/cv/E-NET/src/dataset.py:155-156 | removing one entry from two walks with the same entries leaves walks with the same entries |
| EnetDataset.ListedMiddle | research/cv/E-NET/src/dataset.py:155-156 | listing a walk with an entry in the middle lists that entry beside the rest |
| EnetDataset.Cityscapes.constructor | research/cv/E-NET/src/dataset.py:148-161 | the roots are the joined `leftImg8bit/` and `gtFine/` directories plus the subset, and the file lists are the sorted image and label paths of the walks |
| EnetDataset.Cityscapes.GetItem | research/cv/E-NET/src/dataset.py:165-167 | the `index`-th image and label with Python indexing; IndexError exactly when the index is outside either list |
| EnetDataset.ListingIndependentOfWalkOrder | research/cv/E-NET/src/dataset.py:155-161 | the sorted file list does not depend on the order in which the walk yields files |
| EnetDataset.PairingBySortedPosition | research/cv/E-NET/src/dataset.py:157-167 | every image index yields a pair exactly when there are enough labels, and pairs the `i`-th smallest image path with the `i`-th smallest label path |
| FaceQualityEval.LoadCheckpoint | research/cv/FaceQualityAssessment/eval.py:239-246 | the checkpoint is remapped with optimizer state dropped and the `network.` prefix stripped, and every resulting name comes from such an entry |
| FaceQualityEval.Fields | research/cv/FaceQualityAssessment/eval.py:68-70 | `strip().split(" ")` yields at least one field |
| FaceQualityEval.EulerFields | research/cv/FaceQualityAssessment/eval.py:68 | `split(" ")[:3]` is the first three fields, or all of them when there are fewer |
| FaceQualityEval.CoordPairs | research/cv/FaceQualityAssessment/eval.py:70-73 | the fields after the third are grouped into consecutive (x, y) pairs, an odd last field ignored |
| FaceQualityEval.PairValue | research/cv/FaceQualityAssessment/eval.py:77-80 | a pair fails exactly when `float` fails on either coordinate, and a kept point has non-negative coordinates |
| FaceQualityEval.Scaled | research/cv/FaceQualityAssessment/eval.py:82-84 | `int(coord / length * 96)` is the non-negative floor of the scaled coordinate |
| FaceQualityEval.KeypointsAfter | research/cv/FaceQualityAssessment/eval.py:69-84 | a successful keypoint table always has five slots |
| FaceQualityEval.KeypointsFail | research/cv/FaceQualityAssessment/eval.py:74-84 | reading fails exactly when some pair fails: unparsable, or annotated beyond the fifth slot (IndexError) |
| FaceQualityEval.KeypointSlot | research/cv/FaceQualityAssessment/eval.py:69-84 | slot `i` holds the scaled coordinates of pair `i` when it is annotated and stays `[-1, -1]` otherwise |
| FaceQualityEval.ReadGt | research/cv/FaceQualityAssessment/eval.py:65-86 | `read_gt` fails exactly when the keypoint table does, and otherwise returns the Euler fields and the table |
| FaceQualityEval.ReadPair | research/cv/FaceQualityAssessment/eval.py:75-84 | one pass of the loop advances the table by exactly one pair |
| FaceQualityEval.KeypointsStayFailed | research/cv/FaceQualityAssessment/eval.py:75-84 | once a pair fails, reading further pairs keeps that failure |
| FaceQualityEval.KeypointCoordAsWritten | research/cv/FaceQualityAssessment/eval.py:59 | as written, the point of flat cell `k` is `(2 * (k % 48), floor(2k / 48))` |
| FaceQualityEval.KeypointCoordAsWrittenOffByOne | research/cv/FaceQualityAssessment/eval.py:59 | the vertical coordinate as written is one too large exactly for cells in the right half of their row |
| FaceQualityEval.KeypointCoordAsWrittenExample | research/cv/FaceQualityAssessment/eval.py:59 | cell 47 (row 0) is placed at (94, 1) as written, instead of (94, 0) |
| FaceQualityEval.KeypointCoord | research/cv/FaceQualityAssessment/eval.py:59 | the intended point of cell (row, column) is (2 * column, 2 * row) |
| FaceQualityEval.KeypointCoordCell | research/cv/FaceQualityAssessment/eval.py:52-59 | the intended points are even, inside the 96 x 96 input, and halving them gives back the cell |
| FaceQualityEval.ArgMax | research/cv/FaceQualityAssessment/eval.py:55-56 | `argmax` returns the first position of the largest value |
| FaceQualityEval.ScoreSumBounds | research/cv/FaceQualityAssessment/eval.py:58 | each keypoint adds at most 0.25 to the score sum, and non-negative peaks give a non-negative sum |
| FaceQualityEval.GetMdOutput | research/cv/FaceQualityAssessment/eval.py:41-62 | as written: per heatmap, in order, the score is the peak value and the point is the first peak cell decoded with the true-division row `KeypointCoordAsWritten`; the score sum is the capped sum; the Euler angles are scaled by 90 |
| FaceQualityEval.GetMdOutputIntended | research/cv/FaceQualityAssessment/eval.py:41-62 | the same output with the intended decoding `KeypointCoord`, every point lying inside the 96 x 96 input |
| FaceQualityEval.MdOutputWith | research/cv/FaceQualityAssessment/eval.py:50-62 | the loop over the heatmaps records each first peak's value and decoded point, the capped score sum and the scaled Euler angles |
| FaceQualityEval.BestIpn | research/cv/FaceQualityAssessment/eval.py:233-255 | only `.ckpt` files are evaluated; the best IPN is at most 100 and at most every evaluated IPN, and the reported checkpoint is the first one reaching it |
| FaceRecognitionEval.LoadImages | research/cv/FaceRecognitionForTracking/eval.py:95-112 | the batches, concatenated, are the images in order; no batch is empty; every batch but the last is full and the last is at most full |
| FaceRecognitionEval.LoadCheckpoint | research/cv/FaceRecognitionForTracking/eval.py:187-199 | the checkpoint is remapped with optimizer state dropped and the `model.` prefix stripped, and every resulting name comes from such an entry |
| FaceRecognitionEval.ObjectIdSpec | research/cv/FaceRecognitionForTracking/eval.py:43 | `re.split('_\d\d\d\d', name)[0]` is the prefix of the name up to its first `_dddd`, or the whole name |
| FaceRecognitionEval.ObjectIdUnique | research/cv/FaceRecognitionForTracking/eval.py:43 | any prefix ending at the first `_dddd` (or at the end) is the object id |
| FaceRecognitionEval.ObjectIdExample | research/cv/FaceRecognitionForTracking/eval.py:43 | the object id of `person3_0042_x` is `person3` |
| FaceRecognitionEval.GroupsOf | research/cv/FaceRecognitionForTracking/eval.py:40-45 | an object has features exactly when it is listed in the order of first appearance |
| FaceRecognitionEval.GroupsOfDistinct | research/cv/FaceRecognitionForTracking/eval.py:40-45 | each object is listed once |
| FaceRecognitionEval.GroupsOfContents | research/cv/FaceRecognitionForTracking/eval.py:40-45 | each object of the input has a group holding exactly its images' features, in input order, and no other name has a group |
| FaceRecognitionEval.Row | research/cv/FaceRecognitionForTracking/eval.py:49-51 | a row of the similarity matrix compares one feature with each feature of the group, in order |
| FaceRecognitionEval.MatrixLength | research/cv/FaceRecognitionForTracking/eval.py:49-51 | a group's flattened matrix has size * size entries |
| FaceRecognitionEval.MatrixEntry | research/cv/FaceRecognitionForTracking/eval.py:49-51 | entry (i, j) of the flattened matrix sits at `i * size + j` and compares features i and j |
| FaceRecognitionEval.InclassScoresCount | research/cv/FaceRecognitionForTracking/eval.py:46-51 | the in-class scores number the sum of the squared group sizes |
| FaceRecognitionEval.GroupImages | research/cv/FaceRecognitionForTracking/eval.py:40-45 | the grouping loop builds exactly the groups of `GroupsOf` |
| FaceRecognitionEval.GroupMatrix | research/cv/FaceRecognitionForTracking/eval.py:49-51 | one group's rows, appended in order, are its flattened similarity matrix |
| FaceRecognitionEval.InclassLikehood | research/cv/FaceRecognitionForTracking/eval.py:38-57 | the in-class scores are every ordered pair of images of one object, objects in order of first appearance, and there are as many as the squared group sizes sum to |
| FaceRecognitionEval.OthersCount | research/cv/FaceRecognitionForTracking/eval.py:69-73 | at most every image belongs to another object |
| FaceRecognitionEval.AgainstCount | research/cv/FaceRecognitionForTracking/eval.py:69-78 | one image contributes one between-class score per image of another object |
| FaceRecognitionEval.AgainstOwnObject | research/cv/FaceRecognitionForTracking/eval.py:72-73 | an image is never compared with an image of its own object, itself included |
| FaceRecognitionEval.BtclassLikehood | research/cv/FaceRecognitionForTracking/eval.py:60-81 | the between-class scores are every ordered pair of images of different objects, the outer image varying slowest |
| FaceRecognitionEval.CountAbove | research/cv/FaceRecognitionForTracking/eval.py:89 | the number of scores above the threshold is at most the number of scores |
| FaceRecognitionEval.CountAboveAntitone | research/cv/FaceRecognitionForTracking/eval.py:89 | raising the threshold never accepts more pairs |
| FaceRecognitionEval.ThresholdIndex | research/cv/FaceRecognitionForTracking/eval.py:88 | `int(size * point)` is the floor of the product and an index of the list for a rate in [0, 1) |
| FaceRecognitionEval.TarAtFar | research/cv/FaceRecognitionForTracking/eval.py:84-92 | IndexError when there are no between-class scores, else ZeroDivisionError when there are no in-class scores, and only then; otherwise one point per rate, with the threshold at `int(size * rate)` and the count of in-class scores strictly above it out of all of them |
| FaceRecognitionEval.TarDecreasing | research/cv/FaceRecognitionForTracking/eval.py:84-92 | with the between-class scores in decreasing order (lines 235-236), stricter rates use higher thresholds and accept no more in-class pairs |
| Fcn8sSegData.SampleOf | research/cv/FCN8s/src/data/build_seg_data.py:57-65 | a line without a space raises IndexError, and only such a line; otherwise the sample's file name holds no `/` and ends its image path |
| Fcn8sSegData.SampleFromFields | research/cv/FCN8s/src/data/build_seg_data.py:60-65 | the file name is the image path's last component, and the image's path under the root ends with it |
| Fcn8sSegData.SampleOfListLine | research/cv/FCN8s/src/data/build_seg_data.py:57-65 | a list line `image label\n` gives back the image's name and both paths under the root |
| Fcn8sSegData.SplitListLine | research/cv/FCN8s/src/data/build_seg_data.py:57-58 | such a line splits into the image path and the label path with its newline |
| Fcn8sSegData.StripTrailingNewline | research/cv/FCN8s/src/data/build_seg_data.py:58 | `strip('\n')` removes just the trailing newline of a label path |
| Fcn8sSegData.ParsedLines | research/cv/FCN8s/src/data/build_seg_data.py:56-65 | there is one result per line, the line's own |
| Fcn8sSegData.LeadingSamples | research/cv/FCN8s/src/data/build_seg_data.py:56-67 | the processed samples are those of the lines before the first failing one, in order |
| Fcn8sSegData.LeadingStep | research/cv/FCN8s/src/data/build_seg_data.py:56-67 | the processed samples stop at a failing line and grow by one at a parsed line |
| Fcn8sSegData.AfterSamplesKeepsOrder | research/cv/FCN8s/src/data/build_seg_data.py:66-71 | the written groups followed by the pending samples are the samples in order; every written group holds 1000 and fewer than 1000 wait |
| Fcn8sSegData.KeepsOrderStep | research/cv/FCN8s/src/data/build_seg_data.py:66-71 | appending a sample, with a flush at every 1000th, keeps that order |
| Fcn8sSegData.AfterSamplesSnoc | research/cv/FCN8s/src/data/build_seg_data.py:66-71 | a new sample joins the pending ones, which are written out when the count reaches a multiple of 1000 |
| Fcn8sSegData.WrittenExactlyOnce | research/cv/FCN8s/src/data/build_seg_data.py:66-74 | every sample is written exactly once and in list order; every group but the last holds 1000, none is empty, and there are `ceil(n / 1000)` groups |
| Fcn8sSegData.FlushedCount | research/cv/FCN8s/src/data/build_seg_data.py:68-71 | full groups hold 1000 samples each |
| Fcn8sSegData.FileWriter.constructor | research/cv/FCN8s/src/data/build_seg_data.py:52-53 | a new writer has written nothing and is not committed |
| Fcn8sSegData.FileWriter.WriteRawData | research/cv/FCN8s/src/data/build_seg_data.py:69 | `write_raw_data` appends one group |
| Fcn8sSegData.FileWriter.Commit | research/cv/FCN8s/src/data/build_seg_data.py:75 | `commit` marks the file committed and writes nothing |
| Fcn8sSegData.BuildSegData | research/cv/FCN8s/src/data/build_seg_data.py:54-76 | the conversion succeeds exactly when every line parses, and then writes every sample once in groups of 1000, commits, and counts the lines; a line without a space raises IndexError after only the full groups before it were written, uncommitted |
| Fcn8sSegData.WriteSamples | research/cv/FCN8s/src/data/build_seg_data.py:56-76 | the same outcome over the lines' parse results |
| Fcn8sSegData.WriteLeading | research/cv/FCN8s/src/data/build_seg_data.py:56-71 | the loop runs to the first failing line and leaves the writer with the full groups and `data_list` with the pending samples |
| Fcn8sSegData.FinishWriting | research/cv/FCN8s/src/data/build_seg_data.py:73-75 | a non-empty remainder is written once, and the writer is then committed |
| Fcn8sSegData.Append | research/cv/FCN8s/src/data/build_seg_data.py:66-71 | one iteration appends the sample and writes and empties `data_list` at every 1000th sample |
| Fcn8sSegData.DestinationDir | research/cv/FCN8s/src/data/build_seg_data.py:47 | the directory followed by `/` and the last component rebuilds the path, and is empty when the path has no `/` |
| Fcn8sSegData.DestinationSetupAsWritten | research/cv/FCN8s/src/data/build_seg_data.py:47-49 | as written, an empty directory part fails with FileNotFoundError, and otherwise the directory is created exactly when it does not exist |
| Fcn8sSegData.BareFileNameFailsAsWritten | research/cv/FCN8s/src/data/build_seg_data.py:47-49 | the destination `out.mindrecord` fails as written |
| Fcn8sSegData.DestinationSetup | research/cv/FCN8s/src/data/build_seg_data.py:47-49 | as intended, the directory is created exactly when it is non-empty and missing |
| Fcn8sSegData.DestinationSetupAgrees | research/cv/FCN8s/src/data/build_seg_data.py:47-49 | wherever the code as written succeeds, the intended setup agrees with it, and a bare file name creates nothing |
| GatTrain.Step | research/gnn/gat/train.py:97-112 | an improving epoch resets the counter and, when both bounds improve, saves the model; otherwise the counter grows, an unbound counter or saved result raises UnboundLocalError, and reaching `early_stopping` stops; the bounds never worsen |
| GatTrain.Train | research/gnn/gat/train.py:84-112 | the epoch loop yields the run of `num_epochs` epochs |
| GatTrain.Epoch | research/gnn/gat/train.py:97-112 | the loop body computes one epoch's step |
| GatTrain.RunStaysFailed | research/gnn/gat/train.py:86-112 | once an epoch raises, the whole run ends with that error |
| GatTrain.RunStaysStopped | research/gnn/gat/train.py:109-112 | once stopped, later epochs change nothing |
| GatTrain.CounterBoundAfterFirstEpoch | research/gnn/gat/train.py:85-106 | the first epoch always improves on the infinite loss bound, so the counter is bound before any later epoch reads it |
| GatTrain.RunEpochCount | research/gnn/gat/train.py:86-112 | at most `num_epochs` epochs run, and all of them unless training stopped early |
| GatTrain.BoundsMonotone | research/gnn/gat/train.py:104-105 | the best accuracy never falls and the best loss never rises |
| GatTrain.NoUnboundWithValidAccuracy | research/gnn/gat/train.py:84-112 | with non-negative accuracies the first epoch saves a checkpoint and binds the counter and the saved result, so no epoch raises |
| GatTrain.StoppedAtPatience | research/gnn/gat/train.py:108-112 | a stopped run ends with its counter at `early_stopping`, which is then positive |
| GatTrain.CounterNonNegative | research/gnn/gat/train.py:106-108 | the counter, once bound, is never negative |
| GloreResnet.ResidualBlock | research/cv/glore_res/src/glore_resnet.py:356-374 | the bottleneck width is `out_channel // 4`, and a down-sampling shortcut is built exactly when the stride is not 1 or the channel count changes |
| GloreResnet.GloreUnit50 | research/cv/glore_res/src/glore_resnet.py:138-143 | a GloRe unit has `2 * num_mid` states over `num_mid` nodes |
| GloreResnet.DefaultPositions | research/cv/glore_res/src/glore_resnet.py:673-674 | given positions are used as they are, and glore without positions uses `[1, 3, 5]` |
| GloreResnet.MakeLayer | research/cv/glore_res/src/glore_resnet.py:654-685 | `_make_layer` builds exactly the stage of `layer_num` residual blocks with GloRe units at the (default) positions |
| GloreResnet.AppendGroup | research/cv/glore_res/src/glore_resnet.py:677-684 | one iteration appends the residual block and, at a glore position, a GloRe unit |
| GloreResnet.StageWithoutGlore | research/cv/glore_res/src/glore_resnet.py:677-684 | with glore off a stage holds residual blocks only |
| GloreResnet.StageLength | research/cv/glore_res/src/glore_resnet.py:677-684 | a stage holds `layer_num` blocks plus one GloRe unit per glore position in `1..layer_num` |
| GloreResnet.PositionsStep | research/cv/glore_res/src/glore_resnet.py:682 | iteration `k` adds one glore position exactly when `k` is one |
| GloreResnet.StagePrefix | research/cv/glore_res/src/glore_resnet.py:677-684 | later iterations only append: the blocks of earlier iterations stay in front |
| GloreResnet.StageLayout | research/cv/glore_res/src/glore_resnet.py:677-684 | block `i` takes the stage's input channel and stride when `i = 1` and `out_channel` and stride 1 otherwise, and `GloreUnit_50(out, int(out / 4))` follows it exactly when `i` is a glore position |
| GloreResnet.GloreMidMatchesBottleneck | research/cv/glore_res/src/glore_resnet.py:362 | for non-negative channels the GloRe unit's `int(out / 4)` equals the blocks' bottleneck `out // 4` |
| GloreResnet.ResNet50 | research/cv/glore_res/src/glore_resnet.py:604-652 | ValueError exactly when the layer, in-channel and out-channel lists are not all of length 4; IndexError when only the stride list is short; otherwise four stages, glore only in the third |
| GloreResnet.GloreResnet50 | research/cv/glore_res/src/glore_resnet.py:712-731 | `glore_resnet50` has stages of 3, 4, 6 and 3 blocks, the third gaining three GloRe units with glore |
| GloreResnet.GloreUnit200 | research/cv/glore_res/src/glore_resnet.py:223-229 | a GloRe unit of the deeper nets has `2 * num_mid` states over `num_mid` nodes and keeps its cast flag |
| GloreResnet.IntToStringInjective | research/cv/glore_res/src/glore_resnet.py:439 | different unit numbers format differently |
| GloreResnet.KeyNameInjective | research/cv/glore_res/src/glore_resnet.py:436-447 | `Residual_Unit{i}` and `Residual_Unit{i}_GloreUnit` names are equal only for equal keys |
| GloreResnet.UnitNotGloreName | research/cv/glore_res/src/glore_resnet.py:436-447 | a unit name never equals a GloRe unit name |
| GloreResnet.SuffixedDiffers | research/cv/glore_res/src/glore_resnet.py:445 | a name without the suffix's first character differs from any suffixed name |
| GloreResnet.Keys | research/cv/glore_res/src/glore_resnet.py:436-447 | the keys of a stage are its entries' keys in order |
| GloreResnet.Names | research/cv/glore_res/src/glore_resnet.py:436-447 | the names of a stage are its entries' formatted keys in order |
| GloreResnet.MakeGloreStage | research/cv/glore_res/src/glore_resnet.py:436-460 | the loop builds exactly the named stage with first stride 2 and GloRe units at the given positions |
| GloreResnet.ResNetStages | research/cv/glore_res/src/glore_resnet.py:412-468 | a layer-count list shorter than 4 raises IndexError, and only then; otherwise stage two has first stride 1, the others 2, and only stages three and four carry GloRe units |
| GloreResnet.KeysStep | research/cv/glore_res/src/glore_resnet.py:437-446 | iteration `k` adds the unit key `k` and, at a glore position, the GloRe key `k` |
| GloreResnet.KeysInRange | research/cv/glore_res/src/glore_resnet.py:437-446 | every key of iterations `1..k` names a unit in `1..k` |
| GloreResnet.NamedStageDistinct | research/cv/glore_res/src/glore_resnet.py:436-447 | the keys, and so the names, of a stage are pairwise distinct, so the `OrderedDict` keeps every appended cell |
| GloreResnet.GloreKeyPresent | research/cv/glore_res/src/glore_resnet.py:444-446 | a GloRe unit follows unit `i` exactly when glore is on and `i` is a position within the stage |
| GloreResnet.NamedStageCell | research/cv/glore_res/src/glore_resnet.py:437-446 | unit `i` is the first block (input channel, first stride, projection) exactly when `i = 1` and otherwise maps `num_out` to `num_out` with stride 1; each GloRe unit is `GloreUnit_200(num_out, num_mid)` right after its unit |
| GloreResnet.NamedStageLength | research/cv/glore_res/src/glore_resnet.py:437-446 | a stage holds its layer count plus its glore positions within it |
| GloreResnet.DistinctCount | research/cv/glore_res/src/glore_resnet.py:444 | a list without repeats has as many distinct values as elements |
| GloreResnet.GloreStagePlan | research/cv/glore_res/src/glore_resnet.py:436-460 | for increasing positions inside the stage, the stage gains one GloRe unit per position, at exactly those positions |
| GloreResnet.GloreResnet101 | research/cv/glore_res/src/glore_resnet.py:733-737 | `glore_resnet101` has stages of 3, 4, 23 and 3 units with the fixed channel plans |
| GloreResnet.ResNet101Stage3 | research/cv/glore_res/src/glore_resnet.py:444 | with glore, GloRe units follow units 1 and 3 of stage three |
| GloreResnet.ResNet101Stage4 | research/cv/glore_res/src/glore_resnet.py:457 | with glore, GloRe units follow units 3, 11 and 19 of stage four |
| GloreResnet.GloreResnet200 | research/cv/glore_res/src/glore_resnet.py:705-709 | `glore_resnet200` has stages of 3, 24, 36 and 3 units with the fixed channel plans |
| GloreResnet.ResNet200Stage3 | research/cv/glore_res/src/glore_resnet.py:530 | with glore, GloRe units follow units 12 and 18 of stage three |
| GloreResnet.ResNet200Stage4 | research/cv/glore_res/src/glore_resnet.py:543 | with glore, GloRe units follow units 16, 24 and 32 of stage four |
| ImageUtils.ComputeExifOrientation | official/lite/style_transfer/app/src/main/java/com/mindspore/styletransferdemo/ImageUtils.java:96-116 | the code is an Exif orientation in 0..8, and UNDEFINED (0) exactly when the angle is not a quarter turn |
| ImageUtils.OrientationMeaning | official/lite/style_transfer/app/src/main/java/com/mindspore/styletransferdemo/ImageUtils.java:96-116 | exactly the codes 1..8 stand for a quarter turn, mirrored or not |
| ImageUtils.ComputeExifOrientationRoundTrip | official/lite/style_transfer/app/src/main/java/com/mindspore/styletransferdemo/ImageUtils.java:96-116 | every quarter turn, mirrored or not, has its own code, which gives it back |
| ImageUtils.OrientationMeaningRoundTrip | official/lite/style_transfer/app/src/main/java/com/mindspore/styletransferdemo/ImageUtils.java:96-116 | every valid code is the code computed from what it stands for |
| ImageUtils.QuarterTurns | official/lite/style_transfer/app/src/main/java/com/mindspore/styletransferdemo/ImageUtils.java:53-73 | a quarter-turn angle is a number of turns in 0..3 |
| ImageUtils.AddTurns | official/lite/style_transfer/app/src/main/java/com/mindspore/styletransferdemo/ImageUtils.java:67-73 | composing turns stays in 0..3 |
| ImageUtils.NegTurns | official/lite/style_transfer/app/src/main/java/com/mindspore/styletransferdemo/ImageUtils.java:67-73 | reversing turns stays in 0..3 |
| ImageUtils.PostRotate | official/lite/style_transfer/app/src/main/java/com/mindspore/styletransferdemo/ImageUtils.java:53-59 | `postRotate` maps every point by the current transformation and then the rotation |
| ImageUtils.PostScale | official/lite/style_transfer/app/src/main/java/com/mindspore/styletransferdemo/ImageUtils.java:62-68 | `postScale` with a mirror scaling maps every point by the current transformation and then the mirror |
| ImageUtils.DecodeExifOrientation | official/lite/style_transfer/app/src/main/java/com/mindspore/styletransferdemo/ImageUtils.java:45-84 | NORMAL, UNDEFINED and unknown codes give the identity (the exception is created, never thrown), and the result mirrors exactly for the four mirrored codes |
| ImageUtils.DecodeExifOrientationInjective | official/lite/style_transfer/app/src/main/java/com/mindspore/styletransferdemo/ImageUtils.java:45-84 | the eight codes give eight different transformations |
| ImageUtils.DecodeOfComputed | official/lite/style_transfer/app/src/main/java/com/mindspore/styletransferdemo/ImageUtils.java:45-116 | decoding a computed code rotates every point by the angle and then mirrors it horizontally when asked |
| ImageUtils.ScaleBitmapAndKeepRatio | official/lite/style_transfer/app/src/main/java/com/mindspore/styletransferdemo/ImageUtils.java:135-154 | the result has the requested width and height, and is the input itself when it already has them |
| ImageUtils.ScaleBitmapIdempotent | official/lite/style_transfer/app/src/main/java/com/mindspore/styletransferdemo/ImageUtils.java:135-154 | scaling twice to one size is scaling once |
| ImageUtils.GetPixels | official/lite/style_transfer/app/src/main/java/com/mindspore/styletransferdemo/ImageUtils.java:171-172 | `getPixels` raises IllegalArgumentException exactly when the region exceeds the bitmap; otherwise it yields `width * height` pixels, the bitmap's leading pixels when the width is full |
| ImageUtils.Region | official/lite/style_transfer/app/src/main/java/com/mindspore/styletransferdemo/ImageUtils.java:172 | the top-left region has `width * height` pixels |
| ImageUtils.RegionFullWidth | official/lite/style_transfer/app/src/main/java/com/mindspore/styletransferdemo/ImageUtils.java:172 | whole rows read back the bitmap's own leading pixels |
| ImageUtils.Channel | official/lite/style_transfer/app/src/main/java/com/mindspore/styletransferdemo/ImageUtils.java:177-179 | a colour channel of a pixel is a byte |
| ImageUtils.Normalized | official/lite/style_transfer/app/src/main/java/com/mindspore/styletransferdemo/ImageUtils.java:174-181 | the model input has three floats per pixel |
| ImageUtils.NormalizedEntries | official/lite/style_transfer/app/src/main/java/com/mindspore/styletransferdemo/ImageUtils.java:174-181 | entries `3i`, `3i + 1` and `3i + 2` are pixel `i`'s red, green and blue channels, each `(c - mean) / std` |
| ImageUtils.FloatBuffer.Allocate | official/lite/style_transfer/app/src/main/java/com/mindspore/styletransferdemo/ImageUtils.java:168-170 | a new buffer is zero-filled and positioned at the start |
| ImageUtils.FloatBuffer.ByteCapacity | official/lite/style_transfer/app/src/main/java/com/mindspore/styletransferdemo/ImageUtils.java:168 | the byte size is four per float |
| ImageUtils.FloatBuffer.PutFloat | official/lite/style_transfer/app/src/main/java/com/mindspore/styletransferdemo/ImageUtils.java:177-179 | `putFloat` writes at the position and advances it by one, nothing else changes |
| ImageUtils.FloatBuffer.Rewind | official/lite/style_transfer/app/src/main/java/com/mindspore/styletransferdemo/ImageUtils.java:182 | `rewind` resets the position and keeps the contents |
| ImageUtils.FillBuffer | official/lite/style_transfer/app/src/main/java/com/mindspore/styletransferdemo/ImageUtils.java:168-183 | the nested loop leaves a rewound buffer of `width * height * 3 * 4` bytes holding the normalized pixels |
| ImageUtils.PutRow | official/lite/style_transfer/app/src/main/java/com/mindspore/styletransferdemo/ImageUtils.java:175-180 | one row's pass extends the normalized prefix by the row's pixels |
| ImageUtils.PixelStep | official/lite/style_transfer/app/src/main/java/com/mindspore/styletransferdemo/ImageUtils.java:176-179 | writing one pixel's three channels extends the normalized prefix by that pixel |
| ImageUtils.BitmapToByteBuffer | official/lite/style_transfer/app/src/main/java/com/mindspore/styletransferdemo/ImageUtils.java:166-184 | as written, the call fails exactly when the requested size is not square; otherwise it returns the rewound normalized pixels of the scaled bitmap |
| ImageUtils.BitmapToByteBufferIntended | official/lite/style_transfer/app/src/main/java/com/mindspore/styletransferdemo/ImageUtils.java:166-184 | with height and width passed in order, the call always succeeds with the rewound normalized pixels of a bitmap of the requested size |
| ImageUtils.JavaFloatToInt | official/lite/style_transfer/app/src/main/java/com/mindspore/styletransferdemo/ImageUtils.java:193-195 | Java's `(int)` cast truncates towards zero and saturates at the `int` range |
| ImageUtils.ChannelOfRgb | official/lite/style_transfer/app/src/main/java/com/mindspore/styletransferdemo/ImageUtils.java:193-195 | `Color.rgb` of three bytes gives each byte back as its channel |
| ImageUtils.ConvertArrayToBitmap | official/lite/style_transfer/app/src/main/java/com/mindspore/styletransferdemo/ImageUtils.java:187-201 | a non-positive size or an element outside the bitmap raises IllegalArgumentException, and only then; otherwise element `[0][x][y]` becomes pixel `(y, x)` of a fresh bitmap whose other pixels are 0 |
| ImageUtils.SetColumn | official/lite/style_transfer/app/src/main/java/com/mindspore/styletransferdemo/ImageUtils.java:191-198 | the inner loop sets pixel `(y, x)` for each element `y` of row `x` and changes no other pixel |
| LukeCollate.ChooseSegments | research/nlp/luke/src/reading_comprehension/dataProcessing.py:47-51 | a RoBERTa model uses segment 0 for the second part and an extra separator; any other model segment 1 and none |
| LukeCollate.PadOrTruncate | research/nlp/luke/src/reading_comprehension/dataProcessing.py:97-107 | the result has exactly `max_len` elements: the first `max_len` of a long value, or the value followed by padding |
| LukeCollate.PadPositionRows | research/nlp/luke/src/reading_comprehension/dataProcessing.py:100-104 | an empty position list raises IndexError, and only it; otherwise `max_len` rows: the first ones of a long list, or the list followed by rows of `-1` as wide as its first row |
| LukeCollate.PadOrTruncateIdempotent | research/nlp/luke/src/reading_comprehension/dataProcessing.py:97-107 | padding or truncating twice to one length is doing it once |
| LukeCollate.CollateAsWritten | research/nlp/luke/src/reading_comprehension/dataProcessing.py:94-128 | as written, `no_entity` with any entity raises AttributeError (`fill_` on a list) |
| LukeCollate.Collate | research/nlp/luke/src/reading_comprehension/dataProcessing.py:94-128 | as intended, a record fails exactly when there is no entity position or, in training, no start or end position; otherwise every field is padded to its length, the mask is zeroed under `no_entity`, and the target is the example index in evaluation and the first answer span in training |
| LukeCollate.CollateAgreesWithoutNoEntity | research/nlp/luke/src/reading_comprehension/dataProcessing.py:118-119 | without `no_entity` the written and intended versions agree; with it only the intended one produces a record |
| LukeCollate.NoEntityFails | research/nlp/luke/src/reading_comprehension/dataProcessing.py:118-119 | a one-entity feature with `no_entity` fails as written and gives an all-zero entity mask as intended |
| LukeCollate.BuildDatasetWith | research/nlp/luke/src/reading_comprehension/dataProcessing.py:130-132 | for a given `collate_fn`, the dataset holds one record per feature, in order and numbered by position; it fails exactly when some feature fails, and then with the error of the first failing feature |
| LukeCollate.BuildDatasetAsWritten | research/nlp/luke/src/reading_comprehension/dataProcessing.py:118-132 | the loop as written, over `CollateAsWritten`: its records are those of the written `collate_fn`, and with `no_entity` the first feature already fails, with IndexError without entity positions and AttributeError otherwise |
| LukeCollate.BuildDataset | research/nlp/luke/src/reading_comprehension/dataProcessing.py:130-132 | the loop over the intended `Collate`: one record per feature, in order and numbered by position, failing exactly when some feature fails |
| Mobilenetv2Models.BuildParamsGroups | official/cv/MobileNet/mobilenetv2/src/models.py:143-156 | only trainable parameters are grouped; names with `beta`, `gamma` or `bias` go to the no-decay group, the rest to the decayed one, the order list is every trainable parameter |
| Mobilenetv2Models.NoDecayComplete | official/cv/MobileNet/mobilenetv2/src/models.py:147-151 | every trainable normalisation or bias parameter lands in the no-decay group |
| Mobilenetv2Models.Network.constructor | official/cv/MobileNet/mobilenetv2/src/models.py:128 | the network holds the given parameters |
| Mobilenetv2Models.Network.LoadCkpt | official/cv/MobileNet/mobilenetv2/src/models.py:124-130 | freezing clears `requires_grad` of every parameter and keeps names and order; otherwise nothing changes |
| Mobilenetv2Models.FrozenHasNoTrainable | official/cv/MobileNet/mobilenetv2/src/models.py:128-130 | after freezing no parameter is trainable, so no group is built from it |
| Mobilenetv2Models.HeadActivation | official/cv/MobileNet/mobilenetv2/src/models.py:133-140 | the head activation is "None" during training and the configured activation otherwise |
| Mobilenetv2Models.SmoothValues | official/cv/MobileNet/mobilenetv2/src/models.py:40-45 | the on value is `1 - smooth_factor`, the off value `smooth_factor / (num_classes - 1)`; one class is a division by zero |
| Mobilenetv2Models.SmoothedRowSum | official/cv/MobileNet/mobilenetv2/src/models.py:40-45 | one on value plus `num_classes - 1` off values sum to one |
| Mobilenetv2Models.Monitor.constructor | official/cv/MobileNet/mobilenetv2/src/models.py:72-78 | the monitor starts with the schedule, empty losses and best accuracy 0 |
| Mobilenetv2Models.Monitor.EpochBegin | official/cv/MobileNet/mobilenetv2/src/models.py:80-82 | the epoch's losses are cleared and nothing else changes |
| Mobilenetv2Models.Monitor.EpochEnd | official/cv/MobileNet/mobilenetv2/src/models.py:84-100 | a zero `batch_num` raises ZeroDivisionError with nothing changed; otherwise the best accuracy becomes the new accuracy exactly when it is strictly higher, and is reported |
| Mobilenetv2Models.Monitor.StepEnd | official/cv/MobileNet/mobilenetv2/src/models.py:105-121 | the loss is appended in every case; the report or error is the one `StepReportOf` gives |
| Mobilenetv2Models.StepReportOf | official/cv/MobileNet/mobilenetv2/src/models.py:116-121 | zero batches is a ZeroDivisionError; a report always has its step below the batch count; for a step within the schedule the report is the remainder of `cur_step_num - 1` and the schedule's rate at that index |
| Mobilenetv2Models.BestAccuracy | official/cv/MobileNet/mobilenetv2/src/models.py:96-98 | the result is at least 0 and every accuracy seen, and is 0 or one of them |
| Mobilenetv2Models.RunEpochs | official/cv/MobileNet/mobilenetv2/src/models.py:80-100 | a run of epochs with a zero `batch_num` fails at its first epoch; otherwise it leaves `BestAccuracy` of its evaluations as the best accuracy |
| PanguServing.ConvertTextToIds | official/nlp/Pangu_alpha/serving_increment/pangu_standalone/pangu/servable_config.py:43-51 | the row has length `seq_length + plus`, starts with the ids kept after the cut and is padded with `pad` |
| PanguServing.ShiftedLabels | official/nlp/Pangu_alpha/serving_increment/pangu_standalone/pangu/servable_config.py:106 | the labels are the tokens shifted left by one, with `pad` in the last place |
| PanguServing.ScoringRowsAligned | official/nlp/Pangu_alpha/serving_increment/pangu_standalone/pangu/servable_config.py:104-106 | both scoring rows have length 1024 and label `i` is input id `i + 1`, or `pad` past the input |
| PanguServing.RankedIndices | official/nlp/Pangu_alpha/serving_increment/pangu_standalone/pangu/servable_config.py:56-58 | the indices are a permutation of `0..n-1` in descending value order, ties kept in index order |
| PanguServing.TopK | official/nlp/Pangu_alpha/serving_increment/pangu_standalone/pangu/servable_config.py:54-63 | the result has `min(k, n)` pairs of an index and its value; an empty selection is a ValueError |
| PanguServing.TopKBest | official/nlp/Pangu_alpha/serving_increment/pangu_standalone/pangu/servable_config.py:56-60 | the selected pairs are ranked, and every index left out ranks after every selected one |
| PanguServing.Gather | official/nlp/Pangu_alpha/serving_increment/pangu_standalone/pangu/servable_config.py:74-78 | one element per row, `data[i][index[i]]` with Python's negative indexing; an index out of range is an IndexError |
| PanguServing.TargetLength | official/nlp/Pangu_alpha/serving_increment/pangu_standalone/pangu/servable_config.py:150-151 | the target is the input length plus 500, capped at 1024 |
| PanguServing.FirstCurrentIndex | official/nlp/Pangu_alpha/serving_increment/pangu_standalone/pangu/servable_config.py:160 | the first position looked at is the last input token, or 0 for an empty input |
| PanguServing.GenerateIncrement | official/nlp/Pangu_alpha/serving_increment/pangu_standalone/pangu/servable_config.py:124-233 | an input longer than 1024 fails; the output extends the input, stays below the target length, never holds the end token among generated ids, and the frequency table counts each generated token |
| PanguServing.CountsSum | official/nlp/Pangu_alpha/serving_increment/pangu_standalone/pangu/servable_config.py:218-220 | the frequencies add up to the number of generated tokens |
| ResnextTrain.Cast | research/cv/resnext152_64x4d/train.py:268-270 | the converted value has the existing argument's type; `bool` is truthiness; the conversion fails with ValueError exactly for a string that is not an int or float literal when one is wanted |
| ResnextTrain.Merged | research/cv/resnext152_64x4d/train.py:268-271 | an argument that is `None` takes the cloud value as it is; any other argument takes it converted to its own type |
| ResnextTrain.MergeOne | research/cv/resnext152_64x4d/train.py:265-271 | one cloud entry keeps the argument keys and changes nothing unless its key is an argument and its value is truthy |
| ResnextTrain.MergeEntries | research/cv/resnext152_64x4d/train.py:265-271 | merging the entries never adds or removes an argument key |
| ResnextTrain.Merge | research/cv/resnext152_64x4d/train.py:261-272 | a cloud value that is not a dict leaves the arguments unchanged; a merge never changes the set of keys |
| ResnextTrain.MergeArgs | research/cv/resnext152_64x4d/train.py:261-272 | the loop updating the namespace's dictionary gives `Merge` of the arguments and the cloud value |
| ResnextTrain.MergeStaysFailed | research/cv/resnext152_64x4d/train.py:270 | a failed conversion ends the merge with that error |
| ResnextTrain.MergeEntriesEffect | research/cv/resnext152_64x4d/train.py:264-271 | the merge fails with ValueError exactly when a copied value cannot be converted; otherwise each copied key holds its merged value and every other argument keeps its value |
| ResnextTrain.MergeEntriesUntouched | research/cv/resnext152_64x4d/train.py:265-267 | an argument no entry names keeps its value |
| ResnextTrain.MergeEntriesFails | research/cv/resnext152_64x4d/train.py:268-270 | the merge fails, with ValueError, exactly when some copied value cannot be converted |
| ResnextTrain.MergeEntriesUntouchedByLater | research/cv/resnext152_64x4d/train.py:265-271 | the last entry's key still holds its original value when that entry is reached, as the keys are distinct |
| ResnextTrain.MergeEntriesValues | research/cv/resnext152_64x4d/train.py:265-271 | after a successful merge each copied key holds its merged value and every untouched argument its old one |
| ResnextTrain.MergeCastsToExistingType | research/cv/resnext152_64x4d/train.py:268-270 | a key set by the cloud dict keeps the type of the argument it replaces, unless that argument was `None` |
| ResnextTrain.ParseArgs | research/cv/resnext152_64x4d/train.py:190-258 | the comma lists parse as ints or the call fails with ValueError; `lr`, `data_sink_mode` and `use_python_multiprocessing` fall back to the config when unset; rank and group size come from the communicator only when distributed; a dynamic loss scale forces 1; the save flag is 1 exactly when not saving on master only, or at rank 0 |
| ResnextTrain.ParseArgsOfJoinedLists | research/cv/resnext152_64x4d/train.py:224-225 | integer lists written with commas parse back to the same lists |
| ResnextTrain.RecordCheckpointsContents | research/cv/resnext152_64x4d/train.py:98-107 | the history only grows, gains only this rank's unseen checkpoints from the listing, and ends holding all of them |
| ResnextTrain.RecordCheckpointsNoDuplicates | research/cv/resnext152_64x4d/train.py:105-107 | a history without duplicates stays without duplicates |
| ResnextTrain.RecordCheckpointsIdempotent | research/cv/resnext152_64x4d/train.py:98-107 | recording the same listing a second time adds nothing |
| ResnextTrain.ProgressMonitor.constructor | research/cv/resnext152_64x4d/train.py:68-73 | the monitor starts at step 0 with an empty checkpoint history |
| ResnextTrain.ProgressMonitor.EpochEnd | research/cv/resnext152_64x4d/train.py:81-117 | a zero `steps_per_epoch` raises before any change; otherwise the epoch is `(cur_step_num - 1) // steps_per_epoch`, the history records this rank's new checkpoints when the rank saves, and the next epoch starts at `cur_step_num - 1` |
| ResnextTrain.ReportedEpochWithinEpoch | research/cv/resnext152_64x4d/train.py:86 | every step of an epoch reports the same epoch number |
| SiamRpnPost.ClampZero | research/cv/siamRPN/infer/mxbase/postprocess.py:245-246 | negative extents become 0 and the others are kept |
| SiamRpnPost.Extent | research/cv/siamRPN/infer/mxbase/postprocess.py:239-246 | the overlap length of two intervals is never negative |
| SiamRpnPost.Intersection | research/cv/siamRPN/infer/mxbase/postprocess.py:239-247 | the overlap area of two boxes is never negative |
| SiamRpnPost.Divide | research/cv/siamRPN/infer/mxbase/postprocess.py:250 | numpy's division: a real quotient for a non-zero denominator, NaN for 0/0 and infinity for a positive number over 0 |
| SiamRpnPost.Iou | research/cv/siamRPN/infer/mxbase/postprocess.py:230-250 | the result is the N x K grid whose entry n, k is the IoU of box n of the first list and box k of the second |
| SiamRpnPost.IouTranspose | research/cv/siamRPN/infer/mxbase/postprocess.py:235-250 | swapping the two box lists transposes the grid |
| SiamRpnPost.IouSymmetric | research/cv/siamRPN/infer/mxbase/postprocess.py:239-249 | the IoU of two boxes does not depend on their order |
| SiamRpnPost.IntersectionBounded | research/cv/siamRPN/infer/mxbase/postprocess.py:239-249 | the overlap of two proper boxes is at most the area of each |
| SiamRpnPost.ExtentBounded | research/cv/siamRPN/infer/mxbase/postprocess.py:239-246 | the clamped overlap of two intervals is no longer than either |
| SiamRpnPost.AreaBounded | research/cv/siamRPN/infer/mxbase/postprocess.py:247-249 | a rectangle fitting inside a box's sides has at most its area |
| SiamRpnPost.IouInUnitInterval | research/cv/siamRPN/infer/mxbase/postprocess.py:247-250 | for proper boxes that are not both empty the IoU is a number in [0, 1] |
| SiamRpnPost.IouSelf | research/cv/siamRPN/infer/mxbase/postprocess.py:247-250 | a proper box with positive area has IoU 1 with itself |
| SiamRpnPost.Boxes | research/cv/siamRPN/infer/mxbase/postprocess.py:144-145 | `reshape(-1, 4)` fails unless the length is a multiple of 4, and otherwise groups the numbers four by four in order |
| SiamRpnPost.LastAssigned | research/cv/siamRPN/infer/mxbase/postprocess.py:120-146 | the frame that last assigned `overlap` before frame `i` is the latest one measured with a supported ground-truth shape, or none |
| SiamRpnPost.FailureFrames | research/cv/siamRPN/infer/mxbase/postprocess.py:110-119 | the failures are exactly the frames whose first number is 2, in ascending order |
| SiamRpnPost.CalculateAccuracyFailures | research/cv/siamRPN/infer/mxbase/postprocess.py:94-151 | the call succeeds exactly when every frame does; then there is one overlap per frame, the failures are the failure frames and their count, accuracy 0 only for an empty trajectory, and every frame's overlap is the one recorded |
| SiamRpnPost.FrameStep | research/cv/siamRPN/infer/mxbase/postprocess.py:110-146 | one frame either fails, and then the call does, or is recorded while the loop invariant is kept |
| SiamRpnPost.InvariantStep | research/cv/siamRPN/infer/mxbase/postprocess.py:115-146 | recording the value a frame computes keeps the loop invariant |
| SiamRpnPost.RecordedFrameOk | research/cv/siamRPN/infer/mxbase/postprocess.py:120-146 | a frame whose overlap could be computed from the value left by earlier frames succeeds |
| SiamRpnPost.StaleStep | research/cv/siamRPN/infer/mxbase/postprocess.py:143-146 | after frame `i` the `overlap` variable holds that frame's value if it assigned one, and the earlier value otherwise |
| SiamRpnPost.RecordedKept | research/cv/siamRPN/infer/mxbase/postprocess.py:115-146 | appending a frame's overlap leaves earlier frames' records unchanged |
| SiamRpnPost.FragmentNum | research/cv/siamRPN/infer/mxbase/postprocess.py:172 | there is at least one fragment per video |
| SiamRpnPost.SplitPoints | research/cv/siamRPN/infer/mxbase/postprocess.py:185-187 | the split points start at 0, number at most one more than the failures, and lie inside the video |
| SiamRpnPost.Restarts | research/cv/siamRPN/infer/mxbase/postprocess.py:185-186 | the restarts number at most the failures, each at least `skipping` and inside the video |
| SiamRpnPost.RestartsMembers | research/cv/siamRPN/infer/mxbase/postprocess.py:185-186 | the restarts are exactly the failures moved `skipping` frames on that stay inside the video |
| SiamRpnPost.SplitPointsIncreasing | research/cv/siamRPN/infer/mxbase/postprocess.py:185-187 | for ascending failures and a positive skip the split points are strictly increasing |
| SiamRpnPost.RestartsIncreasing | research/cv/siamRPN/infer/mxbase/postprocess.py:185-186 | for ascending failures the restarts ascend and the first lies past the first failure plus `skipping` |
| SiamRpnPost.ZeroNaN | research/cv/siamRPN/infer/mxbase/postprocess.py:195 | NaN entries become 0 and the rest are kept |
| SiamRpnPost.Pad | research/cv/siamRPN/infer/mxbase/postprocess.py:192-196 | a fragment written into a row keeps its values and fills the rest with the row's previous fill |
| SiamRpnPost.FragmentRow | research/cv/siamRPN/infer/mxbase/postprocess.py:188-196 | every fragment row has the table's width |
| SiamRpnPost.VideoRows | research/cv/siamRPN/infer/mxbase/postprocess.py:184-215 | a video gives one row per split point, or one row if it never failed, each of the table's width |
| SiamRpnPost.MaxLength | research/cv/siamRPN/infer/mxbase/postprocess.py:173 | `max_len` is at least every video's overlap count and equals one of them |
| SiamRpnPost.Rows | research/cv/siamRPN/infer/mxbase/postprocess.py:183-215 | the rows written for the first videos fit within `fragment_num` and have the table's width |
| SiamRpnPost.FragmentNumPrefix | research/cv/siamRPN/infer/mxbase/postprocess.py:172-183 | the first videos never need more rows than `fragment_num` |
| SiamRpnPost.PrepareFragments | research/cv/siamRPN/infer/mxbase/postprocess.py:172-215 | no video list is a ValueError, and a weight divided by zero in some zipped video is a ZeroDivisionError, and these are the only errors; otherwise the table has `fragment_num` rows that start with the rows the zipped videos write and keep NaN in the rest, and `fweights` holds each written row's weight and NaN for the unwritten rows |
| SiamRpnPost.TagSum | research/cv/siamRPN/infer/mxbase/postprocess.py:199-204 | a sum over the all-ones `tags` counts the places of the clamped slice, never more than `max_len` |
| SiamRpnPost.FragmentWeight | research/cv/siamRPN/infer/mxbase/postprocess.py:197-206 | an inner fragment's weight fails with ZeroDivisionError exactly when its length `points[i + 1] - points[i] + 1` is zero; the last fragment's denominator `traj_len - points[i] + 1e-16` is never zero |
| SiamRpnPost.VideoWeights | research/cv/siamRPN/infer/mxbase/postprocess.py:184-215 | a video's weights fail with ZeroDivisionError exactly when it has no failures and no overlaps (`max_idx == 0`) or a zero-length inner fragment; otherwise there is one weight per row the video writes |
| SiamRpnPost.Weights | research/cv/siamRPN/infer/mxbase/postprocess.py:183-215 | the zipped videos' weights fail exactly when one of them does, and otherwise number as many as the rows written |
| SiamRpnPost.FragmentRowsAndWeights | research/cv/siamRPN/infer/mxbase/postprocess.py:188-207 | the loop over the split points writes every fragment's row and weight, and stops with ZeroDivisionError exactly when a fragment has length zero |
| SiamRpnPost.WeightsComplete | research/cv/siamRPN/infer/mxbase/postprocess.py:188-207 | weights that every fragment computed leave no zero-length fragment and are the video's weights in order |
| SiamRpnPost.AscendingFailuresSpan | research/cv/siamRPN/infer/mxbase/postprocess.py:185-200 | ascending failures, as `calculate_accuracy_failures` reports them, never make an inner fragment's denominator zero |
| SiamRpnPost.FragmentsSucceed | research/cv/siamRPN/infer/mxbase/postprocess.py:183-215 | when every video's failures ascend and every failure-free video has overlaps, no weight divides by zero |
| SiamRpnPost.FailureFreeWeight | research/cv/siamRPN/infer/mxbase/postprocess.py:208-214 | a failure-free video with overlaps has the single weight `seq_weight` |
| SiamRpnPost.InnerWeightBounds | research/cv/siamRPN/infer/mxbase/postprocess.py:197-201 | an inner fragment between increasing split points inside the video weighs more than 0 and at most `seq_weight` |
| SiamRpnPost.EmptyFailureFreeVideoFails | research/cv/siamRPN/infer/mxbase/postprocess.py:210-213 | a second, failure-free video with no overlaps makes `max_idx` 0 and the weight a ZeroDivisionError |
| SiamRpnPost.DescendingFailuresFail | research/cv/siamRPN/infer/mxbase/postprocess.py:185-200 | failures 5 then 4 with no skip split six overlaps at 0, 5 and 4, and the fragment from 5 to 4 divides by zero |
| SiamRpnPost.VideoFragmentRows | research/cv/siamRPN/infer/mxbase/postprocess.py:183-215 | one iteration of the zipped loop fails with ZeroDivisionError exactly when `VideoFails` holds, and otherwise writes `VideoRows` of its video and `VideoWeights` as its weights |
| SiamRpnPost.CalculateExpectedOverlap | research/cv/siamRPN/infer/mxbase/postprocess.py:253-266 | a zero width is an IndexError; otherwise entry 0 is 1, and entry `i` is 0 for an all-NaN column and the weighted mean otherwise |
| SiamRpnPost.EaoWeights | research/cv/siamRPN/infer/mxbase/postprocess.py:163-221 | weight 1 on indices 107 to 370 for VOT2015 and VOT2016; any other name leaves `low` unbound |
| SknetMain.ScannedPaths | research/cv/sknet/infer/mxbase/src/main.cpp:33-40 | every collected path is the directory plus "/" plus a listed name other than `.` and `..`, and every such name is collected |
| SknetMain.ScannedPathsOfPlainNames | research/cv/sknet/infer/mxbase/src/main.cpp:33-40 | without dot entries, the paths follow the listing one for one, in order |
| SknetMain.ScanImages | research/cv/sknet/infer/mxbase/src/main.cpp:26-43 | a directory that cannot be opened gives APP_ERR_INTERNAL_ERROR and no paths; otherwise APP_ERR_OK and the scanned paths |
| SknetMain.Batch | research/cv/sknet/infer/mxbase/src/main.cpp:75 | batch `j` holds the 32 paths starting at `32j` |
| SknetMain.Processed | research/cv/sknet/infer/mxbase/src/main.cpp:74-83 | the batches are sent in order; the loop stops at the first failing batch with its code, and each successful batch adds 32 to the count |
| SknetMain.ProcessedStaysFailed | research/cv/sknet/infer/mxbase/src/main.cpp:77-80 | once a batch has failed, no later batch is sent |
| SknetMain.FullBatches | research/cv/sknet/infer/mxbase/src/main.cpp:74 | the loop runs over the full batches: `32k <= n < 32k + 32` |
| SknetMain.RunInference | research/cv/sknet/infer/mxbase/src/main.cpp:45-89 | `main` with the intended loop guard gives the outcome `Inference` defines: no argument, a failed init and a failed scan return early, and otherwise the full batches are processed |
| SknetMain.InferBatches | research/cv/sknet/infer/mxbase/src/main.cpp:72-83 | the batch loop processes the full batches until one fails |
| SknetMain.NoArgumentSucceeds | research/cv/sknet/infer/mxbase/src/main.cpp:46-49 | without a path argument the program returns APP_ERR_OK and sends nothing |
| SknetMain.SuccessProcessesFullBatches | research/cv/sknet/infer/mxbase/src/main.cpp:72-85 | a successful run sends `n / 32` consecutive batches that together are the first `32 * (n / 32)` paths, counts that many images, and calls `DeInit` |
| SknetMain.FailureDeInits | research/cv/sknet/infer/mxbase/src/main.cpp:76-80 | a failing batch ends the run with `DeInit` and that batch's code, counting only the earlier batches |
| SknetMain.FlattenBatches | research/cv/sknet/infer/mxbase/src/main.cpp:74-75 | the first `k` batches, laid end to end, are the first `32k` paths |
| SknetMain.AsWrittenGuardAgrees | research/cv/sknet/infer/mxbase/src/main.cpp:74 | with at least 32 paths the unsigned guard as written is the intended `i + 32 <= n` |
| SknetMain.AsWrittenGuardEntersWithFewImages | research/cv/sknet/infer/mxbase/src/main.cpp:74-75 | with fewer than 32 paths the unsigned subtraction wraps and the guard admits a first batch running past the end |
| SknetMain.FewImagesProcessNothing | research/cv/sknet/infer/mxbase/src/main.cpp:74-88 | with the intended guard, fewer than 32 images send no batch and the run succeeds |
| StepLr.DropsUpTo | research/cv/AlphaPose/modelart/start.py:54-56 | no drops happen before step 0, and at most one per step up to `i` |
| StepLr.DropSteps | research/cv/AlphaPose/modelart/start.py:53 | each drop epoch becomes the step `steps_per_epoch * epoch`, in order |
| StepLr.SliceFrom | research/cv/AlphaPose/modelart/start.py:60 | `xs[k:]` under Python's slice rules for negative starts and starts past the end |
| StepLr.FullSchedule | research/cv/AlphaPose/modelart/start.py:51-57 | the schedule has `total_steps` entries (none when that is not positive) and entry `i` is `lr_init` times `factor` to the number of drop steps up to `i` |
| StepLr.GetLr | research/cv/AlphaPose/modelart/start.py:41-61 | `get_lr` returns the full schedule sliced from step `steps_per_epoch * begin_epoch` |
| StepLr.GetLrLength | research/cv/AlphaPose/modelart/start.py:58-60 | starting inside the schedule leaves `total - start` rates |
| StepLr.ConstantBetweenDrops | research/cv/AlphaPose/modelart/start.py:54-57 | with no drop step between two steps the rate stays the same |
| StepLr.DropAtStep | research/cv/AlphaPose/modelart/start.py:55-56 | the rate drops at the drop step itself |
| StepLr.DropsUpToSorted | research/cv/AlphaPose/modelart/start.py:53-56 | with increasing drop steps, the drops taken by step `i` are exactly those at or before it |
| StepLr.SimpleBaselinesSchedule | research/cv/simple_baselines/train.py:42-53 | with the simple_baselines defaults, epochs 90 to 119 train at a tenth of the initial rate |
| StepLr.CheckpointPrefix | research/cv/AlphaPose/modelart/start.py:132-137 | a distributed run uses a per-device prefix, a single run one name per version |
| StepLr.CheckpointDirectory | research/cv/AlphaPose/modelart/start.py:139-147 | the directory is the ModelArts cache per device first, then a per-device directory under the checkpoint path, else one `device` directory |
| StepLr.PlanTraining | research/cv/AlphaPose/modelart/start.py:153-156 | the reported epoch size is `END_EPOCH - BEGIN_EPOCH` while exactly one epoch is trained |
| StepLr.TrainedStepsWithinSchedule | research/cv/AlphaPose/modelart/start.py:119-124 | when the configured range holds an epoch, the rates left after `BEGIN_EPOCH` cover the one trained epoch |
| StepLr.SavedCheckpoint | research/cv/AlphaPose/modelart/start.py:149-151 | the saved file lies in the directory and is longer than directory and prefix together |
| StepLr.ReloadedCheckpoint | research/cv/AlphaPose/modelart/start.py:158-164 | the reloaded checkpoint always lies under the ModelArts cache directory of the device |
| StepLr.ReloadsSavedOnModelArts | research/cv/AlphaPose/modelart/start.py:129-164 | on ModelArts the reloaded file is the checkpoint saved by the single trained epoch |
| TextfusenetPost.IsValidTensors | research/cv/textfusenet/infer/mxbase/src/PostProcess/TextfusenetMindsporePost.cpp:119-171 | fewer than four tensors are refused; accepted tensors have a rank-3 box tensor of `RPN_MAX_NUM` x 5, `RPN_MAX_NUM` in the second dimension of every other tensor and the mask size in the mask-area tensor; any mismatch is refused |
| TextfusenetPost.BoxAt | research/cv/textfusenet/infer/mxbase/src/PostProcess/TextfusenetMindsporePost.cpp:203-220 | the box's centre is the mean of its corners, its size their difference, its score the fifth number and its class the slot's label |
| TextfusenetPost.Candidates | research/cv/textfusenet/infer/mxbase/src/PostProcess/TextfusenetMindsporePost.cpp:199-222 | at most one box per slot, each of class 0 and scoring above the threshold |
| TextfusenetPost.CandidatesMembers | research/cv/textfusenet/infer/mxbase/src/PostProcess/TextfusenetMindsporePost.cpp:199-222 | a box is a candidate exactly when a slot with its mask flag set, a score above the threshold and label 0 produced it |
| TextfusenetPost.SortByProb | research/cv/textfusenet/infer/mxbase/src/PostProcess/TextfusenetMindsporePost.cpp:173-178 | the array ends sorted by descending score and is a permutation of the original |
| TextfusenetPost.InsertAt | research/cv/textfusenet/infer/mxbase/src/PostProcess/TextfusenetMindsporePost.cpp:178 | inserting cell `i` extends the sorted prefix by one while permuting the array |
| TextfusenetPost.Swapped | research/cv/textfusenet/infer/mxbase/src/PostProcess/TextfusenetMindsporePost.cpp:178 | exchanging two neighbours permutes the sequence and changes only those two cells |
| TextfusenetPost.SwapKeepsInserting | research/cv/textfusenet/infer/mxbase/src/PostProcess/TextfusenetMindsporePost.cpp:178 | swapping an out-of-order neighbour moves the insertion point one cell left |
| TextfusenetPost.InsertedSorted | research/cv/textfusenet/infer/mxbase/src/PostProcess/TextfusenetMindsporePost.cpp:178 | when the inserted box no longer beats its neighbour, the prefix is sorted |
| TextfusenetPost.GetDetectBoxesTopK | research/cv/textfusenet/infer/mxbase/src/PostProcess/TextfusenetMindsporePost.cpp:177-185 | the result is sorted, holds `min(k, n)` of the boxes, and no box left out scores higher than a kept one |
| TextfusenetPost.TruncatedSortedIsTopK | research/cv/textfusenet/infer/mxbase/src/PostProcess/TextfusenetMindsporePost.cpp:179-184 | the first `k` boxes of a sorted sequence are a top-`k` selection of it |
| TextfusenetPost.TruncatedRest | research/cv/textfusenet/infer/mxbase/src/PostProcess/TextfusenetMindsporePost.cpp:184 | the boxes erased are exactly what the kept prefix leaves of the whole |
| TextfusenetPost.TruncatedDominates | research/cv/textfusenet/infer/mxbase/src/PostProcess/TextfusenetMindsporePost.cpp:184 | in a sorted sequence every erased box scores no higher than any kept one |
| TextfusenetPost.GetValidDetBoxes | research/cv/textfusenet/infer/mxbase/src/PostProcess/TextfusenetMindsporePost.cpp:187-224 | the result is a top-`MAX_PER_IMG` selection of the candidate boxes |
| TextfusenetPost.BinaryMask | research/cv/textfusenet/infer/mxbase/src/PostProcess/TextfusenetMindsporePost.cpp:233-250 | the mask is `maskSize` x `maskSize` and a cell is 1 exactly when the value read row by row exceeds the threshold, 0 otherwise |
| TextfusenetPost.MaskPostProcess | research/cv/textfusenet/infer/mxbase/src/PostProcess/TextfusenetMindsporePost.cpp:227-253 | the loops over the plane produce `BinaryMask` of it |
| TextfusenetPost.ClampZero | research/cv/textfusenet/infer/mxbase/src/PostProcess/TextfusenetMindsporePost.cpp:268-271 | `std::max(v, 0)` is non-negative, at least `v`, and `v` itself when `v` is non-negative |
| TextfusenetPost.ToObjectInfo | research/cv/textfusenet/infer/mxbase/src/PostProcess/TextfusenetMindsporePost.cpp:263-273 | the object keeps the box's class and score, its corners lie half a size around the centre clamped at 0, and its mask is the box's binary mask |
| TextfusenetPost.ObjectInfos | research/cv/textfusenet/infer/mxbase/src/PostProcess/TextfusenetMindsporePost.cpp:259-281 | one object per box with a non-negative class, with non-negative corners and a full-height mask |
| TextfusenetPost.ObjectInfosKeepClasses | research/cv/textfusenet/infer/mxbase/src/PostProcess/TextfusenetMindsporePost.cpp:259-281 | when every box has a non-negative class, object `j` is the conversion of box `j` |
| TextfusenetPost.ConvertObjInfoFromDetectBox | research/cv/textfusenet/infer/mxbase/src/PostProcess/TextfusenetMindsporePost.cpp:255-286 | the loop produces `ObjectInfos` of the boxes |
| TextfusenetPost.MaskPlaneInRange | research/cv/textfusenet/infer/mxbase/src/PostProcess/TextfusenetMindsporePost.cpp:220 | a box from slot `i` reads a mask plane inside a well-formed mask-area buffer |
| TextfusenetPost.CandidatesMasksInRange | research/cv/textfusenet/infer/mxbase/src/PostProcess/TextfusenetMindsporePost.cpp:220 | every candidate box, and every box drawn from them, reads its mask inside the buffer |
| TextfusenetPost.ObjectDetectionOutput | research/cv/textfusenet/infer/mxbase/src/PostProcess/TextfusenetMindsporePost.cpp:288-304 | one object list per batch element, each the conversion of a non-maximum suppression of that element's top-K valid boxes |
| TransformerEval.FormatOf | official/nlp/Transformer/eval.py:80-85 | a path is read with numpy exactly when it ends in `.npz` |
| TransformerEval.InferName | official/nlp/Transformer/eval.py:89-91 | a name containing `tfm_decoder` gains the prefix `tfm_decoder.decoder.`; any other name is kept |
| TransformerEval.InferNameInjective | official/nlp/Transformer/eval.py:88-95 | two stored weights never end up under the same inference name |
| TransformerEval.LoadWeights | official/nlp/Transformer/eval.py:76-97 | every stored weight appears under its inference name and the decoder's embedding table aliases the shared one; a checkpoint without the shared table raises KeyError |
| TransformerEval.EmbeddingPresent | official/nlp/Transformer/eval.py:96-97 | the shared table is found exactly when a stored weight has its name |
| TransformerEval.ToParameters | official/nlp/Transformer/eval.py:99-102 | one parameter per weight, under the same key and named by it |
| TransformerEval.FirstBeam | official/nlp/Transformer/eval.py:141-142 | a rank-3 prediction keeps the first beam of each sentence, which fails with IndexError for a sentence without beams; a rank-2 prediction is kept |
| TransformerEval.BatchLines | official/nlp/Transformer/eval.py:140-144 | one batch gives `batch_size` lines |
| TransformerEval.OutputLines | official/nlp/Transformer/eval.py:139-144 | the file has `batch_size` lines per prediction |
| TransformerEval.LineRoundTrip | official/nlp/Transformer/eval.py:143-144 | a written line split on spaces reads back as the sentence's token ids |
| TransformerEval.WriteOutput | official/nlp/Transformer/eval.py:138-145 | the writing loop produces `OutputLines` of the predictions |
| TransformerEval.OutputStaysFailed | official/nlp/Transformer/eval.py:139-144 | a batch that raises ends the writing with its error |
| TransformerEval.OutputLineAt | official/nlp/Transformer/eval.py:139-144 | line `b * batch_size + i` holds row `i` of batch `b` |
| Yolov3Train.DefaultTMax | research/cv/yolov3_tiny/train.py:54-55 | `t_max` never decreases, a cosine schedule anneals over at least `max_epoch` epochs, and only that case changes it |
| Yolov3Train.ResumePlan | research/cv/yolov3_tiny/train.py:170-174 | the remaining and resumed epochs add up to `max_epoch`; a zero `resume_epoch` trains every epoch |
| Yolov3Train.ConvertTrainingShape | research/cv/yolov3_tiny/train.py:98-101 | a square `[n, n]` shape, or ValueError exactly when the text is not an integer |
| Yolov3Train.ConvertTrainingShapeOfInt | research/cv/yolov3_tiny/train.py:98-101 | the decimal text of `n` gives the shape `[n, n]` |
| Yolov3Train.StepsPerEpoch | research/cv/yolov3_tiny/train.py:240 | a zero `per_batch_size` raises ZeroDivisionError, and only it; otherwise the steps are the whole batches each device sees per epoch |
| Yolov3Train.CheckpointInterval | research/cv/yolov3_tiny/train.py:242-243 | a non-positive `ckpt_interval` becomes one checkpoint per epoch; a positive one is kept |
| Yolov3Train.DataPaths | research/cv/yolov3_tiny/train.py:58-63 | the image and annotation paths lie under `data_dir` |
| Yolov3Train.YoloConfig.constructor | research/cv/yolov3_tiny/train.py:52-95 | the configuration holds the given settings, with rank 0 of a group of 1 and nothing derived yet |
| Yolov3Train.YoloConfig.SetDefault | research/cv/yolov3_tiny/train.py:52-95 | `t_max` is raised for cosine annealing; a malformed `lr_epochs` raises ValueError with nothing else changed; otherwise `lr_epochs` is parsed, the data paths, distributed rank, save flag and output directory are set, and the other settings are kept |
| Yolov3Train.YoloConfig.SetPathsAndRank | research/cv/yolov3_tiny/train.py:58-91 | the data paths, rank, save flag and output directory are set and nothing else changes |
| Yolov3Train.YoloConfig.SetRank | research/cv/yolov3_tiny/train.py:73-87 | a distributed run takes its rank and group size from the collective layer; the save flag is 1 exactly when not saving on master only, or at rank 0 |
| Yolov3Train.YoloConfig.SetupTraining | research/cv/yolov3_tiny/train.py:158-179 | the epoch plan is `ResumePlan`; a non-empty training shape becomes the only scale or raises ValueError; nothing else changes |
| Yolov3Train.YoloConfig.SetSteps | research/cv/yolov3_tiny/train.py:240-243 | a zero `per_batch_size` raises with nothing set; otherwise `steps_per_epoch` and `ckpt_interval` are derived from the dataset size; nothing else changes |
| Yolov3Train.DeleteHeadKeys | research/cv/yolov3_tiny/train.py:197-205 | every key naming a detection head weight or bias is deleted and every other entry stays |
| Yolov3Train.PrepareFinetune | research/cv/yolov3_tiny/train.py:187-206 | optimizer moments are dropped, `yolo_network.` is stripped and the head parameters are removed; every loaded name traces back to a checkpoint entry |
| Yolov3Train.Logged | research/cv/yolov3_tiny/train.py:298-310 | no more entries are logged than iterations run, and a rank other than 0 logs nothing and never reads `lr`, so it never fails |
| Yolov3Train.LoggedSound | research/cv/yolov3_tiny/train.py:298-306 | every logged pair is a logging iteration with `lr[i - i_start]`, in increasing order |
| Yolov3Train.LoggedComplete | research/cv/yolov3_tiny/train.py:281-306 | on rank 0, every logging iteration of the run is logged |
| Yolov3Train.LoggedFails | research/cv/yolov3_tiny/train.py:298-306 | the loop fails exactly when the rank is 0 and some logging iteration lies beyond the schedule |
| Yolov3Train.LoggedStaysFailed | research/cv/yolov3_tiny/train.py:281-305 | once the loop has failed, later iterations do not run |
| Yolov3Train.EpochEnds | research/cv/yolov3_tiny/train.py:312-313 | no more epochs end than iterations run |
| Yolov3Train.TrainLoop | research/cv/yolov3_tiny/train.py:275-313 | a zero `log_interval` or `steps_per_epoch` with a batch to run raises ZeroDivisionError; otherwise the log is `Logged` for this rank from `resume_epoch * steps_per_epoch` and a saving rank's epoch counter starts at `resume_epoch + 1` and counts every epoch end |
| Yolov3Train.CountSteps | research/cv/yolov3_tiny/train.py:281-313 | the loop body gives this rank's log `Logged`, reading `lr` only on rank 0, and counts the epoch ends |
| ArtTrackDraw.CheckPointExcludesBorder | research/cv/ArtTrack/src/multiperson/visualize.py:38-42 | a point on the border of the area is outside it, as the comparisons are strict |
| ArtTrackDraw.HexValue | research/cv/ArtTrack/src/multiperson/visualize.py:191 | one digit of `int(s, 16)` has a value below 16, in either letter case |
| ArtTrackDraw.HexDigit | research/cv/ArtTrack/src/multiperson/visualize.py:191 | the digit spelled for a value below 16 parses back to that value |
| ArtTrackDraw.ParseColor | research/cv/ArtTrack/src/multiperson/visualize.py:191 | each channel parsed from `#RRGGBB` is a byte |
| ArtTrackDraw.ColorString | research/cv/ArtTrack/src/multiperson/visualize.py:160-191 | a byte triple is spelled as a well-formed `#RRGGBB` string |
| ArtTrackDraw.ParseColorString | research/cv/ArtTrack/src/multiperson/visualize.py:191 | parsing undoes spelling, so every byte triple is reachable |
| ArtTrackDraw.ColorStringOfParse | research/cv/ArtTrack/src/multiperson/visualize.py:191 | spelling undoes parsing for upper-case strings, so distinct palette strings give distinct colours |
| ArtTrackDraw.TrackColorsFirstEntry | research/cv/ArtTrack/src/multiperson/visualize.py:160-191 | the palette's first colour is the parse of `#F5591E` |
| ArtTrackDraw.CostMatrix | research/cv/ArtTrack/src/multiperson/visualize.py:207-211 | the smaller group of people is on the rows of the cost matrix |
| ArtTrackDraw.Oriented | research/cv/ArtTrack/src/multiperson/visualize.py:216-218 | when the previous frame was on the rows, each pair is swapped back to (current, previous) |
| ArtTrackDraw.Matches | research/cv/ArtTrack/src/multiperson/visualize.py:203-218 | every matched pair names a current and a previous person in range, and no current person is matched twice |
| ArtTrackDraw.FreeColors | research/cv/ArtTrack/src/multiperson/visualize.py:226-227 | the free colours are exactly the palette indices not inherited, in strictly decreasing order |
| ArtTrackDraw.UnmatchedBefore | research/cv/ArtTrack/src/multiperson/visualize.py:229-240 | the number of unmatched people before `p` is at most `p` |
| ArtTrackDraw.PersonLines | research/cv/ArtTrack/src/multiperson/visualize.py:243-253 | a person with fewer than three visible joints draws nothing; every drawn line is in the person's colour with both ends strictly inside the bounds |
| ArtTrackDraw.SegmentLines | research/cv/ArtTrack/src/multiperson/visualize.py:245-253 | at most one line per segment, each with both ends strictly inside the bounds |
| ArtTrackDraw.PersonDraw.constructor | research/cv/ArtTrack/src/multiperson/visualize.py:154-191 | the drawer starts without a previous frame and with the palette |
| ArtTrackDraw.PersonDraw.Draw | research/cv/ArtTrack/src/multiperson/visualize.py:193-256 | every person gets a palette colour: a close match inherits the previous colour and everyone else takes the smallest free one; the lines are those of people with enough visible joints; the frame becomes the previous one |
| ArtTrackDraw.DrawFrame | research/cv/ArtTrack/src/multiperson/visualize.py:200-253 | the body of `draw` gives the frame's colouring and lines for the previous frame passed in |
| ArtTrackDraw.FrameColorsFrom | research/cv/ArtTrack/src/multiperson/visualize.py:219-240 | the colouring loop's guarantees over the inherited colours give the frame's colouring |
| ArtTrackDraw.InheritColors | research/cv/ArtTrack/src/multiperson/visualize.py:220-222 | the loop over the matched pairs builds the inherited colours |
| ArtTrackDraw.ColorAndDraw | research/cv/ArtTrack/src/multiperson/visualize.py:229-253 | every person is coloured from the palette, inherited colours are kept, unmatched people take the free colours smallest first, and the lines are those of every drawable person |
| ArtTrackDraw.ColorStep | research/cv/ArtTrack/src/multiperson/visualize.py:231-240 | one person keeps an inherited colour or takes the next free one, keeping the loop invariant |
| ArtTrackDraw.TakesFreeAll | research/cv/ArtTrack/src/multiperson/visualize.py:233-235 | the `u`-th unmatched person takes the `u`-th smallest free colour while any remain |
| ArtTrackDraw.TakeFreeColor | research/cv/ArtTrack/src/multiperson/visualize.py:233-238 | the last free colour is taken when one is left; otherwise some palette index |
| ArtTrackDraw.InheritedSpec | research/cv/ArtTrack/src/multiperson/visualize.py:220-222 | each close pair gives its current person the previous person's colour, and nothing else is inherited |
| ArtTrackDraw.AllLinesUnchanged | research/cv/ArtTrack/src/multiperson/visualize.py:240-253 | colouring a later person does not change the lines of earlier ones |
| OcrMindrecord.StrippedLines | research/cv/crnn_seq2seq_ocr/src/create_mindrecord_files.py:35 | one entry per vocabulary line, each the line stripped of surrounding whitespace |
| OcrMindrecord.IndexMapDomain | research/cv/crnn_seq2seq_ocr/src/create_mindrecord_files.py:37 | every line is a key of `vocab`, and nothing else is |
| OcrMindrecord.IndexMapLast | research/cv/crnn_seq2seq_ocr/src/create_mindrecord_files.py:37 | a line that appears several times keeps the index of its last occurrence |
| OcrMindrecord.InitializeVocabulary | research/cv/crnn_seq2seq_ocr/src/create_mindrecord_files.py:25-52 | a missing file and more than 9999 lines raise ValueError, exactly 9999 are accepted; otherwise the result is the vocabulary the lines define |
| OcrMindrecord.VocabularyShape | research/cv/crnn_seq2seq_ocr/src/create_mindrecord_files.py:39-48 | the reverse table has 10000 entries, padded with empty strings, with the space last at index 9999 and `vocab[' '] == 9999` |
| OcrMindrecord.VocabularyRoundTrip | research/cv/crnn_seq2seq_ocr/src/create_mindrecord_files.py:35-48 | every key of `vocab` maps to a position where the reverse table holds that key |
| OcrMindrecord.SerializeAnnotation | research/cv/crnn_seq2seq_ocr/src/create_mindrecord_files.py:54-75 | a special label or a character outside the vocabulary gives `None`; otherwise go-id, the character ids and eos-id |
| OcrMindrecord.SerializedDecodes | research/cv/crnn_seq2seq_ocr/src/create_mindrecord_files.py:59-75 | a serialised label is two longer than the annotation and each character id decodes back through the reverse table |
| OcrMindrecord.ParseAnnotationLine | research/cv/crnn_seq2seq_ocr/src/create_mindrecord_files.py:94-95 | a line without a tab raises IndexError; otherwise the file name is the text before the first tab, and the label is `split('\t')[1].split('\n')[0]`: the text right after that tab up to the next tab or newline |
| OcrMindrecord.LabelledImagesKept | research/cv/crnn_seq2seq_ocr/src/create_mindrecord_files.py:92-106 | only existing images with a non-empty label are kept, never more than the lines |
| OcrMindrecord.LabelledImagesNeedTabs | research/cv/crnn_seq2seq_ocr/src/create_mindrecord_files.py:94-95 | the lines are read without error exactly when every line has a tab |
| OcrMindrecord.Numbered | research/cv/crnn_seq2seq_ocr/src/create_mindrecord_files.py:102-106 | the kept pairs get ids 0, 1, ... in order, and both dicts map exactly those ids to the pair's path and label |
| OcrMindrecord.CreateFsnsLabel | research/cv/crnn_seq2seq_ocr/src/create_mindrecord_files.py:77-108 | a missing image directory raises ValueError, a line without a tab IndexError; otherwise the kept pairs numbered from 0 in line order |
| OcrMindrecord.MakeTrainRecord | research/cv/crnn_seq2seq_ocr/src/create_mindrecord_files.py:148-166 | a label longer than `max_length` is skipped; a negative mask length raises ValueError; otherwise the input is the label padded with zeros, the mask has `label_len - go_shift` ones then zeros, and the target is the input shifted left by one |
| OcrMindrecord.EncodeTrainSample | research/cv/crnn_seq2seq_ocr/src/create_mindrecord_files.py:138-166 | annotations longer than `max_length - 2` and labels that do not serialise are skipped; otherwise the record is built from the serialised label, and is never skipped for length |

## Left out

- File and directory I/O, printing and logging, and timing and fps figures are not modelled. A file system appears as a parameter: a listing, lines or an existence predicate.
- Results of foreign calls are inputs or function parameters:
  - munkres matching and `cdist` (ArtTrack);
  - sklearn `roc_auc_score` and `merge_sliced_parameter` (FiBiNET);
  - the tokenizer and the network's logits (PanGu, CPM, Transformer);
  - `NmsSort` (TextFuseNet);
  - the MindRecord writer;
  - the classifier's `Init`/`Process` (SKNet);
  - Android `Bitmap` resampling.
- Floating-point numerics are not modelled, and values are `real`:
  - softmax and loss values;
  - float32/fp16 casts, including StepLr's float32 array conversion;
  - NaN handling, except where SiamRPN's `Overlap` keeps NaN and infinity apart.
- The cosine of DarkNet-53's annealing is an uninterpreted parameter `cosPi`.
- Network `construct` methods, tensor operations and the network graphs are not modelled. This covers the GloRe units and blocks, which are descriptors only, and the MobileNetV2 layers and loss.
- Training and evaluation drivers around the modelled parts are not modelled:
  - context setup and distributed init;
  - moxing/OBS copies;
  - `model.train`/`model.eval`;
  - DGU training and evaluation;
  - GAT network training and test evaluation;
  - the ModelArts unzip pre-processing of YOLOv3-tiny;
  - its profiler break;
  - AlphaPose's reload and export calls, of which only the checkpoint names are modelled.
- Randomness is modelled as a nondeterministic choice or an input, never as a distribution:
  - PanGu's token sampling is a nondeterministic choice among the vocabulary;
  - ArtTrack's random colour once the palette is exhausted is a nondeterministic choice;
  - FCN8s line shuffling is an input;
  - E-NET augmentation (random crop, blur, flip) is not modelled.
- E-NET's dataloader construction is not modelled. `cityscapes_datapath` is not modelled separately because its listing is that of `cityscapes`.
- FaceRecognitionForTracking: the zeroing of NaN similarity scores (eval.py:190-192) is not modelled.
- SiamRPN: the polygon (8-number ground truth) overlap path and `np.nanmean` are not modelled. The `mean` used by `calculate_expected_overlap` is a parameter. The fragment weights are exact reals: `seq_weight`, the `1e-16` term and their float32 storage are not rounded.
- TextFuseNet:
  - `COORDINATE_PARAM`, defined in a header outside this model, is taken as 2;
  - `ReadConfigParams`, `Init`, `DeInit`, `Process` and `CheckAndMoveTensors` are not modelled, because they are configuration reading and framework calls;
  - the ranks of the class and mask tensors, which the C++ indexes unchecked, are required.
- ArtTrack: the palette is written as parsed RGB values, and only its first entry is related to its string. `visualize_joints`, `show_heatmaps`, `show_arrows` and `visualize_detections` are plotting only and are not modelled; `check_point` is.
- OCR: the validation writer, the `create_mindrecord` driver and the image bytes are not modelled. Only the record layout is.
- FCN8s: a sample holds the paths of its two files instead of their bytes.
- AlexNet: writing the label JSON file is not modelled.
- ResNeXt: conversions between strings and floats are parameters, as `show` and `parse` functions.
- SKNet: the `uint32_t` wrap of the loop index beyond the guard is not modelled.
- UniSiam: `adjust_learning_rate` is not modelled, because it is cosine float arithmetic.
- Strings.ParseInt: does not accept `_` digit separators or non-ASCII decimal digits, which Python's `int()` accepts; only ASCII decimal literals are modelled.
- Strings.Lower: lowers ASCII letters only, while Python's `str.lower()` is Unicode-aware.
- Strings.IsDigit: accepts ASCII digits only, while `re`'s `\d` (used by FaceRecognitionForTracking's object-id split) also matches other Unicode decimal digits.
- ImageUtils.FillBuffer: the Java `int` overflow of `width * height * 3 * 4` is not modelled; sizes are unbounded integers.
- Mobilenetv2Models.Monitor.constructor: sets `losses` to the empty list, which `Monitor.__init__` leaves unset until `epoch_begin`; a `step_end` before `epoch_begin` would raise AttributeError in the source.
- ImageUtils.BitmapToByteBuffer: requires `std != 0`. Java float division by zero would give infinities, which `real` cannot express.

## Findings

| source | as written | input that shows it | evidently intended | confidence | as-written member | corrected member |
|---|---|---|---|---|---|---|
| official/lite/style_transfer/app/src/main/java/com/mindspore/styletransferdemo/ImageUtils.java:166-172 | `bitmapToByteBuffer` scales to (width, height) with the two swapped, then reads width x height pixels | any non-square size, e.g. width 2, height 1: `getPixels` runs past the scaled bitmap | scale to the requested width and height, so every size succeeds | not executed | ImageUtils.BitmapToByteBuffer | ImageUtils.BitmapToByteBufferIntended |
| research/nlp/luke/src/reading_comprehension/dataProcessing.py:118-119 | with `no_entity`, `fill_(0)` is called on a Python list, which has no such method | one feature with one entity and `no_entity` set: AttributeError | the entity attention mask becomes all zeros | not executed | LukeCollate.NoEntityFails | LukeCollate.CollateAgreesWithoutNoEntity |
| research/cv/FaceQualityAssessment/eval.py:59 | the row of heatmap cell `k` is `int(k / 48 * 2.0)` under true division | cell 47 (row 0, column 47) gives (94, 1) | (2 * column, 2 * row), i.e. (94, 0) | not executed | FaceQualityEval.KeypointCoordAsWrittenExample | FaceQualityEval.KeypointCoordCell |
| research/cv/sknet/infer/mxbase/src/main.cpp:74 | the guard `i <= size() - BATCH_SIZE` subtracts in `size_t`, which wraps below 32 | a directory with 5 images enters the loop and slices past the end | no batch when fewer than 32 images are found | not executed | SknetMain.AsWrittenGuardEntersWithFewImages | SknetMain.FewImagesProcessNothing |
| research/cv/FCN8s/src/data/build_seg_data.py:47-49 | a destination without `/` gives the directory `''`, and `os.makedirs('')` raises | `--dst_path out.mindrecord` | write into the working directory | not executed | Fcn8sSegData.BareFileNameFailsAsWritten | Fcn8sSegData.DestinationSetupAgrees |
