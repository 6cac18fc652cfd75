# Neural style transfer: a Dafny model of its exact rules

This project models the parts of a TensorFlow neural style-transfer program whose behaviour can be stated exactly, and proves properties of them. It also models a small script that samples frames from a video clip.

From `model.py` it models:
- the element-wise kernels `clip_0_1` and `mse`;
- the style descriptor `gram_matrix`;
- the layer loss `calculate_loss`;
- the output partitioning of `StyleContentModel.call`;
- how `StyleTransfer.__init__` accumulates style targets;
- the `StyleTransfer.train` loop: it records both losses at every step, lets the optimizer move the image, clips it back into [0, 1], and names a zero-padded snapshot per epoch.

From `transfer-learning/create_images.py` it models:
- the `HH:MM:SS` parser `convert_time_to_sec`;
- the sampling loop of `create_images`, which decides which instants of the clip are read and under which file name each frame is saved.

Numbers are exact `real`s and unbounded `int`s. Modelling choices:
- Tensors are sequences of reals in row-major order. Feature maps keep their batch × position × channel structure.
- A Python dict is an insertion-ordered sequence of entries with distinct keys (`Dicts`).
- Python's `str(n)`, the format spec `0>width`, `int()`, `str.split` and string `<` are written out in `Text`.
- The VGG19 backbone with `preprocess_input` is a function-valued field of the extractor.
- The gradient tape and the Adam optimizer form one function. It maps the images the optimizer has consumed so far, current one last, to the next image.
- The video is a predicate saying whether a read at a given position succeeds.
- `time.time()` is a parameter of `Train`.
- The training loop is written once, generically, as `Transfer.RunTraining`, `Transfer.RunEpochs` and `Transfer.RunSteps`. It is specified by the function `Transfer.Steps`. The class method `Transfer.StyleTransfer.Train` runs that loop on the object's losses, optimizer and `clip_0_1`, then writes the new image and optimizer state back into its fields.

Modules (one file each): `Wrappers`, `Dicts`, `Text`, `Kernels`, `GramMatrix`, `Losses`, `Extraction`, `Targets`, `Transfer`, `FrameSampling`.

## Model

| member | source | states |
|---|---|---|
| Dicts.Set | model.py:197-203 | `d[k] = v`: a present key keeps its position, a new key goes last; `k` now maps to `v` and every other key keeps its value |
| Dicts.FromPairs | model.py:165-169 | a dict comprehension has exactly the keys of the pairs it iterates |
| Dicts.FromDistinctPairs | model.py:165-169 | with distinct keys the comprehension keeps every pair, in order |
| Text.Decimal | model.py:271 | `str(n)` of a natural number is a non-empty digit string without a leading zero (unless n = 0) |
| Text.DecimalValue | model.py:271 | the digits of `str(n)` denote n |
| Text.DecimalInjective | transfer-learning/create_images.py:33 | distinct numbers have distinct `str()` texts |
| Text.DecimalLengthMonotone | model.py:271 | a smaller number never has a longer `str()` |
| Text.PadZeros | model.py:277 | `0>width` left-pads with '0' up to `width` characters and keeps the text as its suffix |
| Text.ParseIntToString | transfer-learning/create_images.py:54 | `int(str(n)) == n` for every integer, negative ones included: `ParseInt` (Python's `int()` on text) inverts `IntToString` (`str()` of an `int`) |
| Text.ParsePadded | transfer-learning/create_images.py:54 | `int()` ignores zero padding: the padded text of n reads back as n |
| Text.Split | transfer-learning/create_images.py:53 | `s.split(sep)` yields one more field than there are separators, none containing the separator |
| Text.JoinSplit | transfer-learning/create_images.py:53 | splitting loses nothing: joining the fields with the separator gives the text back |
| Text.SplitJoin | transfer-learning/create_images.py:53 | separator-free fields come back from splitting their join |
| Text.StrLessIrreflexive | model.py:277 | Python string `<` is irreflexive |
| Text.StrLessAsymmetric | model.py:277 | Python string `<` is asymmetric |
| Text.DigitsOrder | model.py:277 | for digit strings of equal length, numeric order implies string order (what zero padding buys) |
| Kernels.Clip01 | model.py:9-19 | the result has the input's length and lies in [0, 1]; in-range elements are kept, and each element is the nearest point of [0, 1] to the input element |
| Kernels.Clip01Idempotent | model.py:19 | clipping twice equals clipping once |
| Kernels.Clip01FixedPoints | model.py:19 | clipping leaves a tensor unchanged if and only if it already lies in [0, 1] |
| Kernels.SumSquaredDiff | model.py:32 | the sum of squared differences is non-negative, zero exactly when the tensors are equal |
| Kernels.SumSquaredDiffSymmetric | model.py:32 | the sum of squared differences is symmetric |
| Kernels.Mse | model.py:21-32 | `mse` is non-negative and is zero if and only if x = y |
| Kernels.MseSymmetric | model.py:32 | `mse(x, y) == mse(y, x)` |
| GramMatrix.Gram | model.py:85-105 | one channels × channels matrix per batch entry; entry (c, d) is `SpatialSum`, the sum over all positions of channel c times channel d, divided by height × width |
| GramMatrix.SpatialSumSymmetric | model.py:96 | the spatial sum of channel products is symmetric in the two channels |
| GramMatrix.SpatialSumDiagonal | model.py:96 | a channel's spatial sum with itself is non-negative |
| GramMatrix.SpatialSumAppend | model.py:96 | the spatial sum over two position lists is the sum of the two spatial sums |
| GramMatrix.GramSymmetric | model.py:96-103 | entry (c, d) equals entry (d, c) for every batch entry |
| GramMatrix.GramDiagonalNonNegative | model.py:96-103 | every diagonal entry is non-negative |
| GramMatrix.GramResolutionInvariant | model.py:99-103 | the division by height × width makes the descriptor independent of spatial extent: a map stacked twice has the same Gram matrix |
| Losses.LayerMses | model.py:120 | the per-layer MSE list succeeds iff every output has a non-empty target of the same flattened length, and then holds `mse(output, targets[name])` in iteration order; otherwise it fails at the first offending entry, with `MissingTarget` for a name the targets lack and `ShapeMismatch` otherwise |
| Losses.CalculateLoss | model.py:107-123 | no outputs is an error; success iff outputs are non-empty and each matches a target, so every output name is a key of the targets |
| Losses.LayerMsesTotal | model.py:120-121 | when every output matches a target, the per-layer list exists and its `add_n` equals `MseTotal`: each output's MSE against the target of its own name, added up over the outputs |
| Losses.CalculateLossValue | model.py:119-122 | the loss is weight × `MseTotal` / len(targets), dividing by the number of targets rather than of outputs, with len(targets) > 0 |
| Losses.CalculateLossNonNegative | model.py:119-122 | with a non-negative weight the loss is non-negative |
| Losses.ZeroLossAtTargets | model.py:119-122 | outputs equal to their targets give loss 0 |
| Losses.ZeroLossAgainstItself | model.py:107-123 | a non-empty dict of non-empty tensors measured against itself gives loss 0 |
| Losses.TwoLayerLoss | model.py:119-122 | two layers with MSEs a and b against two targets give weight × (a + b) / 2 |
| Extraction.SplitPoint | model.py:159-160 | the slices `outputs[:n]` and `outputs[n:]` split at `num_style_layers`, or at the end of a shorter output list |
| Extraction.Call | model.py:144-171 | `Outputs` is the backbone applied to 255 × inputs, and the style outputs are Gram-transformed one by one; the style dict's keys are the style layers zipped with the style prefix; the content dict's keys are the content layers zipped with the remaining outputs |
| Extraction.CallStyle | model.py:159-169 | with distinct style layers and enough outputs, the style dict holds, in layer order, the Gram matrix of output i under `style_layers[i]` |
| Extraction.CallContent | model.py:159-166 | with one output per layer, the content dict holds output `len(style_layers) + j`, unchanged, under `content_layers[j]` |
| Extraction.CallLookup | model.py:159-169 | looking up any style or content layer by name gives that Gram matrix or that output |
| Targets.EmptyLists | model.py:197-199 | after the first loop every style layer maps to an empty list, and no other key exists |
| Targets.EmptyListsOrder | model.py:197-199 | with distinct layer names the lists come in layer order |
| Targets.AppendEach | model.py:202-203 | appending one image's style dict keeps the key set |
| Targets.AppendEachGet | model.py:202-203 | each list grows by exactly the values the style dict holds under its key |
| Targets.Accumulated | model.py:200-203 | the accumulated dict has exactly the style layers as keys |
| Targets.AccumulatedGet | model.py:200-203 | every layer's list holds what each style image contributed to it, in image order |
| Targets.CollectedGrams | model.py:200-203 | `style_layers[i]` collects exactly the Gram matrix of output i of every image |
| Targets.OneGramPerImage | model.py:197-203 | after accumulation the lists come in style-layer order and each holds exactly one Gram matrix per style image, in input-image order |
| Targets.MakeEmptyLists | model.py:198-199 | the first loop of the constructor builds the empty lists specified by `EmptyLists` |
| Targets.AppendStyleTarget | model.py:202-203 | the inner loop appends one image's style dict as `AppendEach` specifies |
| Targets.AccumulateStyleTargets | model.py:197-203 | the nested loops build exactly `Accumulated` |
| Targets.ElementwiseMean | model.py:204 | the mean exists iff the list is non-empty and all tensors have one length, and then has that length |
| Targets.MeanOfCopies | model.py:204 | averaging copies of one tensor gives it back |
| Targets.MeanOfTwo | model.py:204 | with two style images each target entry is the midpoint of the two |
| Targets.AverageTargets | model.py:204 | averaging succeeds iff every list can be averaged, keeps the keys, and replaces each list by its mean |
| Targets.SingleImageTargets | model.py:197-204 | with one style image each layer's target is that image's Gram matrix for the layer |
| Transfer.SnapshotPaths | model.py:275-280 | one snapshot path per epoch run |
| Transfer.SnapshotPathsAt | model.py:274-280 | snapshot e is the path for epoch e |
| Transfer.SnapshotPathsSorted | model.py:277-280 | the snapshot paths of a run are sorted by name in epoch order |
| Transfer.EpochLabelWidth | model.py:271-277 | every epoch label of a run (`EpochLabel`, the epoch formatted `0>width`) is exactly `EpochWidth` = `len(str(epochs-1))` characters wide |
| Transfer.EpochLabelParses | model.py:277 | an epoch label reads back as its epoch number |
| Transfer.EpochLabelOrder | model.py:271-277 | within a run, label order is epoch order, in both directions |
| Transfer.LabelDigits | model.py:277 | an epoch label is all digits and denotes its epoch |
| Transfer.SnapshotPathOrder | model.py:277 | snapshot file names of one run (`SnapshotPath`, `outputs/gif_output/Image{time_start}_{label}.jpg`) compare as their epochs do |
| Transfer.StepsBeforePlanned | model.py:274-283 | the steps run before epoch e are e × steps_per_epoch and never exceed epochs × steps_per_epoch |
| Transfer.StepsCount | model.py:283-287 | both loss lists grow together, one optimizer input per recorded loss, n of each unless a step failed; earlier history is kept |
| Transfer.StepsAfterFailure | model.py:284 | once a step has raised, later steps change nothing |
| Transfer.StepsFailAt | model.py:284 | a step whose losses cannot be computed records the error and stops the run where it is |
| Transfer.StepsNoProgress | model.py:283-290 | without a step taken the image has not moved |
| Transfer.StepsCurrentImage | model.py:289-290 | after a step the image is the clipped optimizer output for the images consumed |
| Transfer.StepsTrajectory | model.py:283-290 | step k records the losses of the k-th image given to the optimizer; that image is the start image for k = 0 and the clipped optimizer output for the earlier images otherwise |
| Transfer.StepsInUnitRange | model.py:290 | with `clip_0_1`, every image the optimizer produced lies in [0, 1] |
| Transfer.RunSteps | model.py:283-290 | the inner loop ends in the state `Steps` (the recursive specification of n steps: record both losses, feed the optimizer, clip) gives after `max(steps_per_epoch, 0)` more steps, or at the failing step |
| Transfer.RunEpochs | model.py:274-290 | the epoch loop ends in the state of `epochs × steps_per_epoch` steps, or at the first failing step; the paths list one snapshot per epoch when `visuals` is set |
| Transfer.RunTraining | model.py:258-304 | `train`: epochs without steps fail on `style_losses[-1]`; otherwise the result is the first loss error, or the final image with exactly epochs × steps_per_epoch entries in each loss list and the snapshot paths; once the image has moved it is the clipped optimizer output |
| Transfer.StepLosses | model.py:244-255 | a step's losses succeed iff both the content loss (`ContentLoss`, `calculate_loss` of the flattened content outputs against the content targets) and the style loss (`StyleLoss`, the same for the flattened Gram matrices) do, the content loss being computed first |
| Transfer.ContentLossAtContentImage | model.py:232-242 | the content targets being the content image's own content outputs, the content image has content loss 0 |
| Transfer.SingleImageStyleOutputs | model.py:197-204 | with one style image, its own flattened style outputs are exactly the averaged style targets |
| Transfer.StyleLossAtStyleImage | model.py:220-230 | with one style image, that image has style loss 0 against the targets built from it |
| Transfer.StepLossesNonNegative | model.py:249-250 | with non-negative weights both reported losses are non-negative |
| Transfer.StyleTransfer.constructor | model.py:174-218 | the extractor, the averaged style targets, the content targets, the weights, the optimizer and the image are set as `__init__` sets them, and `train_step` is the loss report of these fields |
| Transfer.StyleTransfer.Train | model.py:258-304 | with the defaults epochs = 60, steps_per_epoch = 25 and visuals = False, and the fields linked by `Valid` before and after: the image and optimizer state end where `Steps` leaves them, the outcome is as `RunTraining` states, and after any step the image lies in [0, 1] |
| FrameSampling.ConvertTimeToSec | transfer-learning/create_images.py:41-54 | a field-count error iff the text does not hold exactly two ':'; an `int()` error names an unparsable field; success iff three fields all parse |
| FrameSampling.ConvertTimeText | transfer-learning/create_images.py:53-54 | the zero-padded `HH:MM:SS` text of (h, m, s) reads back as h×3600 + m×60 + s |
| FrameSampling.SplitThree | transfer-learning/create_images.py:53 | three colon-free fields joined by ':' split back into those fields |
| FrameSampling.ClockTime | transfer-learning/create_images.py:53-54 | any two-digit `HH:MM:SS` text gives hours×3600 + minutes×60 + seconds |
| FrameSampling.ExampleStart | transfer-learning/create_images.py:60 | "00:02:43" gives 163 |
| FrameSampling.ExampleEnd | transfer-learning/create_images.py:61 | "00:09:06" gives 546 |
| FrameSampling.SecondsNotRangeChecked | transfer-learning/create_images.py:54 | "00:00:75" is accepted and gives 75 |
| FrameSampling.MissingFieldRejected | transfer-learning/create_images.py:53 | "02:43" fails the unpacking with two fields |
| FrameSampling.AttemptsUpTo | transfer-learning/create_images.py:29-36 | k loop passes make k attempts |
| FrameSampling.AttemptAt | transfer-learning/create_images.py:30-35 | attempt k seeks `PositionMs` = `k*rate*1000 + start*1000` ms and writes `FrameName` = `frame{k}.jpg` exactly when that read succeeds |
| FrameSampling.TimeAtLinear | transfer-learning/create_images.py:27-36 | with exact arithmetic, `curr_time` after k passes is start + k × rate |
| FrameSampling.AttemptsStopRule | transfer-learning/create_images.py:29 | the loop guard holds for counter value k exactly when k is a scheduled attempt |
| FrameSampling.CreateImages | transfer-learning/create_images.py:3-38 | with the default num_imgs = 10, errors come in source order (start time, end time, division by `num_imgs == 0`); otherwise the attempts are the schedule |
| FrameSampling.SampleFrames | transfer-learning/create_images.py:24-36 | the while loop makes exactly the scheduled attempts, in order |
| FrameSampling.AttemptsBounded | transfer-learning/create_images.py:29 | at most `num_imgs` attempts, none when end ≤ start, exactly `num_imgs` when end > start and `num_imgs` > 0 |
| FrameSampling.RatePositive | transfer-learning/create_images.py:24 | with a non-empty schedule the sampling rate (`SamplingRate`, (end − start) / num_imgs) is positive and `num_imgs` rates span the clip |
| FrameSampling.PositionsIncreasing | transfer-learning/create_images.py:30 | later attempts seek strictly later positions |
| FrameSampling.PositionsInClip | transfer-learning/create_images.py:29-30 | every sought position lies in [start, end) seconds, in milliseconds |
| FrameSampling.FrameNameInjective | transfer-learning/create_images.py:33 | different counter values name different files |
| FrameSampling.FailedReadLeavesGap | transfer-learning/create_images.py:31-35 | after a failed read at attempt k no attempt writes `frame{k}.jpg`, leaving a gap in the numbering |
| FrameSampling.ExampleSchedule | transfer-learning/create_images.py:57-64 | the example run makes 10 attempts, the first at 163000 ms and the last at 507700 ms |

## Left out

- The VGG19 backbone, `preprocess_input`, `vgg_layers_pretrained`, `vgg_layers_custom`, the `IOError` fallback and the rest of `StyleContentModel.__init__` (model.py:34-83, 126-142) are model loading and foreign calls. The backbone is a function parameter, and only the number of style layers is used.
- The gradient tape, the Adam update with its moments, and the total variation term (model.py:246-254, 289) are library numerics. One optimizer function of the images consumed so far stands for them. `total_variation_weight` is stored but only feeds that function.
- The legacy-Adam platform check (model.py:210-213) is left out: both branches build the same optimizer as far as this model is concerned.
- `helpers.avg_gram` is not part of this model. It is taken to be the element-wise mean of each layer's flattened Gram matrices, failing on an empty list or mixed lengths.
- Transfer.StyleTransfer.constructor: requires that this averaging succeeds, since what `avg_gram` does otherwise is unknown.
- Snapshot JPEG writing, GIF assembly, `plot_losses` and all console output (model.py:278-279, 282, 292-302) are I/O. The paths the snapshots would be written to are kept in the result.
- `time.time()` is a parameter of `Train`.
- The snapshot written at epoch 0 before the empty-report failure is not represented, as no file writes are.
- Transfer.StyleTransfer.Train: the fields are written back once the loop has ended rather than at every step, because the loop runs as a generic method over values. Between steps nothing else can observe the fields.
- Losses.LayerMses: an output and its target are compared as flat tensors, so equal element counts are enough; two tensors of different shapes but equal size would make TensorFlow broadcast or raise, and that is not modelled.
- Kernels.Mse: requires equal, non-empty lengths. TensorFlow broadcasting of compatible shapes is not modelled, and an empty tensor would give NaN rather than an error.
- GramMatrix.Gram: takes feature maps with positive height and width only, since a zero-size map divides by zero and gives NaN.
- `int()` in `Text.ParseInt` accepts an optional sign and ASCII digits only. Surrounding whitespace, `_` separators and non-ASCII digits are not modelled.
- Float rounding is not modelled: every tensor value, the sampling rate and the `curr_time` accumulation are exact reals. With floats the accumulated `curr_time` may differ from the exact schedule in the last comparison.
- Opening and releasing the video, the initial seek at transfer-learning/create_images.py:23, and `cv2.imwrite` are I/O. The video is a predicate saying whether a read at a position succeeds, and a write is the name recorded in the attempt.
- The `__main__` block of create_images.py is represented by its example values only (ExampleStart, ExampleEnd, ExampleSchedule).
- `transfer_learning.py` (the transfer-learning classifier and its training) is not part of this model.
