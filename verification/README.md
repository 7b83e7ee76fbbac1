# EasyAI object detectors — a Dafny model

EasyAI wraps two pretrained ONNX object detectors behind a `DetectObjects(imageBytes, minScore)` call:
a two-stage Faster R-CNN detector (`FasterRCNNDetector`, plus the older, unreachable `FasterRCNN`
class) and a single-stage YOLOv3 detector (`YoloV3Detector`). This project models the arithmetic and
bookkeeping around the inference engine:

- **Letterbox geometry** (`Geometry`): the fit ratio `min(D/W, D/H)` with D = 800 or 416, the
  truncated resized size, and the border widths `(D - s) / 2` and `(D + 1 - s) / 2` under C#'s
  truncating division (`Numeric.Half`). For a side in `[0, D]` the padded side is exactly D, and any
  odd pixel goes to the bottom or right. `Letterbox` composes these with a black `CopyMakeBorder`.
- **Tensor layout** (`Tensors`): row-major dense tensors with rank- and range-checked multi-index
  reads. The channel-planar fill `[c, y, x] = pixel(y, x)[c] / divisor` uses divisor 1 for Faster
  R-CNN and 255 for YOLO. YOLO's reshape adds a batch axis of one.
- **Result decoders** (`FasterRcnnDecode`, `YoloDecode`). Faster R-CNN keeps index `i` iff
  `confidences[i] >= minScore`. Its key is `(Labels[labels[i]], confidences[i])` and its box is the
  truncation of `boxes[4i .. 4i+3]`. YOLO reads each row `(batch, class, box)` of the index tensor,
  takes the confidence at `[batch, class, box]` and the box at `[0, box, 0..3]`, and never reads
  `minScore`.
- **Prediction aggregate** (`ObjectDetectorPrediction`, `FasterRcnnPrediction`, `Ranking`):
  - a map from `ObjectClass` to `Rect` with insert-if-absent (`TryAdd`) and a count;
  - a top-n query over a stable descending sort by confidence;
  - `ObjectDetectorPrediction` rejects `n < 0` and `n > count`;
  - `FasterRCNNPrediction` follows LINQ `Take` instead.
- **Detector facades** (`FasterRcnnDetector`, `YoloV3Detector`, `FasterRcnnLegacy`):
  - the model-path check and the null-bytes check;
  - the `MODEL_INPUTS` binding state machine: the first call binds, later calls replace only the
    tensor;
  - the composition decode → letterbox → tensor → bind → run → decode.

Foreign code appears only as function parameters:
- OpenCV's `ImDecode` as `decode`;
- `Resize` resampling as `resample`;
- `InferenceSession.Run` as `run`;
- the label table as a `map<int, string>`.

The loops that insert detections are modelled as one generic sequential fold,
`ObjectDetectorPrediction.Populate`. An exception in any iteration aborts the call. In the model it
is a `Result` failure: `IndexOutOfRange`, `KeyNotFound`, `EmptyImage`, `ArgumentNull` or
`ArgumentOutOfRange`.

Points where the code departs from what its names and comments suggest:
- The Faster R-CNN tensor is the raw byte values. The `MEAN` constants are declared and never used,
  so no mean is subtracted.
- `DetectObjects` rejects only null bytes. Empty bytes go on to `ImDecode`. What `ImDecode` makes of
  them is decided by the `decode` parameter. When the decoded frame has no rows or no columns, both
  `DetectObjects` contracts state that the call fails with `EmptyImage` and leaves the detector
  unchanged. This is where OpenCV refuses to resize.
- Only `ObjectDetectorPrediction.TopObjectClasses` range-checks `n`.
- YOLO ignores `minScore`, although Common/IObjectDetector.cs:14 documents it as a minimum confidence.

Two readings of ONNX Runtime's `Tensor<T>` indexer are assumed here; "## Left out" says what a
stride-based indexer would do instead:
- A one-integer index into a Faster R-CNN output tensor is read as a flat offset.
- A multi-index read fails unless the rank matches and every coordinate is inside its dimension.

## Model

| member | source | states |
|---|---|---|
| ObjectClasses.Accessors | Common/ObjectClass.cs:7-10 | `ClassName` and `Confidence` give back the constructor's name and confidence |
| ObjectClasses.KeyEquality | Common/ObjectClass.cs:5 | two keys are equal iff both names and confidences are equal (tuple value equality) |
| ObjectDetectorPrediction.CollidingDetections | Common/ObjectClass.cs:5-10 | two detections with equal name and confidence collide whatever their boxes: the second insertion leaves the prediction as the first made it |
| ObjectDetectorPrediction.AddDetectedObject | Common/ObjectDetectorPrediction.cs:23-26 | an absent key is inserted with its box and the count grows by one; a present key leaves the prediction unchanged; other keys' entries never change |
| ObjectDetectorPrediction.PopulateKeys | Common/ObjectDetectorPrediction.cs:48 | after a run of insertions, the stored keys are exactly the offered keys, so the count is the number of distinct offered keys |
| ObjectDetectorPrediction.DistinctOffersAllStored | Common/ObjectDetectorPrediction.cs:25 | N insertions with pairwise distinct keys leave exactly N entries; no insertion is lost |
| ObjectDetectorPrediction.Ranked | Common/ObjectDetectorPrediction.cs:60 | the ranking of the keys is duplicate-free, holds exactly the stored keys, is as long as the count, and has non-increasing confidence |
| ObjectDetectorPrediction.TopObjectClasses | Common/ObjectDetectorPrediction.cs:55-61 | fails with out-of-range iff `n < 0` or `n > count`; otherwise returns n distinct stored keys in non-increasing confidence, and every key left out has confidence at most that of every key returned |
| Ranking.OrderByDescending | Common/ObjectDetectorPrediction.cs:60 | the sort returns a permutation (multiset-equal) of its input in non-increasing confidence order |
| Ranking.SortKeepsDistinct | FasterRCNN/FasterRCNNPrediction.cs:40 | sorting a duplicate-free enumeration of keys yields no duplicates |
| Ranking.TakeOfSorted | FasterRCNN/FasterRCNNPrediction.cs:40 | a prefix of the sorted keys is sorted, duplicate-free, drawn from the keys, and dominates every key it leaves out |
| FasterRcnnPrediction.AddDetectedObject | FasterRCNN/FasterRCNNPrediction.cs:21-24 | insert-if-absent: the key ends up stored with the first box ever stored under it, other keys are untouched, and the count grows by one exactly when the key was absent |
| FasterRcnnPrediction.TopObjectClasses | FasterRCNN/FasterRCNNPrediction.cs:38-40 | never fails; returns `min(max(n, 0), count)` distinct stored keys in non-increasing confidence, dominating every key left out |
| ObjectDetectorPrediction.Populate | FasterRCNN/FasterRCNNDetector.cs:106-117 | the insertion loop succeeds iff no iteration raises, and stores at most one entry per iteration |
| ObjectDetectorPrediction.PopulateFirstWriter | FasterRCNN/FasterRCNNDetector.cs:105-117 | in the sequential loop each key holds the box of the lowest index that offered it |
| ObjectDetectorPrediction.PopulateBoxesOffered | YoloV3/YoloV3Detector.cs:98-111 | whatever the insertion order, every stored box is the box some iteration offered under that key |
| Numeric.Trunc | FasterRCNN/FasterRCNNDetector.cs:114 | the `(int)` cast gives the integer next to the value on the side of zero, and that integer is the only one that does |
| Numeric.Half | YoloV3/YoloV3Detector.cs:59-62 | C# `a / 2` truncates toward zero: the remainder has the sign of `a` and magnitude at most 1 |
| Session.CheckModelPath | YoloV3/YoloV3Detector.cs:36-37 | a null or empty path fails with argument-null; any other path leaves the input list as one null slot |
| FasterRcnnDetector.FromModelFile | FasterRCNN/FasterRCNNDetector.cs:33-39 | the path constructor fails with argument-null iff the path is null or empty; otherwise the inputs start unbound |
| Geometry.FitRatio | FasterRCNN/FasterRCNNDetector.cs:55 | in exact arithmetic the ratio is non-negative, both scaled sides are at most D, and at least one equals D |
| Geometry.ResizedSize | FasterRCNN/FasterRCNNDetector.cs:55-56 | the truncated resized sides are at most D and one of them is exactly D |
| Geometry.Border | FasterRCNN/FasterRCNNDetector.cs:57-62 | for a side in [0, D] both borders are non-negative and side + top + bottom == D |
| Geometry.BorderSplit | FasterRCNN/FasterRCNNDetector.cs:58-61 | the top/left border is the floor of half the slack, and the bottom/right border exceeds it by one exactly when the slack is odd |
| Geometry.Letterbox | FasterRCNN/FasterRCNNDetector.cs:53-62 | succeeds iff the frame and its resized sides are nonempty; the result is D x D with the resized image at offset (floor((D-h)/2), floor((D-w)/2)) and black elsewhere |
| Geometry.WorkedExamples | FasterRCNN/FasterRCNNDetector.cs:55-61 | 1000 x 500 gives ratio 0.8, size 800 x 400, borders 200/200; a height of 399 gives borders 200/201 |
| FasterRcnnDetector.Preprocess | FasterRCNN/FasterRCNNDetector.cs:53-75 | the frame becomes exactly 800 x 800 whenever OpenCV accepts it, and fails with an empty-image error otherwise |
| FasterRcnnDetector.InputTensor | FasterRCNN/FasterRCNNDetector.cs:79-88 | the tensor has shape 3 x H x W and `[c, y, x]` is byte c of pixel (y, x), with no mean subtracted |
| Tensors.Planar | FasterRCNN/FasterRCNN.cs:43-52 | the planar buffer is valid for shape 3 x H x W and every in-range read `[c, y, x]` is the channel value over the divisor |
| Tensors.PlanarOffset | YoloV3/YoloV3Detector.cs:65-75 | the row-major offset of `[c, y, x]` lies inside the buffer and decodes back to (c, y, x) |
| FasterRcnnDetector.BindInput | FasterRCNN/FasterRCNNDetector.cs:90-96 | the first binding creates the value named "image"; later ones keep the name and replace only the tensor; the list length never changes |
| FasterRcnnDetector.BindingHistory | FasterRCNN/FasterRCNNDetector.cs:91-96 | after any nonempty run of calls the input list is exactly one "image" value holding the latest tensor |
| FasterRcnnDetector.Inference | FasterRCNN/FasterRCNNDetector.cs:77-120 | the bound input is "image" with the frame's tensor, the list stays one slot, and every stored key has confidence at least `minScore` |
| FasterRcnnDetector.DetectObjects | FasterRCNN/FasterRCNNDetector.cs:41-48 | null bytes fail with argument-null and change nothing; bytes that decode to a frame with no rows or no columns fail with empty-image and change nothing; on success the bound tensor is 3 x 800 x 800 and every key meets the threshold |
| FasterRcnnDetector.DetectObjectsDefault | FasterRCNN/FasterRCNNDetector.cs:41 | called without a threshold, every stored key has confidence at least 0.7 |
| FasterRcnnDecode.BoxAt | FasterRCNN/FasterRCNNDetector.cs:111-114 | for `i < boxes.Length / 4` the reads `4i .. 4i+3` are in bounds and the rect fields are their truncations, in order X, Y, Width, Height |
| FasterRcnnDecode.Decode | FasterRCNN/FasterRCNNDetector.cs:106-117 | succeeds iff for every `i < boxes.Length / 4` the confidence exists and, when it meets the threshold, the label exists and is in the table; at most one entry per index |
| FasterRcnnDecode.DecodeKeys | FasterRCNN/FasterRCNNDetector.cs:109-115 | every stored key has confidence at least `minScore`, and the stored keys are exactly `(Labels[labels[i]], conf[i])` over the kept indices |
| FasterRcnnDecode.DecodeFirstWriter | FasterRCNN/FasterRCNNDetector.cs:105-117 | a kept index whose key no earlier kept index carries has its own box stored under that key |
| FasterRcnnDecode.DecodeBoxesFromKeptIndex | FasterRCNN/FasterRCNN.cs:64-75 | every stored box was read from the box slots of a kept index carrying that key |
| FasterRcnnLegacy.FromModelFile | FasterRCNN/FasterRCNN.cs:21-27 | the constructor fails with argument-null iff the path is null or empty |
| FasterRcnnLegacy.DefaultConstructor | FasterRCNN/FasterRCNN.cs:14-19 | the parameterless constructor's constant file name passes the path check |
| FasterRcnnLegacy.Preprocess | FasterRCNN/FasterRCNN.cs:32-41 | the frame becomes exactly 800 x 800 whenever OpenCV accepts it |
| FasterRcnnLegacy.Inference | FasterRCNN/FasterRCNN.cs:55-78 | succeeds iff every read is in range; every stored key meets the threshold; every kept index's key is stored; each stored box belongs to a kept index with that key |
| YoloV3Detector.FromModelFile | YoloV3/YoloV3Detector.cs:34-40 | the path constructor fails with argument-null iff the path is null or empty; otherwise the inputs start unbound |
| YoloV3Detector.InputTensor | YoloV3/YoloV3Detector.cs:65-76 | the tensor has shape (1, 3, H, W), `[0, c, y, x]` is byte c of pixel (y, x) over 255, and lies in [0, 1] |
| Tensors.WithBatchAxis | YoloV3/YoloV3Detector.cs:76 | the reshape keeps the buffer and prepends a batch axis of 1: `[0, i, j, k]` reads what `[i, j, k]` read |
| YoloV3Detector.Preprocess | YoloV3/YoloV3Detector.cs:54-77 | the frame becomes 416 x 416 and the tensor has shape (1, 3, 416, 416) whenever OpenCV accepts the frame |
| YoloV3Detector.BindInputs | YoloV3/YoloV3Detector.cs:81-87 | after any call the inputs are exactly `["input_1" = tensor, "image_shape" = (416, 416)]`: the first call appends the shape, later ones replace only index 0 |
| YoloV3Detector.BindingHistory | YoloV3/YoloV3Detector.cs:17-87 | before any call the list is one null slot; after calls it has length 2, holding the latest tensor and the image shape |
| YoloV3Detector.Inference | YoloV3/YoloV3Detector.cs:79-114 | binds the two inputs, and on success stores no more entries than the loop bound `indices.Dimensions[1]` |
| YoloV3Detector.DetectObjects | YoloV3/YoloV3Detector.cs:42-49 | null bytes fail with argument-null and change nothing; bytes that decode to a frame with no rows or no columns fail with empty-image and change nothing; on success the bound tensor has shape (1, 3, 416, 416) |
| YoloV3Detector.DetectObjectsDefault | YoloV3/YoloV3Detector.cs:42 | called without a threshold, the result is the same as with any threshold |
| YoloV3Detector.DetectIgnoresMinScore | YoloV3/YoloV3Detector.cs:42-48 | the result is the same for every threshold, so the documented minimum confidence is not applied |
| YoloDecode.RowDecoding | YoloV3/YoloV3Detector.cs:100-110 | a readable row is always offered, keyed `(Labels[idx[i,1]], conf[idx[i,0], idx[i,1], idx[i,2]])` with the box of batch 0; an unreadable row raises |
| YoloDecode.BoxIgnoresBatch | YoloV3/YoloV3Detector.cs:105-109 | a row's box depends only on its box column and the boxes tensor, never on its batch column |
| YoloDecode.DecodeRows | YoloV3/YoloV3Detector.cs:98-111 | the row loop succeeds iff every row is readable, and stores at most one entry per row |
| YoloDecode.DecodeRowsKeys | YoloV3/YoloV3Detector.cs:98-111 | every row's key is stored and nothing else is; each stored box is the box of some row with that key |
| YoloDecode.Inference | YoloV3/YoloV3Detector.cs:89-113 | as written: a rank below 2 raises; otherwise it succeeds iff rows `0 .. Dimensions[1]-1` are readable, and stores at most `Dimensions[1]` entries |
| YoloDecode.InferenceIgnoresMinScore | YoloV3/YoloV3Detector.cs:79-111 | the decode result does not depend on `minScore` |
| YoloDecode.InferenceCorrected | YoloV3/YoloV3Detector.cs:98 | corrected bound: succeeds iff every selected row `0 .. Dimensions[0]-1` is readable, with at most one entry per row |
| YoloDecode.CorrectedDecodesEverySelection | YoloV3/YoloV3Detector.cs:98-104 | with the corrected bound, the stored keys are exactly the keys of the selected rows |
| YoloDecode.AsWrittenFailsBelowThreeRows | YoloV3/YoloV3Detector.cs:98-102 | for an (S, 3) index tensor with S < 3, the as-written loop reads a missing row and raises |
| YoloDecode.NoSelectionExample | YoloV3/YoloV3Detector.cs:98 | with no selected boxes, the as-written decode raises and the corrected decode returns an empty prediction |
| YoloDecode.AsWrittenDropsRowsPastThree | YoloV3/YoloV3Detector.cs:98-111 | with S > 3 readable selections of distinct keys, the as-written decode stores 3 entries and the corrected one stores S |

## Left out

- Rendering (`ImageWithBoundingBoxes`) is left out, including its text formatting. So are the image each prediction owns and `Dispose`: they are native image handling and resource lifetime.
- The native calls are parameters, not code: `Cv2.ImDecode` (`decode`), `Cv2.Resize` (`resample`) and `InferenceSession.Run` (`run`). The black border of `CopyMakeBorder` is modelled; its other options are not.
- The parameterless constructors of `FasterRCNNDetector` and `YoloV3Detector` are not modelled: they only load an embedded model resource and do no checks.
- `LabelMap` is not part of this model. It is a `map<int, string>` parameter, and a label it lacks fails with `KeyNotFound`.
- Floating point: confidences and coordinates are reals. Several source effects are not modelled:
  - `800.0 / W` and `(float)416 / W` rounding;
  - rounding in `ratio * W`;
  - the `/ 255f` rounding;
  - NaN comparisons.
- Geometry.FitRatio and Geometry.ResizedSize: the exact-fit claims hold in exact arithmetic only; with doubles a side can land one pixel off.
- FasterRcnnDecode.BoxAt: assumes that `boxes[j]` with one integer reads flat offset j of the buffer, so the outputs are shapeless sequences and the box of index i is offsets 4i to 4i+3. If ONNX Runtime's indexer instead checked the single index against the rank and first dimension of the (N, 4) boxes tensor, `boxes[j]` would raise. A stride-based indexer that reads `strides[0] * j` would read offset 4j. The model's "in bounds" claim and the box values rest on the flat reading.
- Tensors.At2, Tensors.At3 and Tensors.At4: assume that a multi-index read raises unless the index has the tensor's rank and every coordinate is below its dimension. A stride-based indexer that checks only the final flat offset against the buffer would instead read some other element when a coordinate is out of range but its offset is still inside the buffer. YOLO's "an unreadable row raises" (`YoloDecode.RowDecoding`) and the finding's failure below three rows rest on this reading.
- `Cv2.ImDecode(imageBytes, ImreadModes.AnyColor)` keeps a grayscale image at one channel, and `frame.At<Vec3b>(y, x)` on such a frame reads neighbouring bytes as a pixel. The model's `Image` always has three channels, so `decode` is assumed to return a colour frame and the one-channel case is not modelled.
- Numeric.Trunc: the cast of a value outside the 32-bit range is not modelled; integers are unbounded. The 32-bit (`FasterRCNN`) and 64-bit (`FasterRCNNDetector`) label tensors are therefore the same `seq<int>`.
- `Parallel.For` / `Parallel.ForEach` and `ConcurrentDictionary` thread safety: every loop is a sequential fold in index order. An exception from a parallel loop, which .NET wraps in an aggregate exception, is the failure of the lowest failing index.
- YoloDecode.DecodeRowsKeys and FasterRcnnLegacy.Inference do not say which box survives a key collision, because those loops are `Parallel.For` and the survivor depends on scheduling.
- The enumeration order of `ConcurrentDictionary.Keys` is unspecified. It is the `order` parameter of the top-n queries: any duplicate-free listing of the stored keys.
- The laziness of LINQ's deferred `Take` is not modelled; the query is evaluated at once.
- The tensor that `FasterRCNNDetector.Preprocess` and `FasterRCNN.Preprocess` fill and then discard is not modelled. Neither are the unused `MEAN` constants.
- The Faster R-CNN facade's result is the shared `ObjectDetectorPrediction.Prediction` map, not a distinct `FasterRCNNPrediction` type. Both classes hold the same key-to-box dictionary, so the contents are modelled exactly. Which top-n query applies is not tied to the type: a caller of `FasterRcnnDetector.DetectObjects` or `FasterRcnnLegacy.Inference` gets `FasterRcnnPrediction.TopObjectClasses` in the source, the unchecked one.
- The `0.7f` default threshold is the real 0.7 in `DefaultMinScore`, not the nearest float, which is a little below 0.7.
- The interface files (`IObjectDetector`, `IObjectDetectorPrediction`, `IPrediction`) are left out: they carry no logic.
- The sample driver `Samples/FasterRCNN/Program.cs` is left out: it is command-line and file I/O.
- `FasterRCNN.Inference` runs the session on an input list that is never bound. It is modelled on `Session.Unbound` as given, with the outputs supplied by `run`.

## Findings

| source | as written | input that shows it | evidently intended | confidence | as-written member | corrected member |
|---|---|---|---|---|---|---|
| YoloV3/YoloV3Detector.cs:98 | the loop runs `i < indices.Dimensions[1]`: the row width, which is 3 for an (S, 3) index tensor, while `i` indexes rows | an index tensor of shape (0, 3) or (1, 3) makes the loop read a missing row and raise; with shape (5, 3), rows 3 and 4 are never decoded | `i < indices.Dimensions[0]`, one iteration per selected row | medium (the ONNX export may instead produce a rank-3 index tensor); not executed | YoloDecode.AsWrittenFailsBelowThreeRows | YoloDecode.InferenceCorrected |

`YoloDecode.Inference` is the as-written decoder. `YoloDecode.NoSelectionExample` and
`YoloDecode.AsWrittenDropsRowsPastThree` exhibit the two failure modes. `YoloDecode.InferenceCorrected`
and `YoloDecode.CorrectedDecodesEverySelection` state the intended behaviour: every selected row is
decoded. The `YoloV3Detector` facade keeps the loop bound that `DetectObjects` actually uses.
