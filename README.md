# PerfectPose keypoint filter and pose comparator, in Dafny

This project models the two per-frame components of PerfectPose's pose pipeline:

- **The keypoint filter.** It turns a pose detector's raw output into `{id, x, y, confidence}` records. It keeps a joint only when its confidence is above 0.5.
  - `process_pose` skips detections with a missing field and wraps the poses in a `{status, pose, timestamp}` record.
  - `PoseEstimator.detect_image_pose` writes the same filter as two append loops, with no missing-field check.
- **The pose comparator** (`compare_poses`). It scores a user pose against a guide pose. It takes ten directed limb and torso vectors, computes their cosine similarities, averages them and maps the mean onto [50, 100]. It has three fallbacks: a random draw when there is no guide, and a fixed 50.0 when no pair is valid or no pair has two non-zero vectors.

Modules:

- `Wrappers`: `Option` and `Result`.
- `PoseTypes`: the data model, the COCO 17-keypoint ids, the reading of one detector result, and Python's `int()` truncation.
- `KeypointFilter`: `process_pose`. The list comprehension is a function. The loop over results is a method.
- `PoseEstimator`: `detect_image_pose`, with its two nested loops as a method.
- `Geometry`: integer displacement vectors, dot and cross products, Lagrange's identity, Cauchy–Schwarz, and the cosine similarity.
- `PoseComparator`: `compare_poses`. It has the id lookup, the joint table, the valid-pair loop, the similarity loop, the mean and the fallbacks. A specification function `Compare` is stated beside the method `ComparePoses`. Its guided path, once the valid pairs are chosen, is the function `Grade`. The lemmas are proved about `Grade` and then about `Compare`.

Modelling choices:

- **Inputs.** The detector's output is given as data. A `DetectorResult` has an optional `keypoints` field, which has optional `xy` (rows of real positions) and `conf` (rows of real scores). Only the first row of each is read.
- **Norm.** `np.linalg.norm` is a parameter `norm: Vec -> real`. It is required to be the exact non-negative square root of the squared length. The real square root has no closed form to define it by.
- **Random fallback.** The draw `np.random.normal(75, 15)` is a parameter `sample`. The model proves the result for every value of the draw.
- **Timestamp.** The timestamp is an opaque string parameter.
- **Tagged result.** The comparator's result is tagged by the path that produced it: `Placeholder`, `NoCorrespondence`, `AllDegenerate` or `Measured`. `Accuracy.Score()` is the number the source returns.

Facts about the code that the model keeps:

- Coordinates are truncated toward zero (`int()`), not rounded.
- The joint table has 10 directed pairs.
- `keypoints[0]` on an `xy` or `conf` array with no rows raises `IndexError`, so the model returns `Failure(IndexErrorEmptyBatch)`. In `detect_image_pose` a `None` field raises `AttributeError` as well (`Failure(AttributeErrorOnNone)`).
- With exact real arithmetic, swapping two non-empty poses changes neither the path nor the value (`CompareSymmetric`).

## Model

| member | source | states |
|---|---|---|
| `PoseTypes.Read` | sanggyeom/sample_pose_estimation.py:16-24 | a result reads as absent exactly when `keypoints`, `xy` or `conf` is `None`; it yields rows exactly when all three are present and both arrays have a row; the rows read are `xy[0]` and `conf[0]` |
| `PoseTypes.Truncate` | sanggyeom/sample_pose_estimation.py:23 | `int()` truncates toward zero: the result is the integer between the value and 0 that is less than 1 away from it |
| `PoseTypes.TruncateIsNotFloor` | sanggyeom/sample_pose_estimation.py:23 | truncation of -2.5 gives -2 while the floor gives -3 |
| `KeypointFilter.ZipLength` | sanggyeom/sample_pose_estimation.py:24 | `zip` yields as many pairs as the shorter of its two inputs |
| `KeypointFilter.ConfidentFromSound` | sanggyeom/sample_pose_estimation.py:22-25 | every record emitted from joint `i` on has an id at least `i`, a score above 0.5, and the truncated coordinates and unchanged score of that joint |
| `KeypointFilter.ConfidentFromComplete` | sanggyeom/sample_pose_estimation.py:22-25 | every joint from `i` on whose score is above 0.5 is emitted |
| `KeypointFilter.ConfidentFromSorted` | sanggyeom/sample_pose_estimation.py:22-25 | emitted ids strictly increase |
| `KeypointFilter.ConfidentKeypoints` | sanggyeom/sample_pose_estimation.py:22-25 | the comprehension keeps a joint iff its score is above 0.5, with id = index, `x`/`y` truncated, confidence unchanged, in increasing id order (so ids are unique), and only within the length `zip` yields |
| `KeypointFilter.TruncatedKeypointExample` | sanggyeom/sample_pose_estimation.py:23 | position (100.7, 50.2) at score 0.9 gives `{id 0, x 100, y 50, confidence 0.9}` |
| `KeypointFilter.PresentMembers` | sanggyeom/sample_pose_estimation.py:15-17 | the kept results are exactly those without a `None` field, never more than were given |
| `KeypointFilter.PresentConcat` | sanggyeom/sample_pose_estimation.py:15-17 | skipping distributes over concatenation and keeps a single result iff it has no `None` field, so the kept results stay in order and each contributes once per occurrence |
| `KeypointFilter.ProcessPose` | sanggyeom/sample_pose_estimation.py:12-32 | results with a `None` field contribute nothing; every other result contributes exactly one entry, in order, for person 1, built from its own first rows; status is "success" even when no pose is found; the call fails, with `IndexError`, exactly when some result with no `None` field has no row |
| `PoseEstimator.DetectImagePose` | jangheon/utils.py:23-47 | exactly one entry per result, in order, always for person 1, each holding only that result's confident keypoints; no `None` is skipped: the first unreadable result raises `AttributeError` (a `None` field) or `IndexError` (no row) |
| `PoseEstimator.KeepConfident` | jangheon/utils.py:30-38 | the inner append loop over the zipped first rows builds exactly the comprehension's list: confident joints only, id = index, truncated coordinates, in id order |
| `Geometry.Displacement` | sanggyeom/sample_pose_estimation.py:78-85 | the user and guide vectors are `end - start`, zero exactly when the two positions coincide |
| `Geometry.SqNorm` | sanggyeom/sample_pose_estimation.py:88 | the squared length is non-negative and zero only for the zero vector |
| `Geometry.Lagrange` | sanggyeom/sample_pose_estimation.py:90 | dot² + cross² = ‖u‖²‖v‖² on integer vectors |
| `Geometry.CauchySchwarz` | sanggyeom/sample_pose_estimation.py:90 | dot² ≤ ‖u‖²‖v‖², with equality iff the vectors are parallel |
| `Geometry.NormPositive` | sanggyeom/sample_pose_estimation.py:88 | the `norm(v) > 0` test holds iff `v` is not the zero vector |
| `Geometry.ScaledDirection` | sanggyeom/sample_pose_estimation.py:90-92 | a positive multiple of a non-zero vector points the same way as it, a negative multiple the opposite way |
| `Geometry.Cosine` | sanggyeom/sample_pose_estimation.py:90 | the cosine similarity lies in [-1, 1]; it is 1 iff the vectors point the same way and -1 iff they point opposite ways |
| `Geometry.CosineSymmetric` | sanggyeom/sample_pose_estimation.py:90 | the cosine does not depend on the order of the vectors |
| `PoseComparator.Clip` | sanggyeom/sample_pose_estimation.py:43 | `np.clip(sample, 50, 100)` lies in [50, 100] and is the sample itself inside that range |
| `PoseComparator.IndexByIdShape` | sanggyeom/sample_pose_estimation.py:46-47 | the lookup's keys are exactly the ids that occur; each id maps to the position of its last occurrence, so duplicates overwrite and never fail |
| `PoseComparator.JointPairsShape` | sanggyeom/sample_pose_estimation.py:51-62 | the five groups hold ten directed pairs of distinct COCO joint ids |
| `PoseComparator.ValidAmongMembers` | sanggyeom/sample_pose_estimation.py:66-69 | a pair is selected iff it is in the table and both endpoints are in the user lookup and in the guide lookup |
| `PoseComparator.ValidAmongSubsequence` | sanggyeom/sample_pose_estimation.py:66-69 | the selected pairs are a subsequence of the table, in table order |
| `PoseComparator.ValidAmongSymmetric` | sanggyeom/sample_pose_estimation.py:68 | swapping user and guide selects the same pairs |
| `PoseComparator.ValidPairsShape` | sanggyeom/sample_pose_estimation.py:64-69 | `valid_vectors` holds exactly the table pairs found in both poses, in table order, at most 10 of them, and is the same with user and guide swapped |
| `PoseComparator.ValidInGroups` | sanggyeom/sample_pose_estimation.py:66-69 | the two nested loops append exactly the valid pairs of the groups, group by group |
| `PoseComparator.SelectValidPairs` | sanggyeom/sample_pose_estimation.py:65-69 | the selection loop over the joint table yields exactly the valid pairs, in table order, at most 10 of them |
| `PoseComparator.NormalisedSimilarity` | sanggyeom/sample_pose_estimation.py:90-92 | `(cos + 1) / 2` lies in [0, 1]; it is 1 iff the user and guide vectors point the same way and 0 iff they point opposite ways |
| `PoseComparator.Similarities` | sanggyeom/sample_pose_estimation.py:76-93 | one similarity per valid pair with two non-zero vectors, each in [0, 1], never more values than pairs |
| `PoseComparator.SimilaritiesShape` | sanggyeom/sample_pose_estimation.py:87-93 | no similarity is produced iff no pair has two non-zero vectors; all are 1 iff every contributing pair is aligned; all are 0 iff every contributing pair is opposed |
| `PoseComparator.SimilaritiesSymmetric` | sanggyeom/sample_pose_estimation.py:76-93 | the similarity list is the same with user and guide swapped |
| `PoseComparator.CollectSimilarities` | sanggyeom/sample_pose_estimation.py:75-93 | the similarity loop appends exactly the normalised similarities of the contributing pairs, in order, each in [0, 1] |
| `PoseComparator.Grade` | sanggyeom/sample_pose_estimation.py:71-104 | once the valid pairs are chosen, every path (no pair, no contributing pair, the mapped mean) scores within [50, 100] |
| `PoseComparator.SumBounds` | sanggyeom/sample_pose_estimation.py:99 | a sum of values in [0, 1] lies in [0, n]; it is n iff all are 1 and 0 iff all are 0 |
| `PoseComparator.MeanBounds` | sanggyeom/sample_pose_estimation.py:99 | the mean of values in [0, 1] lies in [0, 1]; it is 1 iff all are 1 and 0 iff all are 0 |
| `PoseComparator.Compare` | sanggyeom/sample_pose_estimation.py:42-104 | on every path, including the random placeholder, the score lies in [50, 100] |
| `PoseComparator.ComparePoses` | sanggyeom/sample_pose_estimation.py:34-104 | the loops compute exactly the path and score of `Compare`, so the score lies in [50, 100] |
| `PoseComparator.NoGuideFallback` | sanggyeom/sample_pose_estimation.py:42-43 | the placeholder path is taken iff the guide is absent or empty; it returns the clipped draw, in [50, 100], whatever the user pose |
| `PoseComparator.NoCorrespondenceFallback` | sanggyeom/sample_pose_estimation.py:71-72 | with a guide, the score is the fixed 50.0 of "no valid pair" iff no table pair is present in both poses |
| `PoseComparator.DisjointPosesScoreFifty` | sanggyeom/sample_pose_estimation.py:64-72 | poses that share no joint id used by the table (other shared ids allowed) score exactly 50.0 |
| `PoseComparator.ValidAmongNone` | sanggyeom/sample_pose_estimation.py:65-69 | when no table pair is found in both lookups, the selection loop keeps nothing |
| `PoseComparator.GradeDegenerate` | sanggyeom/sample_pose_estimation.py:88-96 | with valid pairs chosen, the degenerate fallback is taken iff there is a valid pair and none has two non-zero vectors |
| `PoseComparator.DegenerateFallback` | sanggyeom/sample_pose_estimation.py:88-96 | the degenerate 50.0 fallback is taken iff there are valid pairs and every one has a zero-length vector on one side |
| `PoseComparator.GradeAligned` | sanggyeom/sample_pose_estimation.py:88-104 | for any chosen valid pairs, the measured score is 100.0 iff some pair contributes and every contributing pair is aligned |
| `PoseComparator.GradeOpposed` | sanggyeom/sample_pose_estimation.py:88-104 | for any chosen valid pairs, the measured score is 50.0 iff some pair contributes and every contributing pair is opposed |
| `PoseComparator.AlignedScoresHundred` | sanggyeom/sample_pose_estimation.py:88-104 | the measured score is 100.0 iff some pair contributes and every contributing pair has its user vector pointing the same way as its guide vector |
| `PoseComparator.OpposedScoresFifty` | sanggyeom/sample_pose_estimation.py:88-104 | the measured score is 50.0 iff some pair contributes and every contributing pair points in opposite directions in the two poses |
| `PoseComparator.MeanSingleton` | sanggyeom/sample_pose_estimation.py:99 | the mean of one similarity is that similarity |
| `PoseComparator.GradeSingle` | sanggyeom/sample_pose_estimation.py:76-104 | a single contributing pair is graded 50 + 50 × its normalised similarity |
| `PoseComparator.SinglePairScore` | sanggyeom/sample_pose_estimation.py:76-104 | when only one pair is valid and it contributes, the score is 50 + 50 × that pair's normalised similarity |
| `PoseComparator.CompareSymmetric` | sanggyeom/sample_pose_estimation.py:42-104 | with both poses non-empty, swapping user and guide gives the same path and the same score |

## Left out

- The detector call (`yolo_model(image)`, `self.model(frame)`) and model loading: the detector is an opaque library function. Its output is an input of the model.
- The drawing of kept keypoints with `cv2.circle`, and the `frame` that `detect_image_pose` returns: pixel drawing inside an opaque library.
- `datetime.now().isoformat()`: the timestamp is a parameter.
- `np.random.normal(75, 15)`: the draw is a parameter, and only its clipping is modelled.
- Floating point: positions, scores, norms, the cosine and the mean are exact reals. Rounding in `np.linalg.norm`, the division, NaN and infinite values (on which `int()` raises) are not modelled.
- `Geometry.IsEuclideanNorm`: the norm is a parameter required to be exact, because Dafny has no real square root to define it by.
- `compare_poses` given `None` as the user list, which raises `TypeError` at the id lookup only on the guided path (the no-guide path returns the clipped draw first), or keypoint records missing a key: the model's types rule these out.
- Integer width: the lookup positions become numpy `int64` arrays, so `end - start` and `np.dot` would wrap beyond about 9·10¹⁸ (and products of 32-bit values beyond about 2·10⁹ on platforms where numpy's default integer is 32 bits). The model's `int` does not wrap; pixel coordinates stay far below these bounds.
- The webcam, video and image loops, the LLM code, audio extraction, file download and JSON rewriting elsewhere in the repository: I/O around copies of the same filter loop, outside this core.
