/**
 * The data the pose pipeline passes around: the detector's raw per-result
 * arrays, and the keypoint, person and frame records built from them.
 */
module PoseTypes {
  import opened Wrappers

  /** Joint ids of the COCO 17-keypoint layout used by the detector. */
  const Nose := 0
  const LeftEye := 1
  const RightEye := 2
  const LeftEar := 3
  const RightEar := 4
  const LeftShoulder := 5
  const RightShoulder := 6
  const LeftElbow := 7
  const RightElbow := 8
  const LeftWrist := 9
  const RightWrist := 10
  const LeftHip := 11
  const RightHip := 12
  const LeftKnee := 13
  const RightKnee := 14
  const LeftAnkle := 15
  const RightAnkle := 16
  const KeypointCount := 17

  /** One row of `result.keypoints.xy`: a floating-point pixel position. */
  datatype Point = Point(x: real, y: real)

  /** `result.keypoints`: per-person position rows and confidence rows, either possibly `None`. */
  datatype Keypoints = Keypoints(xy: Option<seq<seq<Point>>>, conf: Option<seq<seq<real>>>)

  /** One element of the detector's result list; `keypoints` may be `None`. */
  datatype DetectorResult = DetectorResult(keypoints: Option<Keypoints>)

  /** A retained keypoint, serialised as `{id, x, y, confidence}`. */
  datatype Keypoint = Keypoint(id: int, x: int, y: int, confidence: real)

  /** One person's filtered keypoints, serialised as `{person_id, keypoints}`. */
  datatype PersonPose = PersonPose(personId: int, keypoints: seq<Keypoint>)

  /** The record returned for one frame, serialised as `{status, pose, timestamp}`. */
  datatype PoseRecord = PoseRecord(status: string, pose: seq<PersonPose>, timestamp: string)

  /** The Python exceptions the filter loops can raise. */
  datatype PyError =
    | AttributeErrorOnNone  // `.xy`, `.conf` or `.cpu()` looked up on `None`
    | IndexErrorEmptyBatch  // `keypoints[0]` or `scores[0]` on an array with no rows

  /** What reading one detector result yields before any keypoint is filtered. */
  datatype Reading =
    | Absent                                // `keypoints`, `xy` or `conf` is `None`
    | NoRows                                // `xy` or `conf` holds no person row
    | Rows(row: seq<Point>, scores: seq<real>)  // the first rows `xy[0]` and `conf[0]`

  /** Reads the first position row and the first confidence row of a result, if it has them. */
  function Read(res: DetectorResult): (r: Reading)
    ensures r.Absent? <==>
      res.keypoints.None? || res.keypoints.value.xy.None? || res.keypoints.value.conf.None?
    ensures r.Rows? <==>
      res.keypoints.Some? && res.keypoints.value.xy.Some? && res.keypoints.value.conf.Some? &&
      |res.keypoints.value.xy.value| > 0 && |res.keypoints.value.conf.value| > 0
    ensures r.Rows? ==>
      r.row == res.keypoints.value.xy.value[0] && r.scores == res.keypoints.value.conf.value[0]
  {
    match res.keypoints
    case None => Absent
    case Some(kps) =>
      if kps.xy.None? || kps.conf.None? then Absent
      else if |kps.xy.value| == 0 || |kps.conf.value| == 0 then NoRows
      else Rows(kps.xy.value[0], kps.conf.value[0])
  }

  /** Python's `int()` on a float: truncation toward zero, which is not the floor for negatives. */
  function Truncate(v: real): (r: int)
    ensures 0.0 <= v ==> 0 <= r && r as real <= v < r as real + 1.0
    ensures v < 0.0 ==> r <= 0 && r as real - 1.0 < v <= r as real
  {
    if 0.0 <= v then v.Floor else -((-v).Floor)
  }

  lemma TruncateIsNotFloor()
    ensures Truncate(-2.5) == -2 && (-2.5).Floor == -3
  {
  }
}
