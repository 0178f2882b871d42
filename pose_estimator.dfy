/**
 * `PoseEstimator.detect_image_pose`: the same keypoint filter written as two
 * append loops, with no `None` check and no frame record around the poses.
 * The detector call and the drawing of each kept keypoint onto the frame
 * are not part of this model.
 */
module PoseEstimator {
  import opened Wrappers
  import opened PoseTypes
  import opened KeypointFilter

  /** The exception reading a result raises when it cannot be read. */
  function ReadError(reading: Reading): PyError
    requires !reading.Rows?
  {
    if reading.Absent? then AttributeErrorOnNone else IndexErrorEmptyBatch
  }

  /**
   * The pose list of `detect_image_pose`: one entry per result, always for
   * person 1, each built from a fresh list holding only that result's own
   * confident keypoints. The first result that has a `None` field or no row
   * raises, and nothing is returned.
   */
  method DetectImagePose(results: seq<DetectorResult>) returns (r: Result<seq<PersonPose>, PyError>)
    ensures r.Success? <==> forall k :: 0 <= k < |results| ==> Read(results[k]).Rows?
    ensures r.Failure? ==>
      exists k :: 0 <= k < |results| &&
        (forall j :: 0 <= j < k ==> Read(results[j]).Rows?) &&
        !Read(results[k]).Rows? && r.error == ReadError(Read(results[k]))
    ensures r.Success? ==>
      |r.value| == |results| &&
      forall k :: 0 <= k < |results| ==>
        Read(results[k]).Rows? && r.value[k] == PersonOf(results[k])
  {
    var poseData: seq<PersonPose> := [];
    for n := 0 to |results|
      invariant |poseData| == n
      invariant forall k :: 0 <= k < n ==> Read(results[k]).Rows? && poseData[k] == PersonOf(results[k])
    {
      var reading := Read(results[n]);
      if !reading.Rows? {
        return Failure(ReadError(reading));
      }
      var keypointsList := KeepConfident(reading.row, reading.scores);
      poseData := poseData + [PersonPose(SinglePersonId, keypointsList)];
    }
    return Success(poseData);
  }

  /** The inner loop of `detect_image_pose`: walk the zipped row and scores, keeping the confident entries. */
  method KeepConfident(row: seq<Point>, scores: seq<real>) returns (keypointsList: seq<Keypoint>)
    ensures keypointsList == ConfidentKeypoints(row, scores)
  {
    keypointsList := [];
    var i := 0;
    while i < |row| && i < |scores|
      invariant i <= ZipLength(row, scores)
      invariant keypointsList + ConfidentFrom(row, scores, i) == ConfidentFrom(row, scores, 0)
      decreases |row| - i
    {
      if scores[i] > ConfidenceThreshold {
        keypointsList := keypointsList + [Keypoint(i, Truncate(row[i].x), Truncate(row[i].y), scores[i])];
      }
      i := i + 1;
    }
  }
}
