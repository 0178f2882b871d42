/**
 * The keypoint filter of `process_pose`: the detector's per-person arrays
 * become `{id, x, y, confidence}` records for the joints detected with
 * confidence above one half, wrapped into a frame record.
 */
module KeypointFilter {
  import opened Wrappers
  import opened PoseTypes

  /** A joint is kept only when its confidence is strictly above this. */
  const ConfidenceThreshold: real := 0.5

  /** The `person_id` given to every detection: persons are not told apart. */
  const SinglePersonId := 1

  const StatusSuccess := "success"

  /** How many `(position, score)` pairs `zip` yields: it stops at the shorter input. */
  function ZipLength(row: seq<Point>, scores: seq<real>): (n: nat)
    ensures n <= |row| && n <= |scores|
    ensures n == |row| || n == |scores|
  {
    if |row| <= |scores| then |row| else |scores|
  }

  /** The record emitted for joint `i`: its id, truncated coordinates and unchanged score. */
  function KeypointAt(row: seq<Point>, scores: seq<real>, i: nat): Keypoint
    requires i < ZipLength(row, scores)
  {
    Keypoint(i, Truncate(row[i].x), Truncate(row[i].y), scores[i])
  }

  /** `kp` is the record emitted for a joint of the zipped rows that passed the threshold. */
  predicate Emitted(row: seq<Point>, scores: seq<real>, kp: Keypoint)
  {
    0 <= kp.id < ZipLength(row, scores) &&
    scores[kp.id] > ConfidenceThreshold &&
    kp == KeypointAt(row, scores, kp.id)
  }

  /** The confident keypoints among joints `i ..` of the zipped rows, in index order. */
  function ConfidentFrom(row: seq<Point>, scores: seq<real>, i: nat): seq<Keypoint>
    requires i <= ZipLength(row, scores)
    decreases ZipLength(row, scores) - i
  {
    if i == ZipLength(row, scores) then []
    else if scores[i] > ConfidenceThreshold then [KeypointAt(row, scores, i)] + ConfidentFrom(row, scores, i + 1)
    else ConfidentFrom(row, scores, i + 1)
  }

  /** Only joints `i ..` that passed the threshold are emitted, each as its own record. */
  lemma {:induction false} ConfidentFromSound(row: seq<Point>, scores: seq<real>, i: nat)
    requires i <= ZipLength(row, scores)
    ensures forall kp :: kp in ConfidentFrom(row, scores, i) ==> i <= kp.id && Emitted(row, scores, kp)
    decreases ZipLength(row, scores) - i
  {
    if i < ZipLength(row, scores) {
      ConfidentFromSound(row, scores, i + 1);
    }
  }

  /** Every joint `j >= i` that passed the threshold is emitted. */
  lemma {:induction false} ConfidentFromComplete(row: seq<Point>, scores: seq<real>, i: nat, j: nat)
    requires i <= j < ZipLength(row, scores) && scores[j] > ConfidenceThreshold
    ensures KeypointAt(row, scores, j) in ConfidentFrom(row, scores, i)
    decreases ZipLength(row, scores) - i
  {
    if i < j {
      ConfidentFromComplete(row, scores, i + 1, j);
    }
  }

  /** The emitted ids strictly increase. */
  lemma {:induction false} ConfidentFromSorted(row: seq<Point>, scores: seq<real>, i: nat)
    requires i <= ZipLength(row, scores)
    ensures forall k, l :: 0 <= k < l < |ConfidentFrom(row, scores, i)| ==>
      ConfidentFrom(row, scores, i)[k].id < ConfidentFrom(row, scores, i)[l].id
    decreases ZipLength(row, scores) - i
  {
    if i < ZipLength(row, scores) {
      ConfidentFromSorted(row, scores, i + 1);
      ConfidentFromSound(row, scores, i + 1);
      var rest := ConfidentFrom(row, scores, i + 1);
      if scores[i] > ConfidenceThreshold {
        var r := [KeypointAt(row, scores, i)] + rest;
        forall k, l | 0 <= k < l < |r| ensures r[k].id < r[l].id {
          assert r[l] == rest[l - 1] && r[l] in rest;
          if 0 < k {
            assert r[k] == rest[k - 1];
          }
        }
      }
    }
  }

  /**
   * The `keypoints_list` comprehension: every joint whose score is above the
   * threshold, and only those, once each and in increasing id order, with
   * truncated coordinates and the score unchanged.
   */
  function ConfidentKeypoints(row: seq<Point>, scores: seq<real>): (r: seq<Keypoint>)
    ensures forall kp :: kp in r ==>
      0 <= kp.id < ZipLength(row, scores) &&
      kp.confidence == scores[kp.id] > ConfidenceThreshold &&
      kp.x == Truncate(row[kp.id].x) && kp.y == Truncate(row[kp.id].y)
    ensures forall j :: 0 <= j < ZipLength(row, scores) && scores[j] > ConfidenceThreshold ==>
      exists k :: 0 <= k < |r| && r[k].id == j
    ensures forall k, l :: 0 <= k < l < |r| ==> r[k].id < r[l].id
  {
    var r := ConfidentFrom(row, scores, 0);
    ConfidentFromSound(row, scores, 0);
    ConfidentFromSorted(row, scores, 0);
    assert forall j :: 0 <= j < ZipLength(row, scores) && scores[j] > ConfidenceThreshold ==>
      KeypointAt(row, scores, j) in r by {
      forall j | 0 <= j < ZipLength(row, scores) && scores[j] > ConfidenceThreshold {
        ConfidentFromComplete(row, scores, 0, j);
      }
    }
    r
  }

  /** Coordinates are truncated, not rounded: `(100.7, 50.2)` at score 0.9 becomes `{0, 100, 50, 0.9}`. */
  lemma TruncatedKeypointExample()
    ensures ConfidentKeypoints([Point(100.7, 50.2)], [0.9]) == [Keypoint(0, 100, 50, 0.9)]
  {
    assert ConfidentFrom([Point(100.7, 50.2)], [0.9], 1) == [];
  }

  /** The entry appended for a readable result: person 1 with the keypoints of its first row. */
  function PersonOf(res: DetectorResult): (p: PersonPose)
    requires Read(res).Rows?
  {
    PersonPose(SinglePersonId, ConfidentKeypoints(Read(res).row, Read(res).scores))
  }

  /** The results `process_pose` does not skip: those whose `keypoints`, `xy` and `conf` are all present. */
  function Present(rs: seq<DetectorResult>): seq<DetectorResult>
  {
    if rs == [] then [] else
      var last := rs[|rs| - 1];
      Present(rs[..|rs| - 1]) + (if Read(last) != Absent then [last] else [])
  }

  /** The kept results are exactly those without a `None` field, never more than were given. */
  lemma {:induction false} PresentMembers(rs: seq<DetectorResult>)
    ensures forall x :: x in Present(rs) <==> x in rs && Read(x) != Absent
    ensures |Present(rs)| <= |rs|
  {
    if rs != [] {
      var init, last := rs[..|rs| - 1], rs[|rs| - 1];
      PresentMembers(init);
      assert rs == init + [last];
    }
  }

  /**
   * Skipping distributes over concatenation and keeps a single result
   * exactly when it has no `None` field: the kept results stay in order and
   * each appears once per occurrence.
   */
  lemma {:induction false} PresentConcat(a: seq<DetectorResult>, b: seq<DetectorResult>)
    ensures Present(a + b) == Present(a) + Present(b)
    ensures |a| == 1 ==> Present(a) == (if Read(a[0]) != Absent then [a[0]] else [])
    decreases |b|
  {
    if |a| == 1 {
      assert a[..0] == [];
    }
    if b == [] {
      assert a + b == a;
    } else {
      var init, last := b[..|b| - 1], b[|b| - 1];
      PresentConcat(a, init);
      assert (a + b)[..|a + b| - 1] == a + init;
      assert (a + b)[|a + b| - 1] == last;
    }
  }

  /** Skipping `None` results commutes with appending one more result. */
  lemma PresentAppend(rs: seq<DetectorResult>, x: DetectorResult)
    ensures Present(rs + [x]) == Present(rs) + (if Read(x) != Absent then [x] else [])
  {
    assert (rs + [x])[..|rs|] == rs;
  }

  /** `poses` holds one entry per non-skipped result of `rs`, in order. */
  ghost predicate Tracks(poses: seq<PersonPose>, rs: seq<DetectorResult>)
  {
    |poses| == |Present(rs)| &&
    forall k :: 0 <= k < |poses| ==> Read(Present(rs)[k]).Rows? && poses[k] == PersonOf(Present(rs)[k])
  }

  /** A skipped result leaves the entries as they are. */
  lemma TracksSkip(poses: seq<PersonPose>, rs: seq<DetectorResult>, x: DetectorResult)
    requires Tracks(poses, rs) && Read(x).Absent?
    ensures Tracks(poses, rs + [x])
  {
    PresentAppend(rs, x);
  }

  /** A readable result adds its person entry at the end. */
  lemma TracksAppend(poses: seq<PersonPose>, rs: seq<DetectorResult>, x: DetectorResult)
    requires Tracks(poses, rs) && Read(x).Rows?
    ensures Tracks(poses + [PersonOf(x)], rs + [x])
  {
    PresentAppend(rs, x);
    var ps := poses + [PersonOf(x)];
    assert Present(rs + [x]) == Present(rs) + [x];
    forall k | 0 <= k < |ps|
      ensures Read(Present(rs + [x])[k]).Rows? && ps[k] == PersonOf(Present(rs + [x])[k])
    {
      if k < |poses| {
        assert Present(rs + [x])[k] == Present(rs)[k];
      }
    }
  }

  /**
   * `process_pose` with the detector call already made: every result with a
   * `None` field is skipped, every other one yields exactly one person entry
   * (in order), and the frame record is a success unless an `xy` or `conf`
   * array has no row to index, which raises.
   */
  method ProcessPose(results: seq<DetectorResult>, timestamp: string) returns (r: Result<PoseRecord, PyError>)
    ensures r.Success? <==> forall k :: 0 <= k < |results| ==> Read(results[k]) != NoRows
    ensures r.Failure? ==> r.error == IndexErrorEmptyBatch
    ensures r.Success? ==>
      r.value.status == StatusSuccess && r.value.timestamp == timestamp &&
      |r.value.pose| == |Present(results)| &&
      forall k :: 0 <= k < |r.value.pose| ==>
        Read(Present(results)[k]).Rows? && r.value.pose[k] == PersonOf(Present(results)[k])
  {
    var poseData: seq<PersonPose> := [];
    for i := 0 to |results|
      invariant forall j :: 0 <= j < i ==> Read(results[j]) != NoRows
      invariant Tracks(poseData, results[..i])
    {
      assert results[..i + 1] == results[..i] + [results[i]];
      var reading := Read(results[i]);
      if reading.Absent? {
        TracksSkip(poseData, results[..i], results[i]);
        continue;
      }
      if reading.NoRows? {
        return Failure(IndexErrorEmptyBatch);
      }
      TracksAppend(poseData, results[..i], results[i]);
      poseData := poseData + [PersonOf(results[i])];
    }
    assert results[..|results|] == results;
    assert Tracks(poseData, results);
    return Success(PoseRecord(StatusSuccess, poseData, timestamp));
  }
}
