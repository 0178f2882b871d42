/**
 * `compare_poses`: a user pose is scored against a guide pose by the cosine
 * similarity of ten directed limb and torso vectors, averaged and mapped
 * onto [50, 100], with three fallbacks: a random draw without a guide,
 * and a fixed 50.0 when no pair is valid or none contributes.
 */
module PoseComparator {
  import opened Wrappers
  import opened PoseTypes
  import opened Geometry

  /** A pixel position `(x, y)` looked up by joint id. */
  type Position = (int, int)

  /** A directed joint pair `(start_id, end_id)`. */
  type JointPair = (int, int)

  /** The score returned when a similarity cannot be measured. */
  const NeutralScore: real := 50.0

  /**
   * What `compare_poses` returned and why. The source returns only the
   * number, `Score()`; the tag keeps the placeholder draw apart from a
   * measurement, and the two fixed fallbacks apart from each other.
   */
  datatype Accuracy =
    | Placeholder(value: real)  // no guide pose: a clipped random draw, not a measurement
    | NoCorrespondence          // no joint pair is present in both poses
    | AllDegenerate             // every shared pair has a zero-length vector on one side
    | Measured(value: real)     // 50 + 50 * the mean normalised cosine similarity
  {
    function Score(): real
    {
      match this
      case Placeholder(v) => v
      case NoCorrespondence => NeutralScore
      case AllDegenerate => NeutralScore
      case Measured(v) => v
    }
  }

  /** `np.clip(sample, 50, 100)`. */
  function Clip(sample: real): (r: real)
    ensures 50.0 <= r <= 100.0
    ensures 50.0 <= sample <= 100.0 ==> r == sample
    ensures sample < 50.0 ==> r == 50.0
    ensures 100.0 < sample ==> r == 100.0
  {
    if sample < 50.0 then 50.0 else if 100.0 < sample then 100.0 else sample
  }

  // ---------------------------------------------------------------------
  // Indexing keypoints by id
  // ---------------------------------------------------------------------

  /** No keypoint after index `j` carries the id of `kps[j]`. */
  predicate IsLastOccurrence(kps: seq<Keypoint>, j: int)
    requires 0 <= j < |kps|
  {
    forall l :: j < l < |kps| ==> kps[l].id != kps[j].id
  }

  /** The `{kp["id"]: (kp["x"], kp["y"])}` comprehension, entry by entry. */
  function IndexById(kps: seq<Keypoint>): map<int, Position>
  {
    if kps == [] then map[]
    else
      var last := kps[|kps| - 1];
      IndexById(kps[..|kps| - 1])[last.id := (last.x, last.y)]
  }

  /**
   * The lookup's keys are the ids that occur, and each id maps to the
   * position of its last occurrence, so a duplicate id overwrites rather
   * than fails.
   */
  lemma IndexByIdShape(kps: seq<Keypoint>)
    ensures IndexById(kps).Keys == set kp | kp in kps :: kp.id
    ensures forall j :: 0 <= j < |kps| && IsLastOccurrence(kps, j) ==>
      kps[j].id in IndexById(kps) && IndexById(kps)[kps[j].id] == (kps[j].x, kps[j].y)
  {
    IndexByIdKeys(kps);
    forall j | 0 <= j < |kps| && IsLastOccurrence(kps, j)
      ensures kps[j].id in IndexById(kps) && IndexById(kps)[kps[j].id] == (kps[j].x, kps[j].y)
    {
      IndexByIdLast(kps, j);
    }
  }

  lemma {:induction false} IndexByIdKeys(kps: seq<Keypoint>)
    ensures IndexById(kps).Keys == set kp | kp in kps :: kp.id
  {
    if kps != [] {
      var init, last := kps[..|kps| - 1], kps[|kps| - 1];
      IndexByIdKeys(init);
      assert kps == init + [last];
      assert (set kp | kp in kps :: kp.id) == (set kp | kp in init :: kp.id) + {last.id};
    }
  }

  lemma {:induction false} IndexByIdLast(kps: seq<Keypoint>, j: int)
    requires 0 <= j < |kps| && IsLastOccurrence(kps, j)
    ensures kps[j].id in IndexById(kps) && IndexById(kps)[kps[j].id] == (kps[j].x, kps[j].y)
  {
    var init := kps[..|kps| - 1];
    if j < |init| {
      assert kps[|kps| - 1].id != kps[j].id;
      assert forall l :: j < l < |init| ==> init[l] == kps[l];
      IndexByIdLast(init, j);
    }
  }

  // ---------------------------------------------------------------------
  // The joint table and the valid pairs
  // ---------------------------------------------------------------------

  /** The five joint groups: right arm, left arm, right leg, left leg, torso. */
  const JointGroups: seq<seq<JointPair>> := [
    [(RightShoulder, RightElbow), (RightElbow, RightWrist)],
    [(LeftShoulder, LeftElbow), (LeftElbow, LeftWrist)],
    [(RightHip, RightKnee), (RightKnee, RightAnkle)],
    [(LeftHip, LeftKnee), (LeftKnee, LeftAnkle)],
    [(RightShoulder, RightHip), (LeftShoulder, LeftHip)]
  ]

  /** The pairs of the groups, group by group. */
  function Flatten(groups: seq<seq<JointPair>>): seq<JointPair>
  {
    if groups == [] then [] else Flatten(groups[..|groups| - 1]) + groups[|groups| - 1]
  }

  /** The ten directed pairs in table order. */
  function JointPairs(): seq<JointPair>
  {
    Flatten(JointGroups)
  }

  /** The five groups hold ten directed pairs of distinct COCO joint ids. */
  lemma JointPairsShape()
    ensures |JointPairs()| == 10
    ensures forall p :: p in JointPairs() ==> 0 <= p.0 < KeypointCount && 0 <= p.1 < KeypointCount && p.0 != p.1
  {
    var groups := JointGroups;
    assert Flatten(groups[..0]) == [];
    assert groups[..1][..0] == groups[..0];
    assert Flatten(groups[..1]) == groups[0];
    assert groups[..2][..1] == groups[..1];
    assert Flatten(groups[..2]) == groups[0] + groups[1];
    assert groups[..3][..2] == groups[..2];
    assert Flatten(groups[..3]) == groups[0] + groups[1] + groups[2];
    assert groups[..4][..3] == groups[..3];
    assert Flatten(groups[..4]) == groups[0] + groups[1] + groups[2] + groups[3];
    assert groups[..5][..4] == groups[..4];
    assert groups[..5] == groups;
    assert Flatten(groups) == groups[0] + groups[1] + groups[2] + groups[3] + groups[4];
  }

  /** Both endpoints of `p` are in both lookups. */
  predicate ValidIn(p: JointPair, user: map<int, Position>, guide: map<int, Position>)
  {
    p.0 in user && p.1 in user && p.0 in guide && p.1 in guide
  }

  /** The pairs of `pairs` whose four lookups succeed, in their order. */
  function ValidAmong(pairs: seq<JointPair>, user: map<int, Position>, guide: map<int, Position>): seq<JointPair>
  {
    if pairs == [] then []
    else
      var last := pairs[|pairs| - 1];
      ValidAmong(pairs[..|pairs| - 1], user, guide) + (if ValidIn(last, user, guide) then [last] else [])
  }

  lemma ValidAmongAppend(pairs: seq<JointPair>, p: JointPair, user: map<int, Position>, guide: map<int, Position>)
    ensures ValidAmong(pairs + [p], user, guide) ==
      ValidAmong(pairs, user, guide) + (if ValidIn(p, user, guide) then [p] else [])
  {
    assert (pairs + [p])[..|pairs|] == pairs;
  }

  /** The `valid_vectors` of the source: the valid pairs of the joint table. */
  function ValidPairs(user: map<int, Position>, guide: map<int, Position>): seq<JointPair>
  {
    ValidAmong(JointPairs(), user, guide)
  }

  /** `xs` is `ys` with some elements left out, order kept. */
  predicate IsSubsequence(xs: seq<JointPair>, ys: seq<JointPair>)
  {
    if xs == [] then true
    else if ys == [] then false
    else
      (xs[|xs| - 1] == ys[|ys| - 1] && IsSubsequence(xs[..|xs| - 1], ys[..|ys| - 1])) ||
      IsSubsequence(xs, ys[..|ys| - 1])
  }

  lemma {:induction false} SubsequenceLength(xs: seq<JointPair>, ys: seq<JointPair>)
    requires IsSubsequence(xs, ys)
    ensures |xs| <= |ys|
  {
    if xs != [] {
      if xs[|xs| - 1] == ys[|ys| - 1] && IsSubsequence(xs[..|xs| - 1], ys[..|ys| - 1]) {
        SubsequenceLength(xs[..|xs| - 1], ys[..|ys| - 1]);
      } else {
        SubsequenceLength(xs, ys[..|ys| - 1]);
      }
    }
  }

  /** A pair is kept exactly when it is in the table and all four lookups succeed. */
  lemma {:induction false} ValidAmongMembers(pairs: seq<JointPair>, user: map<int, Position>, guide: map<int, Position>)
    ensures forall p :: p in ValidAmong(pairs, user, guide) <==> p in pairs && ValidIn(p, user, guide)
  {
    if pairs != [] {
      var init := pairs[..|pairs| - 1];
      ValidAmongMembers(init, user, guide);
      assert pairs == init + [pairs[|pairs| - 1]];
    }
  }

  /** The kept pairs are a subsequence of the table: table order, nothing repeated or added. */
  lemma {:induction false} ValidAmongSubsequence(pairs: seq<JointPair>, user: map<int, Position>, guide: map<int, Position>)
    ensures IsSubsequence(ValidAmong(pairs, user, guide), pairs)
  {
    if pairs != [] {
      var init, last := pairs[..|pairs| - 1], pairs[|pairs| - 1];
      ValidAmongSubsequence(init, user, guide);
      var r := ValidAmong(pairs, user, guide);
      if ValidIn(last, user, guide) {
        assert r[..|r| - 1] == ValidAmong(init, user, guide);
      } else {
        assert r == ValidAmong(init, user, guide);
        SubsequenceOfPrefix(r, init, last);
      }
    }
  }

  lemma SubsequenceOfPrefix(xs: seq<JointPair>, ys: seq<JointPair>, y: JointPair)
    requires IsSubsequence(xs, ys)
    ensures IsSubsequence(xs, ys + [y])
  {
    assert (ys + [y])[..|ys|] == ys;
  }

  /** Whether a pair is valid does not depend on which pose is the user's. */
  lemma {:induction false} ValidAmongSymmetric(pairs: seq<JointPair>, user: map<int, Position>, guide: map<int, Position>)
    ensures ValidAmong(pairs, user, guide) == ValidAmong(pairs, guide, user)
  {
    if pairs != [] {
      ValidAmongSymmetric(pairs[..|pairs| - 1], user, guide);
    }
  }

  /** The source's valid-pair selection: the table order kept, at most ten pairs, symmetric in the two poses. */
  lemma ValidPairsShape(user: map<int, Position>, guide: map<int, Position>)
    ensures forall p :: p in ValidPairs(user, guide) <==> p in JointPairs() && ValidIn(p, user, guide)
    ensures IsSubsequence(ValidPairs(user, guide), JointPairs())
    ensures |ValidPairs(user, guide)| <= 10
    ensures ValidPairs(user, guide) == ValidPairs(guide, user)
  {
    ValidAmongMembers(JointPairs(), user, guide);
    ValidAmongSubsequence(JointPairs(), user, guide);
    SubsequenceLength(ValidPairs(user, guide), JointPairs());
    JointPairsShape();
    ValidAmongSymmetric(JointPairs(), user, guide);
  }

  /** The `valid_vectors` loop over the five groups and their pairs. */
  method SelectValidPairs(user: map<int, Position>, guide: map<int, Position>) returns (valid: seq<JointPair>)
    ensures valid == ValidPairs(user, guide)
    ensures forall p :: p in valid <==> p in JointPairs() && ValidIn(p, user, guide)
    ensures |valid| <= 10
  {
    valid := ValidInGroups(JointGroups, user, guide);
    assert valid == ValidPairs(user, guide);
    ValidPairsShape(user, guide);
  }

  /** The two nested loops of the selection, over any list of groups. */
  method ValidInGroups(groups: seq<seq<JointPair>>, user: map<int, Position>, guide: map<int, Position>)
    returns (valid: seq<JointPair>)
    ensures valid == ValidAmong(Flatten(groups), user, guide)
  {
    valid := [];
    for gi := 0 to |groups|
      invariant valid == ValidAmong(Flatten(groups[..gi]), user, guide)
    {
      var group := groups[gi];
      ghost var done := Flatten(groups[..gi]);
      assert done + group[..0] == done;
      for pi := 0 to |group|
        invariant valid == ValidAmong(done + group[..pi], user, guide)
      {
        var pair := group[pi];
        assert done + group[..pi + 1] == (done + group[..pi]) + [pair];
        ValidAmongAppend(done + group[..pi], pair, user, guide);
        if ValidIn(pair, user, guide) {
          valid := valid + [pair];
        }
      }
      assert groups[..gi + 1][..gi] == groups[..gi];
      assert Flatten(groups[..gi + 1]) == done + group;
      assert group[..|group|] == group;
    }
    assert groups[..|groups|] == groups;
  }

  // ---------------------------------------------------------------------
  // Similarities of the valid pairs
  // ---------------------------------------------------------------------

  /** The displacement of pair `p` in one pose. */
  function PairVector(p: JointPair, index: map<int, Position>): Vec
    requires p.0 in index && p.1 in index
  {
    Displacement(index[p.0], index[p.1])
  }

  /** A valid pair takes part in the average when neither of its vectors has zero length. */
  predicate Contributes(p: JointPair, user: map<int, Position>, guide: map<int, Position>, norm: Vec -> real)
    requires ValidIn(p, user, guide)
  {
    0.0 < norm(PairVector(p, user)) && 0.0 < norm(PairVector(p, guide))
  }

  /** `(cos + 1) / 2` for a contributing pair. */
  function NormalisedSimilarity(p: JointPair, user: map<int, Position>, guide: map<int, Position>, norm: Vec -> real): (s: real)
    requires IsEuclideanNorm(norm) && ValidIn(p, user, guide) && Contributes(p, user, guide, norm)
    ensures 0.0 <= s <= 1.0
    ensures s == 1.0 <==> Aligned(PairVector(p, user), PairVector(p, guide))
    ensures s == 0.0 <==> Opposed(PairVector(p, user), PairVector(p, guide))
  {
    (Cosine(PairVector(p, user), PairVector(p, guide), norm) + 1.0) / 2.0
  }

  /** The `similarities` list: one normalised similarity per contributing pair, in order. */
  function Similarities(pairs: seq<JointPair>, user: map<int, Position>, guide: map<int, Position>, norm: Vec -> real): (r: seq<real>)
    requires IsEuclideanNorm(norm)
    requires forall p :: p in pairs ==> ValidIn(p, user, guide)
    ensures |r| <= |pairs|
    ensures forall s :: s in r ==> 0.0 <= s <= 1.0
  {
    if pairs == [] then []
    else
      var last := pairs[|pairs| - 1];
      var prior := Similarities(pairs[..|pairs| - 1], user, guide, norm);
      if Contributes(last, user, guide, norm) then prior + [NormalisedSimilarity(last, user, guide, norm)]
      else prior
  }

  /** Every value of `s` equals `v`. */
  predicate AllEqual(s: seq<real>, v: real)
  {
    forall x :: x in s ==> x == v
  }

  lemma AllEqualAppend(s: seq<real>, x: real, v: real)
    ensures AllEqual(s + [x], v) <==> AllEqual(s, v) && x == v
  {
    assert x in s + [x];
    assert forall y :: y in s + [x] <==> y in s || y == x;
  }

  /** No pair of `pairs` has two non-zero vectors. */
  predicate NoneContributes(pairs: seq<JointPair>, user: map<int, Position>, guide: map<int, Position>, norm: Vec -> real)
  {
    forall p :: p in pairs ==> ValidIn(p, user, guide) && !Contributes(p, user, guide, norm)
  }

  /** In every contributing pair of `pairs` the user vector points the same way as the guide vector. */
  predicate AllAligned(pairs: seq<JointPair>, user: map<int, Position>, guide: map<int, Position>, norm: Vec -> real)
  {
    forall p :: p in pairs && ValidIn(p, user, guide) && Contributes(p, user, guide, norm) ==>
      Aligned(PairVector(p, user), PairVector(p, guide))
  }

  /** In every contributing pair of `pairs` the user vector points opposite to the guide vector. */
  predicate AllOpposed(pairs: seq<JointPair>, user: map<int, Position>, guide: map<int, Position>, norm: Vec -> real)
  {
    forall p :: p in pairs && ValidIn(p, user, guide) && Contributes(p, user, guide, norm) ==>
      Opposed(PairVector(p, user), PairVector(p, guide))
  }

  lemma PairPredicatesAppend(pairs: seq<JointPair>, p: JointPair, user: map<int, Position>, guide: map<int, Position>, norm: Vec -> real)
    requires ValidIn(p, user, guide)
    ensures NoneContributes(pairs + [p], user, guide, norm) <==>
      NoneContributes(pairs, user, guide, norm) && !Contributes(p, user, guide, norm)
    ensures AllAligned(pairs + [p], user, guide, norm) <==>
      AllAligned(pairs, user, guide, norm) &&
      (Contributes(p, user, guide, norm) ==> Aligned(PairVector(p, user), PairVector(p, guide)))
    ensures AllOpposed(pairs + [p], user, guide, norm) <==>
      AllOpposed(pairs, user, guide, norm) &&
      (Contributes(p, user, guide, norm) ==> Opposed(PairVector(p, user), PairVector(p, guide)))
  {
    assert p in pairs + [p];
    assert forall q :: q in pairs + [p] <==> q in pairs || q == p;
  }

  /**
   * No similarity is produced exactly when no pair contributes; all of them
   * are 1 exactly when every contributing pair is aligned, and all are 0
   * exactly when every contributing pair is opposed.
   */
  lemma {:induction false} SimilaritiesShape(pairs: seq<JointPair>, user: map<int, Position>, guide: map<int, Position>, norm: Vec -> real)
    requires IsEuclideanNorm(norm)
    requires forall p :: p in pairs ==> ValidIn(p, user, guide)
    ensures Similarities(pairs, user, guide, norm) == [] <==> NoneContributes(pairs, user, guide, norm)
    ensures AllEqual(Similarities(pairs, user, guide, norm), 1.0) <==> AllAligned(pairs, user, guide, norm)
    ensures AllEqual(Similarities(pairs, user, guide, norm), 0.0) <==> AllOpposed(pairs, user, guide, norm)
  {
    if pairs != [] {
      var init, last := pairs[..|pairs| - 1], pairs[|pairs| - 1];
      assert pairs == init + [last];
      assert last in pairs;
      assert forall p :: p in init ==> p in pairs;
      SimilaritiesShape(init, user, guide, norm);
      PairPredicatesAppend(init, last, user, guide, norm);
      var prior := Similarities(init, user, guide, norm);
      if Contributes(last, user, guide, norm) {
        var s := NormalisedSimilarity(last, user, guide, norm);
        assert Similarities(pairs, user, guide, norm) == prior + [s];
        AllEqualAppend(prior, s, 1.0);
        AllEqualAppend(prior, s, 0.0);
      } else {
        assert Similarities(pairs, user, guide, norm) == prior;
      }
    }
  }

  /** The similarities do not depend on which pose is the user's. */
  lemma {:induction false} SimilaritiesSymmetric(pairs: seq<JointPair>, user: map<int, Position>, guide: map<int, Position>, norm: Vec -> real)
    requires IsEuclideanNorm(norm)
    requires forall p :: p in pairs ==> ValidIn(p, user, guide)
    ensures forall p :: p in pairs ==> ValidIn(p, guide, user)
    ensures Similarities(pairs, user, guide, norm) == Similarities(pairs, guide, user, norm)
  {
    if pairs != [] {
      var init, last := pairs[..|pairs| - 1], pairs[|pairs| - 1];
      assert last in pairs;
      assert forall p :: p in init ==> p in pairs;
      SimilaritiesSymmetric(init, user, guide, norm);
      assert pairs == init + [last];
      var tail: seq<real> := [];
      if Contributes(last, user, guide, norm) {
        tail := [NormalisedSimilarity(last, user, guide, norm)];
        assert tail == [NormalisedSimilarity(last, guide, user, norm)] by {
          CosineSymmetric(PairVector(last, user), PairVector(last, guide), norm);
        }
      }
      assert Similarities(pairs, user, guide, norm) == Similarities(init, user, guide, norm) + tail by {
        SimilaritiesAppend(init, last, user, guide, norm);
      }
      assert Similarities(pairs, guide, user, norm) == Similarities(init, guide, user, norm) + tail by {
        SimilaritiesAppend(init, last, guide, user, norm);
      }
    }
  }

  lemma SimilaritiesAppend(pairs: seq<JointPair>, p: JointPair, user: map<int, Position>, guide: map<int, Position>, norm: Vec -> real)
    requires IsEuclideanNorm(norm)
    requires forall q :: q in pairs ==> ValidIn(q, user, guide)
    requires ValidIn(p, user, guide)
    ensures forall q :: q in pairs + [p] ==> ValidIn(q, user, guide)
    ensures Similarities(pairs + [p], user, guide, norm) ==
      Similarities(pairs, user, guide, norm) +
      (if Contributes(p, user, guide, norm) then [NormalisedSimilarity(p, user, guide, norm)] else [])
  {
    assert (pairs + [p])[..|pairs|] == pairs;
  }

  // ---------------------------------------------------------------------
  // The mean
  // ---------------------------------------------------------------------

  function Sum(s: seq<real>): real
  {
    if s == [] then 0.0 else Sum(s[..|s| - 1]) + s[|s| - 1]
  }

  /** `np.mean` of a non-empty list. */
  function Mean(s: seq<real>): real
    requires s != []
  {
    Sum(s) / |s| as real
  }

  /** A sum of values in [0, 1] lies in [0, n]; it reaches n only when all are 1 and 0 only when all are 0. */
  lemma {:induction false} SumBounds(s: seq<real>)
    requires forall x :: x in s ==> 0.0 <= x <= 1.0
    ensures 0.0 <= Sum(s) <= |s| as real
    ensures Sum(s) == |s| as real <==> AllEqual(s, 1.0)
    ensures Sum(s) == 0.0 <==> AllEqual(s, 0.0)
  {
    if s != [] {
      var init, last := s[..|s| - 1], s[|s| - 1];
      assert s == init + [last];
      assert last in s;
      assert forall x :: x in s <==> x in init || x == last;
      AllEqualAppend(init, last, 1.0);
      AllEqualAppend(init, last, 0.0);
      SumBounds(init);
      assert Sum(s) == Sum(init) + last;
      assert |s| as real == |init| as real + 1.0;
    }
  }

  /** The mean of values in [0, 1] lies in [0, 1]; it is 1 only when all are 1 and 0 only when all are 0. */
  lemma MeanBounds(s: seq<real>)
    requires s != []
    requires forall x :: x in s ==> 0.0 <= x <= 1.0
    ensures 0.0 <= Mean(s) <= 1.0
    ensures Mean(s) == 1.0 <==> AllEqual(s, 1.0)
    ensures Mean(s) == 0.0 <==> AllEqual(s, 0.0)
  {
    SumBounds(s);
    FractionBounds(Sum(s), |s| as real);
  }

  lemma FractionBounds(d: real, n: real)
    requires 0.0 < n && 0.0 <= d <= n
    ensures 0.0 <= d / n <= 1.0
    ensures d / n == 1.0 <==> d == n
    ensures d / n == 0.0 <==> d == 0.0
  {
    var c := d / n;
    assert c * n == d;
  }

  // ---------------------------------------------------------------------
  // The comparison
  // ---------------------------------------------------------------------

  /** `not guide_keypoints`: no guide list, or an empty one. */
  predicate NoGuide(guide: Option<seq<Keypoint>>)
  {
    guide.None? || |guide.value| == 0
  }

  /** What `compare_poses` computes, path by path, with `sample` the normal draw of the no-guide path. */
  function Compare(user: seq<Keypoint>, guide: Option<seq<Keypoint>>, sample: real, norm: Vec -> real): (a: Accuracy)
    requires IsEuclideanNorm(norm)
    ensures 50.0 <= a.Score() <= 100.0
  {
    if NoGuide(guide) then Placeholder(Clip(sample))
    else
      var u, g := IndexById(user), IndexById(guide.value);
      ValidAmongMembers(JointPairs(), u, g);
      Grade(ValidPairs(u, g), u, g, norm)
  }

  /** The guided path once the valid pairs are chosen: no pair, no contributing pair, or the mapped mean. */
  function Grade(valid: seq<JointPair>, user: map<int, Position>, guide: map<int, Position>, norm: Vec -> real): (a: Accuracy)
    requires IsEuclideanNorm(norm)
    requires forall p :: p in valid ==> ValidIn(p, user, guide)
    ensures 50.0 <= a.Score() <= 100.0
  {
    if valid == [] then NoCorrespondence
    else
      var sims := Similarities(valid, user, guide, norm);
      if sims == [] then AllDegenerate
      else
        MeanBounds(sims);
        Measured(NeutralScore + Mean(sims) * 50.0)
  }

  /** The `similarities` loop over the valid pairs. */
  method CollectSimilarities(valid: seq<JointPair>, user: map<int, Position>, guide: map<int, Position>, norm: Vec -> real)
    returns (similarities: seq<real>)
    requires IsEuclideanNorm(norm)
    requires forall p :: p in valid ==> ValidIn(p, user, guide)
    ensures similarities == Similarities(valid, user, guide, norm)
    ensures forall s :: s in similarities ==> 0.0 <= s <= 1.0
  {
    similarities := [];
    for i := 0 to |valid|
      invariant similarities == Similarities(valid[..i], user, guide, norm)
    {
      ghost var prior := valid[..i];
      assert valid[..i + 1] == prior + [valid[i]];
      assert forall p :: p in prior ==> p in valid;
      SimilaritiesAppend(prior, valid[i], user, guide, norm);
      var (startId, endId) := valid[i];
      var userVector := Displacement(user[startId], user[endId]);
      var guideVector := Displacement(guide[startId], guide[endId]);
      if 0.0 < norm(userVector) && 0.0 < norm(guideVector) {
        var cosSim := Cosine(userVector, guideVector, norm);
        similarities := similarities + [(cosSim + 1.0) / 2.0];
      }
    }
    assert valid[..|valid|] == valid;
  }

  /** With no guide pose the score is the clipped draw, in [50, 100], and no lookup is made. */
  lemma NoGuideFallback(user: seq<Keypoint>, guide: Option<seq<Keypoint>>, sample: real, norm: Vec -> real)
    requires IsEuclideanNorm(norm)
    ensures NoGuide(guide) <==> Compare(user, guide, sample, norm).Placeholder?
    ensures NoGuide(guide) ==>
      Compare(user, guide, sample, norm) == Placeholder(Clip(sample)) &&
      50.0 <= Compare(user, guide, sample, norm).Score() <= 100.0
  {
  }

  /** With a guide but no valid pair the score is exactly 50. */
  lemma NoCorrespondenceFallback(user: seq<Keypoint>, guide: seq<Keypoint>, sample: real, norm: Vec -> real)
    requires IsEuclideanNorm(norm) && guide != []
    ensures Compare(user, Some(guide), sample, norm) == NoCorrespondence <==>
      ValidPairs(IndexById(user), IndexById(guide)) == []
    ensures Compare(user, Some(guide), sample, norm).NoCorrespondence? ==>
      Compare(user, Some(guide), sample, norm).Score() == 50.0
  {
  }

  /** A table none of whose pairs is found in both lookups keeps nothing. */
  lemma {:induction false} ValidAmongNone(pairs: seq<JointPair>, user: map<int, Position>, guide: map<int, Position>)
    requires forall p :: p in pairs ==> !ValidIn(p, user, guide)
    ensures ValidAmong(pairs, user, guide) == []
  {
    if pairs != [] {
      var init := pairs[..|pairs| - 1];
      assert forall p :: p in init ==> p in pairs;
      assert pairs[|pairs| - 1] in pairs;
      ValidAmongNone(init, user, guide);
    }
  }

  /** `id` is an endpoint of some pair of the joint table. */
  predicate TableJoint(id: int)
  {
    exists p :: p in JointPairs() && (p.0 == id || p.1 == id)
  }

  /** Two poses that share no joint id of the table fall back to exactly 50, whatever other ids they share. */
  lemma DisjointPosesScoreFifty(user: seq<Keypoint>, guide: seq<Keypoint>, sample: real, norm: Vec -> real)
    requires IsEuclideanNorm(norm) && guide != []
    requires forall a, b :: a in user && b in guide && a.id == b.id ==> !TableJoint(a.id)
    ensures Compare(user, Some(guide), sample, norm) == NoCorrespondence
    ensures Compare(user, Some(guide), sample, norm).Score() == 50.0
  {
    var u, g := IndexById(user), IndexById(guide);
    IndexByIdShape(user);
    IndexByIdShape(guide);
    forall p | p in JointPairs()
      ensures !ValidIn(p, u, g)
    {
      assert TableJoint(p.0);
      if p.0 in u {
        var a :| a in user && a.id == p.0;
        assert forall b :: b in guide ==> b.id != p.0;
      }
    }
    ValidAmongNone(JointPairs(), u, g);
  }

  /** The guided path scores exactly 50 on degenerate vectors, and only when every valid pair is degenerate. */
  lemma GradeDegenerate(valid: seq<JointPair>, user: map<int, Position>, guide: map<int, Position>, norm: Vec -> real)
    requires IsEuclideanNorm(norm)
    requires forall p :: p in valid ==> ValidIn(p, user, guide)
    ensures Grade(valid, user, guide, norm) == AllDegenerate <==>
      valid != [] && NoneContributes(valid, user, guide, norm)
  {
    SimilaritiesShape(valid, user, guide, norm);
  }

  /** With valid pairs that all have a zero-length vector on one side, the score is exactly 50. */
  lemma DegenerateFallback(user: seq<Keypoint>, guide: seq<Keypoint>, sample: real, norm: Vec -> real)
    requires IsEuclideanNorm(norm) && guide != []
    ensures Compare(user, Some(guide), sample, norm) == AllDegenerate <==>
      var u, g := IndexById(user), IndexById(guide);
      ValidPairs(u, g) != [] && NoneContributes(ValidPairs(u, g), u, g, norm)
    ensures Compare(user, Some(guide), sample, norm).AllDegenerate? ==>
      Compare(user, Some(guide), sample, norm).Score() == 50.0
  {
    var u, g := IndexById(user), IndexById(guide);
    ValidAmongMembers(JointPairs(), u, g);
    GradeDegenerate(ValidPairs(u, g), u, g, norm);
  }

  /** A mean of similarities, mapped onto [50, 100], is 100 exactly when all are 1 and 50 exactly when all are 0. */
  lemma ScaledMeanExtremes(sims: seq<real>)
    requires sims != [] && forall x :: x in sims ==> 0.0 <= x <= 1.0
    ensures NeutralScore + Mean(sims) * 50.0 == 100.0 <==> AllEqual(sims, 1.0)
    ensures NeutralScore + Mean(sims) * 50.0 == 50.0 <==> AllEqual(sims, 0.0)
  {
    MeanBounds(sims);
  }

  /** The guided path scores 100 exactly when some pair contributes and every contributing pair is aligned. */
  lemma GradeAligned(valid: seq<JointPair>, user: map<int, Position>, guide: map<int, Position>, norm: Vec -> real)
    requires IsEuclideanNorm(norm)
    requires forall p :: p in valid ==> ValidIn(p, user, guide)
    ensures Grade(valid, user, guide, norm) == Measured(100.0) <==>
      !NoneContributes(valid, user, guide, norm) && AllAligned(valid, user, guide, norm)
  {
    SimilaritiesShape(valid, user, guide, norm);
    var sims := Similarities(valid, user, guide, norm);
    if sims != [] {
      ScaledMeanExtremes(sims);
    }
  }

  /** The guided path scores a measured 50 exactly when some pair contributes and every contributing pair is opposed. */
  lemma GradeOpposed(valid: seq<JointPair>, user: map<int, Position>, guide: map<int, Position>, norm: Vec -> real)
    requires IsEuclideanNorm(norm)
    requires forall p :: p in valid ==> ValidIn(p, user, guide)
    ensures Grade(valid, user, guide, norm) == Measured(50.0) <==>
      !NoneContributes(valid, user, guide, norm) && AllOpposed(valid, user, guide, norm)
  {
    SimilaritiesShape(valid, user, guide, norm);
    var sims := Similarities(valid, user, guide, norm);
    if sims != [] {
      ScaledMeanExtremes(sims);
    }
  }

  /**
   * On the measured path the score is 100 exactly when some valid pair
   * contributes and in every contributing pair the user vector points the
   * same way as the guide vector.
   */
  lemma AlignedScoresHundred(user: seq<Keypoint>, guide: seq<Keypoint>, sample: real, norm: Vec -> real)
    requires IsEuclideanNorm(norm) && guide != []
    ensures Compare(user, Some(guide), sample, norm) == Measured(100.0) <==>
      var u, g := IndexById(user), IndexById(guide);
      !NoneContributes(ValidPairs(u, g), u, g, norm) && AllAligned(ValidPairs(u, g), u, g, norm)
  {
    var u, g := IndexById(user), IndexById(guide);
    ValidAmongMembers(JointPairs(), u, g);
    GradeAligned(ValidPairs(u, g), u, g, norm);
  }

  /**
   * On the measured path the score is exactly 50 when some valid pair
   * contributes and in every contributing pair the user vector points
   * opposite to the guide vector, and only then.
   */
  lemma OpposedScoresFifty(user: seq<Keypoint>, guide: seq<Keypoint>, sample: real, norm: Vec -> real)
    requires IsEuclideanNorm(norm) && guide != []
    ensures Compare(user, Some(guide), sample, norm) == Measured(50.0) <==>
      var u, g := IndexById(user), IndexById(guide);
      !NoneContributes(ValidPairs(u, g), u, g, norm) && AllOpposed(ValidPairs(u, g), u, g, norm)
  {
    var u, g := IndexById(user), IndexById(guide);
    ValidAmongMembers(JointPairs(), u, g);
    GradeOpposed(ValidPairs(u, g), u, g, norm);
  }

  lemma MeanSingleton(s: real)
    ensures Mean([s]) == s
  {
    assert [s][..0] == [];
    assert Sum([s]) == Sum([]) + s;
  }

  /** A single contributing pair is graded by its own similarity, mapped onto [50, 100]. */
  lemma GradeSingle(p: JointPair, user: map<int, Position>, guide: map<int, Position>, norm: Vec -> real)
    requires IsEuclideanNorm(norm) && ValidIn(p, user, guide) && Contributes(p, user, guide, norm)
    ensures Grade([p], user, guide, norm) == Measured(50.0 + NormalisedSimilarity(p, user, guide, norm) * 50.0)
  {
    SimilaritiesAppend([], p, user, guide, norm);
    assert [] + [p] == [p];
    MeanSingleton(NormalisedSimilarity(p, user, guide, norm));
  }

  /** When a single valid pair contributes, the score is that pair's similarity alone, mapped onto [50, 100]. */
  lemma SinglePairScore(user: seq<Keypoint>, guide: seq<Keypoint>, sample: real, norm: Vec -> real, p: JointPair)
    requires IsEuclideanNorm(norm) && guide != []
    requires ValidPairs(IndexById(user), IndexById(guide)) == [p]
    requires ValidIn(p, IndexById(user), IndexById(guide))
    requires Contributes(p, IndexById(user), IndexById(guide), norm)
    ensures Compare(user, Some(guide), sample, norm) ==
      Measured(50.0 + NormalisedSimilarity(p, IndexById(user), IndexById(guide), norm) * 50.0)
  {
    GradeSingle(p, IndexById(user), IndexById(guide), norm);
  }

  /** With both poses present, swapping user and guide changes nothing, not even the value. */
  lemma CompareSymmetric(user: seq<Keypoint>, guide: seq<Keypoint>, sample: real, norm: Vec -> real)
    requires IsEuclideanNorm(norm) && user != [] && guide != []
    ensures Compare(user, Some(guide), sample, norm) == Compare(guide, Some(user), sample, norm)
  {
    var u, g := IndexById(user), IndexById(guide);
    ValidPairsShape(u, g);
    ValidAmongMembers(JointPairs(), u, g);
    var valid := ValidPairs(u, g);
    assert valid == ValidPairs(g, u);
    SimilaritiesSymmetric(valid, u, g, norm);
  }

  /** `compare_poses`, loop by loop, as the source writes it. */
  method ComparePoses(user: seq<Keypoint>, guide: Option<seq<Keypoint>>, sample: real, norm: Vec -> real) returns (a: Accuracy)
    requires IsEuclideanNorm(norm)
    ensures a == Compare(user, guide, sample, norm)
    ensures 50.0 <= a.Score() <= 100.0
  {
    if guide.None? || |guide.value| == 0 {
      return Placeholder(Clip(sample));
    }
    var userIndex := IndexById(user);
    var guideIndex := IndexById(guide.value);
    var valid := SelectValidPairs(userIndex, guideIndex);
    if valid == [] {
      return NoCorrespondence;
    }
    var similarities := CollectSimilarities(valid, userIndex, guideIndex, norm);
    if similarities == [] {
      return AllDegenerate;
    }
    var avgSimilarity := Mean(similarities);
    return Measured(NeutralScore + avgSimilarity * 50.0);
  }
}
