/**
 * Tracking accuracy, failures and expected-average-overlap segments of the
 * SiamRPN evaluation (research/cv/siamRPN/infer/mxbase/postprocess.py).
 *
 * A frame's prediction is a list of numbers: a single number, or a first
 * number 0, 1 or 2, is a status code (2 marks a tracking failure); anything
 * else is a box. Floating-point results are modelled with `Overlap`, which
 * keeps numpy's NaN and infinity apart from ordinary reals.
 */
module SiamRpnPost {
  import opened Wrappers

  datatype Overlap = NaN | Inf | Num(v: real)

  datatype Box = Box(x1: real, y1: real, x2: real, y2: real)

  function MaxR(a: real, b: real): real { if a >= b then a else b }
  function MinR(a: real, b: real): real { if a <= b then a else b }

  /** `t[np.where(t < 0)] = 0`. */
  function ClampZero(t: real): (r: real)
    ensures r >= 0.0 && (t >= 0.0 ==> r == t)
  {
    if t < 0.0 then 0.0 else t
  }

  function Area(b: Box): real
  {
    (b.x2 - b.x1) * (b.y2 - b.y1)
  }

  /** The overlap of the intervals [lo1, hi1] and [lo2, hi2], cut to 0 when they are disjoint. */
  function Extent(lo1: real, hi1: real, lo2: real, hi2: real): (r: real)
    ensures r >= 0.0
  {
    ClampZero(MinR(hi1, hi2) - MaxR(lo1, lo2))
  }

  /** The overlap area of two boxes, with negative extents cut to 0. */
  function Intersection(a: Box, b: Box): (r: real)
    ensures r >= 0.0
  {
    var w := Extent(a.x1, a.x2, b.x1, b.x2);
    var h := Extent(a.y1, a.y2, b.y1, b.y2);
    MulNonNeg(w, h);
    w * h
  }

  lemma MulNonNeg(a: real, b: real)
    requires a >= 0.0 && b >= 0.0
    ensures a * b >= 0.0
  {
  }

  /** numpy division of a non-negative numerator: 0/0 is NaN, x/0 is infinity. */
  function Divide(num: real, den: real): (o: Overlap)
    requires num >= 0.0
    ensures den != 0.0 ==> o == Num(num / den)
    ensures den == 0.0 ==> (o == NaN <==> num == 0.0) && (o == Inf <==> num > 0.0)
  {
    if den != 0.0 then Num(num / den) else if num == 0.0 then NaN else Inf
  }

  /** Intersection over union of one pair. */
  function IouPair(a: Box, b: Box): Overlap
  {
    var over := Intersection(a, b);
    Divide(over, Area(a) + Area(b) - over)
  }

  /** `iou(box1, box2)`: the N x K grid of pairwise intersection over union. */
  function Iou(box1s: seq<Box>, box2s: seq<Box>): (g: seq<seq<Overlap>>)
    ensures |g| == |box1s|
    ensures forall n | 0 <= n < |g| :: |g[n]| == |box2s|
    ensures forall n, k | 0 <= n < |box1s| && 0 <= k < |box2s| :: g[n][k] == IouPair(box1s[n], box2s[k])
  {
    seq(|box1s|, n requires 0 <= n < |box1s| =>
      seq(|box2s|, k requires 0 <= k < |box2s| => IouPair(box1s[n], box2s[k])))
  }

  /** Swapping the arguments transposes the grid. */
  lemma IouTranspose(box1s: seq<Box>, box2s: seq<Box>)
    ensures forall n, k | 0 <= n < |box1s| && 0 <= k < |box2s| :: Iou(box2s, box1s)[k][n] == Iou(box1s, box2s)[n][k]
  {
    forall n, k | 0 <= n < |box1s| && 0 <= k < |box2s|
      ensures IouPair(box2s[k], box1s[n]) == IouPair(box1s[n], box2s[k])
    {
      IouSymmetric(box1s[n], box2s[k]);
    }
  }

  lemma IouSymmetric(a: Box, b: Box)
    ensures IouPair(a, b) == IouPair(b, a)
  {
    assert Extent(a.x1, a.x2, b.x1, b.x2) == Extent(b.x1, b.x2, a.x1, a.x2);
    assert Extent(a.y1, a.y2, b.y1, b.y2) == Extent(b.y1, b.y2, a.y1, a.y2);
    var over := Intersection(a, b);
    assert over == Intersection(b, a);
    assert Area(a) + Area(b) - over == Area(b) + Area(a) - over;
  }

  predicate Proper(b: Box)
  {
    b.x1 <= b.x2 && b.y1 <= b.y2
  }

  /** The overlap of two proper boxes never exceeds either area. */
  lemma IntersectionBounded(a: Box, b: Box)
    requires Proper(a) && Proper(b)
    ensures Intersection(a, b) <= Area(a) && Intersection(a, b) <= Area(b)
  {
    var w := Extent(a.x1, a.x2, b.x1, b.x2);
    var h := Extent(a.y1, a.y2, b.y1, b.y2);
    ExtentBounded(a.x1, a.x2, b.x1, b.x2);
    ExtentBounded(a.y1, a.y2, b.y1, b.y2);
    AreaBounded(w, h, a);
    AreaBounded(w, h, b);
  }

  /** The clamped overlap of two intervals is no longer than either. */
  lemma ExtentBounded(lo1: real, hi1: real, lo2: real, hi2: real)
    requires lo1 <= hi1 && lo2 <= hi2
    ensures Extent(lo1, hi1, lo2, hi2) <= hi1 - lo1
    ensures Extent(lo1, hi1, lo2, hi2) <= hi2 - lo2
  {
  }

  /** A rectangle that fits inside a box's sides has at most its area. */
  lemma AreaBounded(w: real, h: real, b: Box)
    requires 0.0 <= w <= b.x2 - b.x1 && 0.0 <= h <= b.y2 - b.y1
    ensures w * h <= Area(b)
  {
    MulBounded(w, h, b.x2 - b.x1, b.y2 - b.y1);
  }

  lemma MulBounded(w: real, h: real, wa: real, ha: real)
    requires 0.0 <= w <= wa && 0.0 <= h <= ha
    ensures w * h <= wa * ha
  {
    assert w * h <= wa * h;
    assert wa * h <= wa * ha;
  }

  /** For proper boxes that are not both empty the result is a ratio in [0, 1]. */
  lemma IouInUnitInterval(a: Box, b: Box)
    requires Proper(a) && Proper(b) && Area(a) + Area(b) > 0.0
    ensures IouPair(a, b).Num? && 0.0 <= IouPair(a, b).v <= 1.0
  {
    IntersectionBounded(a, b);
    MulNonNeg(a.x2 - a.x1, a.y2 - a.y1);
    MulNonNeg(b.x2 - b.x1, b.y2 - b.y1);
    var over := Intersection(a, b);
    var areaA, areaB := Area(a), Area(b);
    var all := areaA + areaB - over;
    assert all > 0.0 && over <= all;
    RatioInUnitInterval(over, all);
  }

  lemma RatioInUnitInterval(x: real, y: real)
    requires 0.0 <= x <= y && y > 0.0
    ensures 0.0 <= x / y <= 1.0
  {
  }

  /** A proper box with positive area overlaps itself completely. */
  lemma IouSelf(a: Box)
    requires Proper(a) && Area(a) > 0.0
    ensures IouPair(a, a) == Num(1.0)
  {
    var w := a.x2 - a.x1;
    var h := a.y2 - a.y1;
    assert Extent(a.x1, a.x2, a.x1, a.x2) == w;
    assert Extent(a.y1, a.y2, a.y1, a.y2) == h;
    assert Intersection(a, a) == w * h == Area(a);
    assert Area(a) + Area(a) - Area(a) == Area(a);
    assert Area(a) / Area(a) == 1.0;
  }

  /** `np.array(xs).reshape(-1, 4)`: consecutive groups of four numbers. */
  function Boxes(xs: seq<real>): (r: Result<seq<Box>>)
    ensures r.Err? <==> |xs| % 4 != 0
    ensures r.Ok? ==> |r.value| * 4 == |xs|
    ensures r.Ok? ==> forall n | 0 <= n < |r.value| ::
      r.value[n] == Box(xs[4 * n], xs[4 * n + 1], xs[4 * n + 2], xs[4 * n + 3])
  {
    if |xs| % 4 != 0 then Err(ValueError)
    else Ok(seq(|xs| / 4, n requires 0 <= n < |xs| / 4 => Box(xs[4 * n], xs[4 * n + 1], xs[4 * n + 2], xs[4 * n + 3])))
  }

  /** A frame whose prediction is a status code rather than a box. */
  predicate Unmeasured(pred: seq<real>)
    requires |pred| > 0
  {
    |pred| == 1 || pred[0] == 2.0 || pred[0] == 1.0 || pred[0] == 0.0
  }

  predicate IsFailure(pred: seq<real>)
    requires |pred| > 0
  {
    pred[0] == 2.0
  }

  /** Frame `i` is measured and its ground truth has a supported length (4 or 8). */
  predicate MeasuredWithShape(pred: seq<seq<real>>, gt: seq<seq<real>>, i: nat)
    requires i < |pred|
  {
    |pred[i]| > 0 && !Unmeasured(pred[i]) && i < |gt| && (|gt[i]| == 4 || |gt[i]| == 8)
  }

  /**
   * The latest frame before `i` that assigned the loop's `overlap`
   * variable, or -1; a frame with another ground-truth length reuses it.
   */
  function LastAssigned(pred: seq<seq<real>>, gt: seq<seq<real>>, i: nat): (j: int)
    requires i <= |pred|
    ensures -1 <= j < i
    ensures j >= 0 ==> MeasuredWithShape(pred, gt, j)
    ensures forall k | j < k < i :: !MeasuredWithShape(pred, gt, k)
  {
    if i == 0 then -1
    else if MeasuredWithShape(pred, gt, i - 1) then i - 1
    else LastAssigned(pred, gt, i - 1)
  }

  /** The overlap a measured frame computes, given the value left by earlier frames. */
  function FrameOverlap(pred: seq<real>, gt: seq<real>, stale: Option<seq<seq<Overlap>>>,
                        polygonOverlap: (seq<real>, seq<real>) -> Overlap): Result<seq<seq<Overlap>>>
  {
    if |gt| == 8 then
      if |pred| < 4 then Err(IndexError) else Ok([[polygonOverlap(pred[..4], gt)]])
    else if |gt| == 4 then
      var b1 :- Boxes(pred);
      Ok(Iou(b1, Boxes(gt).value))
    else if stale.None? then Err(UnboundLocalError)
    else Ok(stale.value)
  }

  /** Frame `i` succeeds: its prediction is non-empty and, if it is a box, its ground truth can be used. */
  predicate FrameOk(pred: seq<seq<real>>, gt: seq<seq<real>>, i: nat)
    requires i < |pred|
  {
    |pred[i]| > 0 &&
    (!Unmeasured(pred[i]) ==>
      i < |gt| &&
      (|gt[i]| == 8 ==> |pred[i]| >= 4) &&
      (|gt[i]| == 4 ==> |pred[i]| % 4 == 0) &&
      (|gt[i]| != 4 && |gt[i]| != 8 ==> LastAssigned(pred, gt, i) >= 0))
  }

  predicate FramesOk(pred: seq<seq<real>>, gt: seq<seq<real>>)
  {
    (forall i | 0 <= i < |pred| :: |pred[i]| > 0) &&
    forall i | 0 <= i < |pred| :: FrameOk(pred, gt, i)
  }

  /** The value of the loop's `overlap` variable when frame `i` starts. */
  function Stale(pred: seq<seq<real>>, gt: seq<seq<real>>, overlaps: seq<seq<seq<Overlap>>>, i: nat): Option<seq<seq<Overlap>>>
    requires i <= |pred| && i <= |overlaps|
  {
    var j := LastAssigned(pred, gt, i);
    if j < 0 then None else Some(overlaps[j])
  }

  /** The overlap recorded for frame `k`. */
  predicate Recorded(pred: seq<seq<real>>, gt: seq<seq<real>>, overlaps: seq<seq<seq<Overlap>>>, k: nat,
                     polygonOverlap: (seq<real>, seq<real>) -> Overlap)
    requires k < |pred| && k < |overlaps| && |pred[k]| > 0
  {
    if Unmeasured(pred[k]) then overlaps[k] == [[NaN]]
    else k < |gt| && FrameOverlap(pred[k], gt[k], Stale(pred, gt, overlaps, k), polygonOverlap) == Ok(overlaps[k])
  }

  /** The indices of failure frames among the first `n`, ascending. */
  function FailureFrames(pred: seq<seq<real>>, n: nat): (f: seq<nat>)
    requires n <= |pred| && forall i | 0 <= i < n :: |pred[i]| > 0
    ensures |f| <= n
    ensures forall k | 0 <= k < |f| :: f[k] < n && IsFailure(pred[f[k]])
    ensures forall k, l | 0 <= k < l < |f| :: f[k] < f[l]
    ensures forall i | 0 <= i < n && IsFailure(pred[i]) :: i in f
  {
    if n == 0 then [] else FailureFrames(pred, n - 1) + (if IsFailure(pred[n - 1]) then [n - 1] else [])
  }

  /** `acc`: 0 for no frames, otherwise the NaN-ignoring mean of the overlaps. */
  datatype Accuracy = Zero | NanMeanOf(overlaps: seq<seq<seq<Overlap>>>)

  datatype AccuracyFailures = AccuracyFailures(acc: Accuracy, overlaps: seq<seq<seq<Overlap>>>,
                                               failures: seq<nat>, numFailures: nat)

  /**
   * `calculate_accuracy_failures`. Each frame contributes one overlap grid
   * (`[[NaN]]` for status frames); `polygonOverlap` stands for the shapely
   * computation on 8-number ground truths, which is outside this model.
   */
  method CalculateAccuracyFailures(pred: seq<seq<real>>, gt: seq<seq<real>>,
                                   polygonOverlap: (seq<real>, seq<real>) -> Overlap)
    returns (r: Result<AccuracyFailures>)
    ensures r.Ok? <==> FramesOk(pred, gt)
    ensures r.Ok? ==> |r.value.overlaps| == |pred|
    ensures r.Ok? ==> r.value.failures == FailureFrames(pred, |pred|) && r.value.numFailures == |r.value.failures|
    ensures r.Ok? ==> (r.value.acc == Zero <==> |pred| == 0)
    ensures r.Ok? ==> forall i | 0 <= i < |pred| :: Recorded(pred, gt, r.value.overlaps, i, polygonOverlap)
  {
    var st := LoopState([], [], None);
    for i := 0 to |pred|
      invariant LoopInvariant(pred, gt, polygonOverlap, i, st)
    {
      var next := FrameStep(pred, gt, polygonOverlap, i, st);
      if next.Err? {
        return Err(next.error);
      }
      st := next.value;
    }
    var acc := if |st.overlaps| > 0 then NanMeanOf(st.overlaps) else Zero;
    return Ok(AccuracyFailures(acc, st.overlaps, st.failures, |st.failures|));
  }

  /** The loop's variables: the overlaps and failures so far and the last assigned `overlap`. */
  datatype LoopState = LoopState(overlaps: seq<seq<seq<Overlap>>>, failures: seq<nat>, overlap: Option<seq<seq<Overlap>>>)

  /** What holds after the first `i` frames. */
  predicate LoopInvariant(pred: seq<seq<real>>, gt: seq<seq<real>>, polygonOverlap: (seq<real>, seq<real>) -> Overlap,
                          i: nat, st: LoopState)
  {
    i <= |pred| &&
    |st.overlaps| == i &&
    (forall k | 0 <= k < i :: |pred[k]| > 0) &&
    (forall k | 0 <= k < i :: FrameOk(pred, gt, k)) &&
    st.failures == FailureFrames(pred, i) &&
    st.overlap == Stale(pred, gt, st.overlaps, i) &&
    (forall k | 0 <= k < i :: Recorded(pred, gt, st.overlaps, k, polygonOverlap))
  }

  /** One iteration of the frame loop: frame `i` is recorded, or it fails and so does the whole call. */
  method FrameStep(pred: seq<seq<real>>, gt: seq<seq<real>>, polygonOverlap: (seq<real>, seq<real>) -> Overlap,
                   i: nat, st: LoopState) returns (next: Result<LoopState>)
    requires i < |pred| && LoopInvariant(pred, gt, polygonOverlap, i, st)
    ensures next.Err? ==> !FrameOk(pred, gt, i)
    ensures next.Ok? ==> LoopInvariant(pred, gt, polygonOverlap, i + 1, next.value)
  {
    if |pred[i]| == 0 {
      return Err(IndexError);
    }
    var v: seq<seq<Overlap>>;
    if Unmeasured(pred[i]) {
      v := [[NaN]];
    } else {
      if i >= |gt| {
        return Err(IndexError);
      }
      var o := FrameOverlap(pred[i], gt[i], st.overlap, polygonOverlap);
      if o.Err? {
        return Err(o.error);
      }
      v := o.value;
    }
    InvariantStep(pred, gt, polygonOverlap, i, st, v);
    next := Ok(NextState(pred, gt, i, st, v));
  }

  /**
   * The loop variables after frame `i` recorded `v`: a status frame whose
   * code is 2 joins the failures, and a measured frame with a supported
   * ground-truth length becomes the new `overlap`.
   */
  function NextState(pred: seq<seq<real>>, gt: seq<seq<real>>, i: nat, st: LoopState, v: seq<seq<Overlap>>): LoopState
    requires i < |pred| && |pred[i]| > 0
  {
    LoopState(st.overlaps + [v],
              st.failures + (if IsFailure(pred[i]) then [i] else []),
              if MeasuredWithShape(pred, gt, i) then Some(v) else st.overlap)
  }

  /** Recording the value the frame computes keeps the loop invariant. */
  lemma InvariantStep(pred: seq<seq<real>>, gt: seq<seq<real>>, polygonOverlap: (seq<real>, seq<real>) -> Overlap,
                      i: nat, st: LoopState, v: seq<seq<Overlap>>)
    requires i < |pred| && |pred[i]| > 0 && LoopInvariant(pred, gt, polygonOverlap, i, st)
    requires Unmeasured(pred[i]) ==> v == [[NaN]]
    requires !Unmeasured(pred[i]) ==> i < |gt| && FrameOverlap(pred[i], gt[i], st.overlap, polygonOverlap) == Ok(v)
    ensures LoopInvariant(pred, gt, polygonOverlap, i + 1, NextState(pred, gt, i, st, v))
  {
    var after := st.overlaps + [v];
    assert after[..i] == st.overlaps;
    RecordedKept(pred, gt, st.overlaps, after, i, polygonOverlap);
    StaleStep(pred, gt, st.overlaps, after, i);
    assert Recorded(pred, gt, after, i, polygonOverlap);
    RecordedFrameOk(pred, gt, i, st.overlap, v, polygonOverlap);
    assert NextState(pred, gt, i, st, v).failures == FailureFrames(pred, i + 1);
  }

  /** A frame whose overlap could be computed from the value left by earlier frames succeeds. */
  lemma RecordedFrameOk(pred: seq<seq<real>>, gt: seq<seq<real>>, i: nat, stale: Option<seq<seq<Overlap>>>,
                        v: seq<seq<Overlap>>, polygonOverlap: (seq<real>, seq<real>) -> Overlap)
    requires i < |pred| && |pred[i]| > 0
    requires stale.Some? <==> LastAssigned(pred, gt, i) >= 0
    requires !Unmeasured(pred[i]) ==> i < |gt| && FrameOverlap(pred[i], gt[i], stale, polygonOverlap) == Ok(v)
    ensures FrameOk(pred, gt, i)
  {
  }

  /** The `overlap` variable after frame `i`: that frame's value if it assigned one, the earlier value otherwise. */
  lemma StaleStep(pred: seq<seq<real>>, gt: seq<seq<real>>, before: seq<seq<seq<Overlap>>>, after: seq<seq<seq<Overlap>>>, i: nat)
    requires i < |pred| && |before| == i && |after| == i + 1 && after[..i] == before
    ensures Stale(pred, gt, after, i + 1) == if MeasuredWithShape(pred, gt, i) then Some(after[i]) else Stale(pred, gt, before, i)
  {
    var j := LastAssigned(pred, gt, i);
    if !MeasuredWithShape(pred, gt, i) && j >= 0 {
      assert after[j] == before[j];
    }
  }

  /** Appending a frame's overlap leaves the records of the earlier frames as they were. */
  lemma RecordedKept(pred: seq<seq<real>>, gt: seq<seq<real>>, before: seq<seq<seq<Overlap>>>,
                     after: seq<seq<seq<Overlap>>>, i: nat, polygonOverlap: (seq<real>, seq<real>) -> Overlap)
    requires i < |pred| && |before| == i && |after| == i + 1 && after[..i] == before
    requires forall k | 0 <= k < i :: |pred[k]| > 0 && Recorded(pred, gt, before, k, polygonOverlap)
    ensures forall k | 0 <= k < i :: Recorded(pred, gt, after, k, polygonOverlap)
  {
    forall k | 0 <= k < i
      ensures Recorded(pred, gt, after, k, polygonOverlap)
    {
      assert after[k] == before[k];
      var j := LastAssigned(pred, gt, k);
      if j >= 0 {
        assert after[j] == before[j];
      }
      assert Stale(pred, gt, after, k) == Stale(pred, gt, before, k);
    }
  }

  // ---------------------------------------------------------------------
  // Segments of the expected average overlap (`_calculate_eao`)
  // ---------------------------------------------------------------------

  function Sum(xs: seq<nat>): nat
  {
    if |xs| == 0 then 0 else Sum(xs[..|xs| - 1]) + xs[|xs| - 1]
  }

  /** `fragment_num`: one slot per failure plus one per video. */
  function FragmentNum(allFailures: seq<seq<nat>>): (n: nat)
    ensures n >= |allFailures|
  {
    if |allFailures| == 0 then 0
    else FragmentNum(allFailures[..|allFailures| - 1]) + |allFailures[|allFailures| - 1]| + 1
  }

  /** The restart points: 0, then each failure moved `skipping` frames on, if still inside the video. */
  function SplitPoints(failures: seq<nat>, skipping: nat, n: nat): (points: seq<nat>)
    ensures |points| >= 1 && points[0] == 0 && |points| <= |failures| + 1
    ensures forall k | 1 <= k < |points| :: points[k] <= n
  {
    [0] + Restarts(failures, skipping, n)
  }

  function Restarts(failures: seq<nat>, skipping: nat, n: nat): (r: seq<nat>)
    ensures |r| <= |failures|
    ensures forall k | 0 <= k < |r| :: r[k] <= n && r[k] >= skipping
  {
    if |failures| == 0 then []
    else
      var x := failures[0] + skipping;
      (if x <= n then [x] else []) + Restarts(failures[1..], skipping, n)
  }

  /** The restarts are exactly the shifted failures that stay inside the video. */
  lemma {:induction false} RestartsMembers(failures: seq<nat>, skipping: nat, n: nat, x: nat)
    ensures x in Restarts(failures, skipping, n) <==> exists f | f in failures :: f + skipping == x && x <= n
  {
    if |failures| > 0 {
      RestartsMembers(failures[1..], skipping, n, x);
      if x in Restarts(failures, skipping, n) {
        if x == failures[0] + skipping && x <= n {
          assert failures[0] in failures;
        } else {
          assert x in Restarts(failures[1..], skipping, n);
          var f :| f in failures[1..] && f + skipping == x && x <= n;
          assert f in failures;
        }
      }
      if exists f | f in failures :: f + skipping == x && x <= n {
        var f :| f in failures && f + skipping == x && x <= n;
        if f != failures[0] {
          assert f in failures[1..];
        }
      }
    }
  }

  /** For ascending failures and a positive skip the split points are strictly increasing. */
  lemma {:induction false} SplitPointsIncreasing(failures: seq<nat>, skipping: nat, n: nat)
    requires skipping > 0
    requires Ascending(failures)
    ensures Ascending(SplitPoints(failures, skipping, n))
  {
    RestartsIncreasing(failures, skipping, n);
    ConsAscending(0, Restarts(failures, skipping, n));
  }

  lemma {:induction false} RestartsIncreasing(failures: seq<nat>, skipping: nat, n: nat)
    requires Ascending(failures)
    ensures Ascending(Restarts(failures, skipping, n))
    ensures var r := Restarts(failures, skipping, n); |r| > 0 && |failures| > 0 ==> r[0] >= failures[0] + skipping
  {
    if |failures| > 0 {
      var rest := failures[1..];
      assert Ascending(rest) by {
        forall k, l | 0 <= k < l < |rest| ensures rest[k] < rest[l] {
          assert rest[k] == failures[k + 1] && rest[l] == failures[l + 1];
        }
      }
      RestartsIncreasing(rest, skipping, n);
      var r := Restarts(rest, skipping, n);
      var x := failures[0] + skipping;
      if |r| > 0 {
        assert failures[0] < rest[0] by { assert rest[0] == failures[1]; }
      }
      if x <= n {
        ConsAscending(x, r);
        assert [x] + r == Restarts(failures, skipping, n);
      } else {
        assert r == Restarts(failures, skipping, n);
      }
    }
  }

  /** Strictly increasing. */
  predicate Ascending(s: seq<nat>)
  {
    forall k, l | 0 <= k < l < |s| :: s[k] < s[l]
  }

  lemma ConsAscending(x: nat, r: seq<nat>)
    requires Ascending(r) && (|r| > 0 ==> x < r[0])
    ensures Ascending([x] + r)
  {
    var res := [x] + r;
    forall k, l | 0 <= k < l < |res|
      ensures res[k] < res[l]
    {
      assert res[l] == r[l - 1];
      if k > 0 {
        assert res[k] == r[k - 1];
      } else {
        assert r[0] <= r[l - 1];
      }
    }
  }

  /** `s[a:b]` with Python's clamping, for `0 <= a`. */
  function Slice<T>(s: seq<T>, a: nat, b: nat): (r: seq<T>)
    ensures |r| <= |s|
  {
    var hi := if b < |s| then b else |s|;
    var lo := if a < hi then a else hi;
    s[lo..hi]
  }

  /** `fragment[np.isnan(fragment)] = 0`. */
  function ZeroNaN(s: seq<Overlap>): (r: seq<Overlap>)
    ensures |r| == |s| && forall k | 0 <= k < |r| :: r[k] == (if s[k] == NaN then Num(0.0) else s[k])
  {
    seq(|s|, k requires 0 <= k < |s| => if s[k] == NaN then Num(0.0) else s[k])
  }

  function Pad(s: seq<Overlap>, v: Overlap, width: nat): (r: seq<Overlap>)
    requires |s| <= width
    ensures |r| == width && r[..|s|] == s && forall k | |s| <= k < width :: r[k] == v
  {
    s + seq(width - |s|, _ => v)
  }

  /**
   * Row `i` of a video with failures: inner fragments run from one split
   * point to the next one inclusive and are padded with 0, the last one
   * runs to the end and keeps the NaN fill.
   */
  function FragmentRow(overlaps: seq<Overlap>, points: seq<nat>, i: nat, maxLen: nat): (row: seq<Overlap>)
    requires |overlaps| <= maxLen && i < |points|
    ensures |row| == maxLen
  {
    if i != |points| - 1 then Pad(ZeroNaN(Slice(overlaps, points[i], points[i + 1] + 1)), Num(0.0), maxLen)
    else Pad(ZeroNaN(Slice(overlaps, points[i], |overlaps|)), NaN, maxLen)
  }

  /** The rows one video contributes: one per split point, or the whole video when it never failed. */
  function VideoRows(failures: seq<nat>, overlaps: seq<Overlap>, skipping: nat, maxLen: nat): (rows: seq<seq<Overlap>>)
    requires |overlaps| <= maxLen
    ensures 1 <= |rows| <= |failures| + 1
    ensures forall k | 0 <= k < |rows| :: |rows[k]| == maxLen
  {
    if |failures| == 0 then [Pad(overlaps, NaN, maxLen)]
    else
      var points := SplitPoints(failures, skipping, |overlaps|);
      seq(|points|, i requires 0 <= i < |points| => FragmentRow(overlaps, points, i, maxLen))
  }

  function MaxLength(xs: seq<seq<Overlap>>): (m: nat)
    ensures forall k | 0 <= k < |xs| :: |xs[k]| <= m
    ensures |xs| > 0 ==> exists k | 0 <= k < |xs| :: |xs[k]| == m
  {
    if |xs| == 0 then 0
    else
      var m := MaxLength(xs[..|xs| - 1]);
      if |xs[|xs| - 1]| > m then |xs[|xs| - 1]| else m
  }

  function Rows(allFailures: seq<seq<nat>>, allOverlaps: seq<seq<Overlap>>, skipping: nat, maxLen: nat, v: nat): (rows: seq<seq<Overlap>>)
    requires v <= |allFailures| && v <= |allOverlaps|
    requires forall k | 0 <= k < |allOverlaps| :: |allOverlaps[k]| <= maxLen
    ensures |rows| <= FragmentNum(allFailures[..v])
    ensures forall k | 0 <= k < |rows| :: |rows[k]| == maxLen
  {
    if v == 0 then []
    else
      assert allFailures[..v][..v - 1] == allFailures[..v - 1];
      Rows(allFailures, allOverlaps, skipping, maxLen, v - 1) +
      VideoRows(allFailures[v - 1], allOverlaps[v - 1], skipping, maxLen)
  }

  lemma {:induction false} FragmentNumPrefix(allFailures: seq<seq<nat>>, v: nat)
    requires v <= |allFailures|
    ensures FragmentNum(allFailures[..v]) <= FragmentNum(allFailures)
    decreases |allFailures| - v
  {
    if v < |allFailures| {
      FragmentNumPrefix(allFailures, v + 1);
      assert allFailures[..v + 1][..v] == allFailures[..v];
    } else {
      assert allFailures[..v] == allFailures;
    }
  }

  /** `seq_weight = 1 / (1 + 1e-10)`. */
  const SeqWeight: real := 1.0 / (1.0 + 0.0000000001)

  /** The `1e-16` added to the last fragment's denominator. */
  const Tiny: real := 0.0000000000000001

  /** `sum(tags[a:b])` with `tags = [1] * max_len`: the number of places the clamped slice keeps. */
  function TagSum(a: nat, b: nat, maxLen: nat): (s: nat)
    ensures s <= maxLen
    ensures a <= b <= maxLen ==> s == b - a
  {
    |Slice(seq(maxLen, _ => 1), a, b)|
  }

  /**
   * The `fweights` entry of fragment `i` of a video with failures: an inner
   * fragment divides by its own length `points[i + 1] - points[i] + 1`, the
   * last one by `traj_len - points[i] + 1e-16`, which is never zero.
   */
  function FragmentWeight(overlapsLen: nat, points: seq<nat>, i: nat, trajLen: nat, maxLen: nat): (w: Result<real>)
    requires i < |points|
    ensures w.Err? <==> i != |points| - 1 && points[i + 1] + 1 == points[i]
    ensures w.Err? ==> w.error == ZeroDivisionError
  {
    if i != |points| - 1 then
      var d := points[i + 1] as int - points[i] + 1;
      if d == 0 then Err(ZeroDivisionError)
      else Ok(SeqWeight * (TagSum(points[i], points[i + 1] + 1, maxLen) as real / d as real))
    else
      var n := trajLen as int - points[i];
      assert n as real + Tiny != 0.0 by {
        if n < 0 { assert n as real <= -1.0; }
      }
      Ok(SeqWeight * (TagSum(points[i], overlapsLen, maxLen) as real / (n as real + Tiny)))
  }

  /** Some inner fragment of the split points has length zero: a later point sits one before its predecessor. */
  predicate ZeroSpan(points: seq<nat>)
  {
    exists i | 0 <= i < |points| - 1 :: points[i + 1] + 1 == points[i]
  }

  /**
   * The weight division of a video raises ZeroDivisionError: a failure-free
   * video without overlaps has `max_idx == 0`, and a video with failures
   * has an inner fragment of length zero.
   */
  predicate VideoFails(failures: seq<nat>, overlaps: seq<Overlap>, skipping: nat)
  {
    if |failures| == 0 then |overlaps| == 0
    else ZeroSpan(SplitPoints(failures, skipping, |overlaps|))
  }

  /** The `fweights` entries one video writes, one per row of `VideoRows`. */
  function VideoWeights(failures: seq<nat>, overlaps: seq<Overlap>, trajLen: nat, skipping: nat, maxLen: nat): (r: Result<seq<real>>)
    requires |overlaps| <= maxLen
    ensures r.Err? <==> VideoFails(failures, overlaps, skipping)
    ensures r.Err? ==> r.error == ZeroDivisionError
    ensures r.Ok? ==> |r.value| == |VideoRows(failures, overlaps, skipping, maxLen)|
  {
    if |failures| == 0 then
      var maxIdx := if |overlaps| < maxLen then |overlaps| else maxLen;
      if maxIdx == 0 then Err(ZeroDivisionError)
      else Ok([SeqWeight * (TagSum(0, maxIdx, maxLen) as real / maxIdx as real)])
    else
      var points := SplitPoints(failures, skipping, |overlaps|);
      if ZeroSpan(points) then Err(ZeroDivisionError)
      else Ok(seq(|points|, i requires 0 <= i < |points| => FragmentWeight(|overlaps|, points, i, trajLen, maxLen).value))
  }

  /** The weights of the first `v` zipped videos, or the first division by zero among them. */
  function Weights(allFailures: seq<seq<nat>>, allOverlaps: seq<seq<Overlap>>, gtTrajLength: seq<nat>,
                   skipping: nat, maxLen: nat, v: nat): (r: Result<seq<real>>)
    requires v <= |allFailures| && v <= |allOverlaps| && v <= |gtTrajLength|
    requires forall k | 0 <= k < |allOverlaps| :: |allOverlaps[k]| <= maxLen
    ensures r.Err? <==> exists k | 0 <= k < v :: VideoFails(allFailures[k], allOverlaps[k], skipping)
    ensures r.Err? ==> r.error == ZeroDivisionError
    ensures r.Ok? ==> |r.value| == |Rows(allFailures, allOverlaps, skipping, maxLen, v)|
  {
    if v == 0 then Ok([])
    else
      var before :- Weights(allFailures, allOverlaps, gtTrajLength, skipping, maxLen, v - 1);
      var w :- VideoWeights(allFailures[v - 1], allOverlaps[v - 1], gtTrajLength[v - 1], skipping, maxLen);
      Ok(before + w)
  }

  /** Some zipped video divides by zero. */
  predicate FragmentsFail(allFailures: seq<seq<nat>>, allOverlaps: seq<seq<Overlap>>, gtTrajLength: seq<nat>, skipping: nat)
  {
    exists k | 0 <= k < Min3(|gtTrajLength|, |allFailures|, |allOverlaps|) :: VideoFails(allFailures[k], allOverlaps[k], skipping)
  }

  /**
   * The fragment table and the fragment weights of `_calculate_eao`:
   * `fragment_num` rows of width `max_len`, filled video by video (the three
   * lists are zipped, so the shortest decides how many videos count); rows
   * never written stay NaN, and so do their weights. No video list means
   * `max` of an empty list, a ValueError; a weight divided by zero is a
   * ZeroDivisionError.
   */
  method PrepareFragments(allFailures: seq<seq<nat>>, allOverlaps: seq<seq<Overlap>>, gtTrajLength: seq<nat>, skipping: nat)
    returns (r: Result<(seq<seq<Overlap>>, seq<Overlap>)>)
    ensures r.Err? <==> |allOverlaps| == 0 || FragmentsFail(allFailures, allOverlaps, gtTrajLength, skipping)
    ensures r.Err? ==> r.error == (if |allOverlaps| == 0 then ValueError else ZeroDivisionError)
    ensures r.Ok? ==>
      var videos := Min3(|gtTrajLength|, |allFailures|, |allOverlaps|);
      var maxLen := MaxLength(allOverlaps);
      var rows := Rows(allFailures, allOverlaps, skipping, maxLen, videos);
      var weights := Weights(allFailures, allOverlaps, gtTrajLength, skipping, maxLen, videos);
      var (fragments, fweights) := r.value;
      weights.Ok? &&
      |fragments| == FragmentNum(allFailures) && |fweights| == |fragments| &&
      |rows| <= |fragments| && fragments[..|rows|] == rows &&
      (forall k | 0 <= k < |rows| :: fweights[k] == Num(weights.value[k])) &&
      forall k | |rows| <= k < |fragments| :: fragments[k] == seq(maxLen, _ => NaN) && fweights[k] == NaN
  {
    if |allOverlaps| == 0 {
      return Err(ValueError);
    }
    var maxLen := MaxLength(allOverlaps);
    var fragmentNum := FragmentNum(allFailures);
    var videos := Min3(|gtTrajLength|, |allFailures|, |allOverlaps|);
    var written: seq<seq<Overlap>> := [];
    var weights: seq<real> := [];
    for v := 0 to videos
      invariant written == Rows(allFailures, allOverlaps, skipping, maxLen, v)
      invariant Weights(allFailures, allOverlaps, gtTrajLength, skipping, maxLen, v) == Ok(weights)
    {
      var video := VideoFragmentRows(allFailures[v], allOverlaps[v], gtTrajLength[v], skipping, maxLen);
      if video.Err? {
        return Err(ZeroDivisionError);
      }
      written := written + video.value.0;
      weights := weights + video.value.1;
    }
    FragmentNumPrefix(allFailures, videos);
    assert |written| <= fragmentNum;
    var unwritten := seq(fragmentNum - |written|, _ => seq(maxLen, _ => NaN));
    var fweights := seq(|weights|, k requires 0 <= k < |weights| => Num(weights[k])) + seq(fragmentNum - |written|, _ => NaN);
    assert (written + unwritten)[..|written|] == written;
    r := Ok((written + unwritten, fweights));
  }

  /** One video's iteration of the zipped loop: its rows, then its weights, fragment by fragment. */
  method VideoFragmentRows(failures: seq<nat>, overlaps: seq<Overlap>, trajLen: nat, skipping: nat, maxLen: nat)
    returns (r: Result<(seq<seq<Overlap>>, seq<real>)>)
    requires |overlaps| <= maxLen
    ensures r.Err? <==> VideoFails(failures, overlaps, skipping)
    ensures r.Err? ==> r.error == ZeroDivisionError
    ensures r.Ok? ==> r.value.0 == VideoRows(failures, overlaps, skipping, maxLen)
    ensures r.Ok? ==> VideoWeights(failures, overlaps, trajLen, skipping, maxLen) == Ok(r.value.1)
  {
    if |failures| == 0 {
      var maxIdx := if |overlaps| < maxLen then |overlaps| else maxLen;
      if maxIdx == 0 {
        return Err(ZeroDivisionError);
      }
      var w := SeqWeight * (TagSum(0, maxIdx, maxLen) as real / maxIdx as real);
      return Ok(([Pad(overlaps, NaN, maxLen)], [w]));
    }
    var points := SplitPoints(failures, skipping, |overlaps|);
    r := FragmentRowsAndWeights(overlaps, points, trajLen, maxLen);
  }

  /** The loop over the split points of a video with failures: each fragment's row, then its weight. */
  method FragmentRowsAndWeights(overlaps: seq<Overlap>, points: seq<nat>, trajLen: nat, maxLen: nat)
    returns (r: Result<(seq<seq<Overlap>>, seq<real>)>)
    requires |overlaps| <= maxLen
    ensures r.Err? <==> ZeroSpan(points)
    ensures r.Err? ==> r.error == ZeroDivisionError
    ensures r.Ok? ==> r.value.0 == seq(|points|, i requires 0 <= i < |points| => FragmentRow(overlaps, points, i, maxLen))
    ensures r.Ok? ==> r.value.1 == seq(|points|, i requires 0 <= i < |points| => FragmentWeight(|overlaps|, points, i, trajLen, maxLen).value)
  {
    ghost var all := seq(|points|, i requires 0 <= i < |points| => FragmentRow(overlaps, points, i, maxLen));
    var rows: seq<seq<Overlap>> := [];
    var weights: seq<real> := [];
    for i := 0 to |points|
      invariant rows == all[..i]
      invariant |weights| == i
      invariant forall j | 0 <= j < i :: FragmentWeight(|overlaps|, points, j, trajLen, maxLen) == Ok(weights[j])
    {
      assert all[..i + 1] == all[..i] + [all[i]];
      rows := rows + [FragmentRow(overlaps, points, i, maxLen)];
      var w := FragmentWeight(|overlaps|, points, i, trajLen, maxLen);
      if w.Err? {
        return Err(ZeroDivisionError);
      }
      weights := weights + [w.value];
    }
    WeightsComplete(|overlaps|, points, trajLen, maxLen, weights);
    assert rows == all;
    r := Ok((rows, weights));
  }

  /** Weights that every fragment computed without error rule out a fragment of length zero and are the video's weights. */
  lemma WeightsComplete(overlapsLen: nat, points: seq<nat>, trajLen: nat, maxLen: nat, weights: seq<real>)
    requires |weights| == |points|
    requires forall j | 0 <= j < |points| :: FragmentWeight(overlapsLen, points, j, trajLen, maxLen) == Ok(weights[j])
    ensures !ZeroSpan(points)
    ensures weights == seq(|points|, i requires 0 <= i < |points| => FragmentWeight(overlapsLen, points, i, trajLen, maxLen).value)
  {
    forall j | 0 <= j < |points| - 1
      ensures points[j + 1] + 1 != points[j]
    {
      assert FragmentWeight(overlapsLen, points, j, trajLen, maxLen).Ok?;
    }
  }

  /** Ascending failures, as `calculate_accuracy_failures` reports them, never give a fragment of length zero. */
  lemma AscendingFailuresSpan(failures: seq<nat>, skipping: nat, n: nat)
    requires Ascending(failures)
    ensures !ZeroSpan(SplitPoints(failures, skipping, n))
  {
    var r := Restarts(failures, skipping, n);
    RestartsIncreasing(failures, skipping, n);
    var points := SplitPoints(failures, skipping, n);
    forall i | 0 <= i < |points| - 1
      ensures points[i + 1] + 1 != points[i]
    {
      assert points[i + 1] == r[i];
      if i > 0 {
        assert points[i] == r[i - 1];
      }
    }
  }

  /**
   * The weights are computed without error when every video's failures
   * ascend and every failure-free video has overlaps.
   */
  lemma {:induction false} FragmentsSucceed(allFailures: seq<seq<nat>>, allOverlaps: seq<seq<Overlap>>, gtTrajLength: seq<nat>, skipping: nat)
    requires forall k | 0 <= k < |allFailures| :: Ascending(allFailures[k])
    requires forall k | 0 <= k < |allFailures| && k < |allOverlaps| :: |allFailures[k]| == 0 ==> |allOverlaps[k]| > 0
    ensures !FragmentsFail(allFailures, allOverlaps, gtTrajLength, skipping)
  {
    forall k | 0 <= k < Min3(|gtTrajLength|, |allFailures|, |allOverlaps|)
      ensures !VideoFails(allFailures[k], allOverlaps[k], skipping)
    {
      if |allFailures[k]| > 0 {
        AscendingFailuresSpan(allFailures[k], skipping, |allOverlaps[k]|);
      }
    }
  }

  /** A failure-free video with overlaps has the weight `seq_weight`. */
  lemma FailureFreeWeight(overlaps: seq<Overlap>, trajLen: nat, skipping: nat, maxLen: nat)
    requires 0 < |overlaps| <= maxLen
    ensures VideoWeights([], overlaps, trajLen, skipping, maxLen) == Ok([SeqWeight])
  {
    var n := |overlaps|;
    assert TagSum(0, n, maxLen) as real / n as real == 1.0;
  }

  /** An inner fragment between increasing points inside the video weighs more than 0 and at most `seq_weight`. */
  lemma InnerWeightBounds(overlapsLen: nat, points: seq<nat>, i: nat, trajLen: nat, maxLen: nat)
    requires i < |points| - 1 && points[i] < points[i + 1] <= overlapsLen <= maxLen
    ensures FragmentWeight(overlapsLen, points, i, trajLen, maxLen).Ok?
    ensures 0.0 < FragmentWeight(overlapsLen, points, i, trajLen, maxLen).value <= SeqWeight
  {
    var d := points[i + 1] - points[i] + 1;
    var t := TagSum(points[i], points[i + 1] + 1, maxLen);
    assert 1 <= t <= d;
    var q := t as real / d as real;
    assert q * d as real == t as real;
    assert 0.0 < q <= 1.0;
  }

  /** A failure-free video without overlaps divides by `max_idx == 0`. */
  lemma EmptyFailureFreeVideoFails()
    ensures FragmentsFail([[], []], [[Num(1.0)], []], [1, 0], 5)
  {
    var allFailures: seq<seq<nat>> := [[], []];
    var allOverlaps: seq<seq<Overlap>> := [[Num(1.0)], []];
    assert Min3(|[1, 0]|, |allFailures|, |allOverlaps|) == 2;
    assert VideoFails(allFailures[1], allOverlaps[1], 5);
  }

  /** Failures 5 then 4 with no skip split six overlaps at 0, 5 and 4: the fragment from 5 to 4 has length zero. */
  lemma DescendingFailuresFail()
    ensures VideoFails([5, 4], seq(6, _ => Num(0.0)), 0)
  {
    var failures: seq<nat> := [5, 4];
    assert failures[1..] == [4];
    assert Restarts(failures, 0, 6) == [5, 4];
    var points := SplitPoints(failures, 0, 6);
    assert points[2] + 1 == points[1];
  }

  function Min3(a: nat, b: nat, c: nat): (m: nat)
    ensures m <= a && m <= b && m <= c && (m == a || m == b || m == c)
  {
    if a <= b && a <= c then a else if b <= c then b else c
  }

  /** Whether column `i` of the table has a value that is not NaN. */
  predicate ColumnHasValue(rows: seq<seq<Overlap>>, i: nat)
  {
    exists row | 0 <= row < |rows| :: i < |rows[row]| && rows[row][i] != NaN
  }

  /**
   * `calculate_expected_overlap`: entry 0 is 1; entry `i` stays 0 when
   * column `i` holds only NaN and is otherwise the weighted mean that
   * `mean` stands for (its floating-point averaging is outside this model).
   * An empty width makes the write to entry 0 an IndexError.
   */
  method CalculateExpectedOverlap(rows: seq<seq<Overlap>>, maxLen: nat, mean: nat -> real) returns (r: Result<seq<real>>)
    ensures r.Err? <==> maxLen == 0
    ensures r.Ok? ==> |r.value| == maxLen && r.value[0] == 1.0
    ensures r.Ok? ==> forall i | 1 <= i < maxLen ::
      r.value[i] == (if ColumnHasValue(rows, i) then mean(i) else 0.0)
  {
    if maxLen == 0 {
      return Err(IndexError);
    }
    var expected := new real[maxLen](_ => 0.0);
    expected[0] := 1.0;
    for i := 1 to maxLen
      invariant expected[0] == 1.0
      invariant forall k | 1 <= k < i :: expected[k] == (if ColumnHasValue(rows, k) then mean(k) else 0.0)
      invariant forall k | i <= k < maxLen :: expected[k] == 0.0
    {
      if ColumnHasValue(rows, i) {
        expected[i] := mean(i);
      }
    }
    return Ok(expected[..]);
  }

  /**
   * The EAO weights: 1 on indices 107 to 370 (frames 108 to 371) for the
   * two supported datasets; any other name leaves the bounds unassigned.
   */
  function EaoWeights(datasetName: string, n: nat): (r: Result<seq<real>>)
    ensures r.Err? <==> datasetName != "VOT2015" && datasetName != "VOT2016"
    ensures r.Err? ==> r.error == UnboundLocalError
    ensures r.Ok? ==> |r.value| == n
    ensures r.Ok? ==> forall i | 0 <= i < n :: r.value[i] == (if 107 <= i <= 370 then 1.0 else 0.0)
  {
    if datasetName != "VOT2015" && datasetName != "VOT2016" then Err(UnboundLocalError)
    else
      var low := 108;
      var high := 371;
      Ok(seq(n, i requires 0 <= i < n => if low - 1 <= i < high then 1.0 else 0.0))
  }
}
