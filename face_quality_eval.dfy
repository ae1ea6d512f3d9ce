/**
 * The evaluation driver of FaceQualityAssessment
 * (research/cv/FaceQualityAssessment/eval.py): ground-truth parsing in
 * `read_gt`, the keypoint decoding of `get_md_output`, the checkpoint
 * remap and the best-IPN tracking of `run_eval`.
 */
module FaceQualityEval {
  import opened Wrappers
  import opened Strings
  import opened CheckpointKeys

  /** The checkpoint remap of `run_eval`: the wrapper prefix is `network.`. */
  method LoadCheckpoint<V>(entries: seq<(string, V)>) returns (m: map<string, V>)
    ensures m == Remapped(entries, key => StripPrefixRename("network.", key))
    ensures forall k | k in m :: StrippedFrom("network.", entries, k)
  {
    m := RemapStripping("network.", entries);
  }

  // ---------------------------------------------------------------------
  // Ground truth

  /** Number of annotated keypoints: two eyes, the nose, two mouth corners. */
  const KeypointCount := 5

  /** The side of the square the network sees; ground truth is scaled to it. */
  const InputSize := 96

  const Missing: (int, int) := (-1, -1)

  /** The space-separated fields of the first line, after `strip()`. */
  function Fields(line: string): (fs: seq<string>)
    ensures |fs| >= 1
  {
    Split(StripChars(line, Whitespace), ' ')
  }

  /** `split(" ")[:3]`: up to three Euler angles, as text. */
  function EulerFields(line: string): (e: seq<string>)
    ensures |e| == if |Fields(line)| < 3 then |Fields(line)| else 3
    ensures e == Fields(line)[..|e|]
  {
    var fs := Fields(line);
    if |fs| < 3 then fs else fs[..3]
  }

  /** `split(" ")[3:]` grouped into (x, y) pairs; an odd last field is ignored. */
  function CoordPairs(line: string): (ps: seq<(string, string)>)
    ensures var box := if |Fields(line)| <= 3 then [] else Fields(line)[3..];
      |ps| == |box| / 2 &&
      forall p | 0 <= p < |ps| :: ps[p] == (box[2 * p], box[2 * p + 1])
  {
    var fs := Fields(line);
    var box := if |fs| <= 3 then [] else fs[3..];
    seq(|box| / 2, p requires 0 <= p < |box| / 2 => (box[2 * p], box[2 * p + 1]))
  }

  /**
   * One pair read with Python's `float` (`parseFloat`, None where it raises
   * ValueError): None for an unannotated point (a negative coordinate),
   * otherwise the coordinates.
   */
  function PairValue(pair: (string, string), parseFloat: string -> Option<real>): (r: Result<Option<(real, real)>>)
    ensures r.Err? <==> parseFloat(pair.0).None? || parseFloat(pair.1).None?
    ensures r.Ok? && r.value.Some? ==> r.value.value.0 >= 0.0 && r.value.value.1 >= 0.0
  {
    match (parseFloat(pair.0), parseFloat(pair.1))
    case (Some(x), Some(y)) => if x < 0.0 || y < 0.0 then Ok(None) else Ok(Some((x, y)))
    case _ => Err(ValueError)
  }

  /** `int(coord / length * 96)` for a non-negative coordinate. */
  function Scaled(coord: real, length: real): (v: int)
    requires coord >= 0.0 && length > 0.0
    ensures v >= 0
    ensures v as real <= coord / length * InputSize as real < v as real + 1.0
  {
    (coord / length * InputSize as real).Floor
  }

  /** The keypoint table after the first `n` pairs have been read. */
  function KeypointsAfter(pairs: seq<(string, string)>, n: nat, xLength: real, yLength: real,
                          parseFloat: string -> Option<real>): (r: Result<seq<(int, int)>>)
    requires n <= |pairs| && xLength > 0.0 && yLength > 0.0
    ensures r.Ok? ==> |r.value| == KeypointCount
  {
    if n == 0 then Ok(seq(KeypointCount, _ => Missing))
    else
      var kps :- KeypointsAfter(pairs, n - 1, xLength, yLength, parseFloat);
      var v :- PairValue(pairs[n - 1], parseFloat);
      match v
      case None => Ok(kps)
      case Some(xy) =>
        if n - 1 >= KeypointCount then Err(IndexError)
        else Ok(kps[n - 1 := (Scaled(xy.0, xLength), Scaled(xy.1, yLength))])
  }

  /** Pair `p` stops the loop: it does not parse, or it is annotated but past the table. */
  predicate PairFails(pairs: seq<(string, string)>, p: nat, parseFloat: string -> Option<real>)
    requires p < |pairs|
  {
    var v := PairValue(pairs[p], parseFloat);
    v.Err? || (v.value.Some? && p >= KeypointCount)
  }

  /**
   * Reading fails exactly when some pair fails: a sixth pair raises
   * IndexError only if it is annotated, because negative pairs are skipped
   * before the table is indexed.
   */
  lemma {:induction false} KeypointsFail(pairs: seq<(string, string)>, n: nat, xLength: real, yLength: real,
                                         parseFloat: string -> Option<real>)
    requires n <= |pairs| && xLength > 0.0 && yLength > 0.0
    ensures KeypointsAfter(pairs, n, xLength, yLength, parseFloat).Err? <==>
            exists p | 0 <= p < n :: PairFails(pairs, p, parseFloat)
  {
    if n > 0 {
      KeypointsFail(pairs, n - 1, xLength, yLength, parseFloat);
      if PairFails(pairs, n - 1, parseFloat) {
        assert KeypointsAfter(pairs, n, xLength, yLength, parseFloat).Err?;
      } else if KeypointsAfter(pairs, n, xLength, yLength, parseFloat).Err? {
        assert KeypointsAfter(pairs, n - 1, xLength, yLength, parseFloat).Err?;
      } else {
        assert forall p | 0 <= p < n && PairFails(pairs, p, parseFloat) :: p < n - 1;
      }
    }
  }

  /**
   * Slot `i` holds the scaled coordinates of pair `i` when that pair is
   * annotated, and stays `[-1, -1]` when it is missing or unannotated.
   */
  lemma {:induction false} KeypointSlot(pairs: seq<(string, string)>, n: nat, xLength: real, yLength: real,
                                        parseFloat: string -> Option<real>, i: nat)
    requires n <= |pairs| && xLength > 0.0 && yLength > 0.0 && i < KeypointCount
    requires KeypointsAfter(pairs, n, xLength, yLength, parseFloat).Ok?
    ensures var kps := KeypointsAfter(pairs, n, xLength, yLength, parseFloat).value;
      if i < n && PairValue(pairs[i], parseFloat).Ok? && PairValue(pairs[i], parseFloat).value.Some?
      then
        var xy := PairValue(pairs[i], parseFloat).value.value;
        kps[i] == (Scaled(xy.0, xLength), Scaled(xy.1, yLength))
      else kps[i] == Missing
  {
    if n > 0 {
      KeypointSlot(pairs, n - 1, xLength, yLength, parseFloat, i);
    }
  }

  datatype GroundTruth = GroundTruth(eulers: seq<string>, keypoints: seq<(int, int)>)

  /**
   * `read_gt` on the first line of the annotation file, for an image
   * `xLength` wide and `yLength` high.
   */
  method ReadGt(line: string, xLength: real, yLength: real, parseFloat: string -> Option<real>)
    returns (r: Result<GroundTruth>)
    requires xLength > 0.0 && yLength > 0.0
    ensures var pairs := CoordPairs(line);
      var kps := KeypointsAfter(pairs, |pairs|, xLength, yLength, parseFloat);
      (r.Err? <==> kps.Err?) &&
      (r.Ok? ==> r.value == GroundTruth(EulerFields(line), kps.value))
  {
    var pairs := CoordPairs(line);
    var kpList := seq(KeypointCount, _ => Missing);
    for kpId := 0 to |pairs|
      invariant KeypointsAfter(pairs, kpId, xLength, yLength, parseFloat) == Ok(kpList)
    {
      var next := ReadPair(pairs, kpId, kpList, xLength, yLength, parseFloat);
      if next.Err? {
        KeypointsStayFailed(pairs, kpId + 1, |pairs|, xLength, yLength, parseFloat);
        return Err(next.error);
      }
      kpList := next.value;
    }
    return Ok(GroundTruth(EulerFields(line), kpList));
  }

  /** One pass of the loop over the pairs: the pair's scaled point is stored at its index. */
  method ReadPair(pairs: seq<(string, string)>, kpId: nat, kpList: seq<(int, int)>, xLength: real, yLength: real,
                  parseFloat: string -> Option<real>)
    returns (r: Result<seq<(int, int)>>)
    requires kpId < |pairs| && xLength > 0.0 && yLength > 0.0
    requires KeypointsAfter(pairs, kpId, xLength, yLength, parseFloat) == Ok(kpList)
    ensures r == KeypointsAfter(pairs, kpId + 1, xLength, yLength, parseFloat)
  {
    var v := PairValue(pairs[kpId], parseFloat);
    if v.Err? {
      return Err(v.error);
    }
    if v.value.None? {
      return Ok(kpList);
    }
    if kpId >= KeypointCount {
      return Err(IndexError);
    }
    var xy := v.value.value;
    r := Ok(kpList[kpId := (Scaled(xy.0, xLength), Scaled(xy.1, yLength))]);
  }

  /** Once a pair has failed, reading more pairs does not change the outcome. */
  lemma {:induction false} KeypointsStayFailed(pairs: seq<(string, string)>, n: nat, m: nat, xLength: real, yLength: real,
                                               parseFloat: string -> Option<real>)
    requires n <= m <= |pairs| && xLength > 0.0 && yLength > 0.0
    requires KeypointsAfter(pairs, n, xLength, yLength, parseFloat).Err?
    ensures KeypointsAfter(pairs, m, xLength, yLength, parseFloat) == KeypointsAfter(pairs, n, xLength, yLength, parseFloat)
    decreases m
  {
    if m > n {
      KeypointsStayFailed(pairs, n, m - 1, xLength, yLength, parseFloat);
    }
  }

  // ---------------------------------------------------------------------
  // Network output

  /** The heatmaps are 48 x 48 and cover the 96 x 96 input. */
  const HeatmapSide := 48

  /**
   * The coordinate pair `get_md_output` computes for flat index `k` as
   * written: `(k % 48) * 2.0` and `(k / 48) * 2.0` under Python 3's true
   * division, both truncated.
   */
  function KeypointCoordAsWritten(k: nat): (c: (int, int))
    ensures c.0 == 2 * (k % HeatmapSide)
    ensures c.1 == (2 * k) / HeatmapSide
  {
    (2 * (k % HeatmapSide), (2 * k) / HeatmapSide)
  }

  /**
   * The vertical coordinate as written is one too large for every cell in
   * the right half of its row.
   */
  lemma KeypointCoordAsWrittenOffByOne(k: nat)
    ensures KeypointCoordAsWritten(k).1 ==
            KeypointCoord(k).1 + (if k % HeatmapSide >= HeatmapSide / 2 then 1 else 0)
  {
    var q, r := k / HeatmapSide, k % HeatmapSide;
    assert k == HeatmapSide * q + r;
    assert 2 * k == HeatmapSide * (2 * q) + 2 * r;
    if r >= HeatmapSide / 2 {
      assert 2 * k == HeatmapSide * (2 * q + 1) + (2 * r - HeatmapSide);
    }
  }

  /** Cell 47 is row 0, column 47, yet its point is placed on row 1 of the input. */
  lemma KeypointCoordAsWrittenExample()
    ensures KeypointCoordAsWritten(47) == (94, 1)
    ensures KeypointCoord(47) == (94, 0)
  {
  }

  /** The evidently intended decoding: cell (row, column) maps to (2 * column, 2 * row). */
  function KeypointCoord(k: nat): (c: (int, int))
    ensures c.0 == 2 * (k % HeatmapSide) && c.1 == 2 * (k / HeatmapSide)
  {
    (2 * (k % HeatmapSide), 2 * (k / HeatmapSide))
  }

  /**
   * The intended decoding is faithful: both coordinates are even, inside
   * the input, and halving them gives back the cell.
   */
  lemma KeypointCoordCell(k: nat)
    requires k < HeatmapSide * HeatmapSide
    ensures var c := KeypointCoord(k);
      c.0 % 2 == 0 && c.1 % 2 == 0 &&
      0 <= c.0 < InputSize && 0 <= c.1 < InputSize &&
      (c.1 / 2) * HeatmapSide + c.0 / 2 == k
  {
  }

  /** `map.argmax()`: the first position of the largest value. */
  method ArgMax(m: seq<real>) returns (k: nat)
    requires |m| > 0
    ensures k < |m|
    ensures forall j | 0 <= j < |m| :: m[j] <= m[k]
    ensures forall j | 0 <= j < k :: m[j] < m[k]
  {
    k := 0;
    for j := 1 to |m|
      invariant k < j
      invariant forall i | 0 <= i < j :: m[i] <= m[k]
      invariant forall i | 0 <= i < k :: m[i] < m[k]
    {
      if m[j] > m[k] {
        k := j;
      }
    }
  }

  /** `kps_score_sum`: each keypoint contributes its peak, capped at 0.25. */
  function ScoreSum(scores: seq<real>): (s: real)
  {
    if |scores| == 0 then 0.0
    else ScoreSum(scores[..|scores| - 1]) + (if scores[|scores| - 1] < 0.25 then scores[|scores| - 1] else 0.25)
  }

  /** No keypoint adds more than 0.25, and a non-negative peak adds a non-negative amount. */
  lemma {:induction false} ScoreSumBounds(scores: seq<real>)
    ensures ScoreSum(scores) <= 0.25 * |scores| as real
    ensures (forall i | 0 <= i < |scores| :: scores[i] >= 0.0) ==> ScoreSum(scores) >= 0.0
  {
    if |scores| > 0 {
      ScoreSumBounds(scores[..|scores| - 1]);
    }
  }

  datatype MdOutput = MdOutput(kpScores: seq<real>, kpsScoreSum: real, kpCoords: seq<(int, int)>, eulers: seq<real>)

  /** Cell `k` is the first peak of the heatmap: no cell is larger, and no earlier cell as large. */
  predicate FirstPeak(h: seq<real>, k: int)
  {
    0 <= k < |h| && (forall j | 0 <= j < |h| :: h[j] <= h[k]) && (forall j | 0 <= j < k :: h[j] < h[k])
  }

  /**
   * `out` holds, per heatmap and in heatmap order, the peak value and the
   * point `decode` gives for the first peak cell, the capped score sum,
   * and the Euler angles scaled by 90.
   */
  predicate DecodedOutput(heatmaps: seq<seq<real>>, eulerOut: seq<real>, decode: nat -> (int, int), out: MdOutput)
  {
    |out.kpScores| == |out.kpCoords| == |heatmaps| &&
    (forall i | 0 <= i < |heatmaps| ::
      exists k: nat | k < |heatmaps[i]| && FirstPeak(heatmaps[i], k) :: out.kpCoords[i] == decode(k) && out.kpScores[i] == heatmaps[i][k]) &&
    out.kpsScoreSum == ScoreSum(out.kpScores) &&
    |out.eulers| == |eulerOut| && (forall i | 0 <= i < |eulerOut| :: out.eulers[i] == eulerOut[i] * 90.0)
  }

  /**
   * `get_md_output` on the (already softmax-normalised) heatmaps and the
   * raw Euler output, as written: the peak's point is decoded with
   * `KeypointCoordAsWritten`.
   */
  method GetMdOutput(heatmaps: seq<seq<real>>, eulerOut: seq<real>) returns (out: MdOutput)
    requires forall i | 0 <= i < |heatmaps| :: |heatmaps[i]| == HeatmapSide * HeatmapSide
    ensures DecodedOutput(heatmaps, eulerOut, KeypointCoordAsWritten, out)
  {
    out := MdOutputWith(heatmaps, eulerOut, KeypointCoordAsWritten);
  }

  /** `get_md_output` with the evidently intended decoding `KeypointCoord`. */
  method GetMdOutputIntended(heatmaps: seq<seq<real>>, eulerOut: seq<real>) returns (out: MdOutput)
    requires forall i | 0 <= i < |heatmaps| :: |heatmaps[i]| == HeatmapSide * HeatmapSide
    ensures DecodedOutput(heatmaps, eulerOut, KeypointCoord, out)
    ensures forall i | 0 <= i < |heatmaps| ::
      0 <= out.kpCoords[i].0 < InputSize && 0 <= out.kpCoords[i].1 < InputSize
  {
    out := MdOutputWith(heatmaps, eulerOut, KeypointCoord);
    forall i | 0 <= i < |heatmaps|
      ensures 0 <= out.kpCoords[i].0 < InputSize && 0 <= out.kpCoords[i].1 < InputSize
    {
      var k: nat :| k < |heatmaps[i]| && FirstPeak(heatmaps[i], k) && out.kpCoords[i] == KeypointCoord(k) && out.kpScores[i] == heatmaps[i][k];
      KeypointCoordCell(k);
    }
  }

  /** The loop of `get_md_output`, for a given decoding of the peak cell. */
  method MdOutputWith(heatmaps: seq<seq<real>>, eulerOut: seq<real>, decode: nat -> (int, int)) returns (out: MdOutput)
    requires forall i | 0 <= i < |heatmaps| :: |heatmaps[i]| == HeatmapSide * HeatmapSide
    ensures DecodedOutput(heatmaps, eulerOut, decode, out)
  {
    var scores: seq<real> := [];
    var coords: seq<(int, int)> := [];
    var sum := 0.0;
    for i := 0 to |heatmaps|
      invariant |scores| == |coords| == i
      invariant sum == ScoreSum(scores)
      invariant forall p | 0 <= p < i ::
        exists k: nat | k < |heatmaps[p]| && FirstPeak(heatmaps[p], k) :: coords[p] == decode(k) && scores[p] == heatmaps[p][k]
    {
      var k := ArgMax(heatmaps[i]);
      var maxResponse := heatmaps[i][k];
      assert FirstPeak(heatmaps[i], k);
      assert (scores + [maxResponse])[..|scores|] == scores;
      scores := scores + [maxResponse];
      sum := sum + (if maxResponse < 0.25 then maxResponse else 0.25);
      coords := coords + [decode(k)];
    }
    var eulers := seq(|eulerOut|, i requires 0 <= i < |eulerOut| => eulerOut[i] * 90.0);
    return MdOutput(scores, sum, coords, eulers);
  }

  // ---------------------------------------------------------------------
  // Checkpoint selection

  /** The IPN `run_eval` starts from: any real checkpoint beats it. */
  const InitialBestIpn: real := 100.0

  /**
   * The best-IPN loop of `run_eval` over the listed files: only `.ckpt`
   * files are evaluated (`evalIpn` stands for loading and evaluating one),
   * and a checkpoint becomes the best only with a strictly smaller IPN, so
   * the first of equally good checkpoints is kept.
   */
  method BestIpn(files: seq<string>, evalIpn: string -> real) returns (best: real, bestIndex: Option<nat>)
    ensures best <= InitialBestIpn
    ensures forall i | 0 <= i < |files| && EndsWith(files[i], ".ckpt") :: best <= evalIpn(files[i])
    ensures bestIndex.None? ==> best == InitialBestIpn
    ensures bestIndex.Some? ==>
      bestIndex.value < |files| && EndsWith(files[bestIndex.value], ".ckpt") &&
      best == evalIpn(files[bestIndex.value]) < InitialBestIpn &&
      forall i | 0 <= i < bestIndex.value && EndsWith(files[i], ".ckpt") :: evalIpn(files[i]) > best
  {
    best := InitialBestIpn;
    bestIndex := None;
    for i := 0 to |files|
      invariant best <= InitialBestIpn
      invariant forall j | 0 <= j < i && EndsWith(files[j], ".ckpt") :: best <= evalIpn(files[j])
      invariant bestIndex.None? ==> best == InitialBestIpn
      invariant bestIndex.Some? ==>
        bestIndex.value < i && EndsWith(files[bestIndex.value], ".ckpt") &&
        best == evalIpn(files[bestIndex.value]) < InitialBestIpn &&
        forall j | 0 <= j < bestIndex.value && EndsWith(files[j], ".ckpt") :: evalIpn(files[j]) > best
    {
      if !EndsWith(files[i], ".ckpt") {
        continue;
      }
      var ipn := evalIpn(files[i]);
      if ipn < best {
        best := ipn;
        bestIndex := Some(i);
      }
    }
  }
}
