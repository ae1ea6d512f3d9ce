/**
 * Post-processing of the TextFuseNet detector on the inference device
 * (research/cv/textfusenet/infer/mxbase/src/PostProcess/TextfusenetMindsporePost.cpp).
 *
 * The network emits four tensors per image: boxes (rpnMaxNum x 5 values
 * x1, y1, x2, y2, prob), class labels, a keep flag per box and a stack of
 * mask planes. Tensors are modelled by their shapes (for validation) and,
 * per batch element, by the flattened buffers the C++ reads element by element
 * in memory; half-precision values are modelled as `real`.
 */
module TextfusenetPost {

  const OutputTensorSize: nat := 4
  const OutputBboxSize: nat := 3
  const OutputBboxTwoIndexShape: nat := 5
  const BboxIndexScaleNum: nat := 5
  /** Divisor turning a corner sum into a centre (defined in a header outside this model). */
  const CoordinateParam: real := 2.0
  /** Number of mask planes per box; the C++ reads plane 1. */
  const MaskPlanes: nat := 64

  function Min(a: int, b: int): int { if a < b then a else b }

  function Product(dims: seq<nat>): nat
  {
    if |dims| == 0 then 1 else dims[0] * Product(dims[1..])
  }

  /** The first four checks of `IsValidTensors`, which read only the box tensor's shape. */
  predicate BboxShapeOk(shapes: seq<seq<nat>>, rpnMaxNum: nat)
  {
    |shapes| >= OutputTensorSize && |shapes[0]| == OutputBboxSize &&
    shapes[0][1] == rpnMaxNum && shapes[0][2] == OutputBboxTwoIndexShape
  }

  /** The checks of `IsValidTensors` up to the mask tensor's, with the ranks they rely on. */
  predicate MaskShapeOk(shapes: seq<seq<nat>>, rpnMaxNum: nat)
  {
    BboxShapeOk(shapes, rpnMaxNum) && |shapes[1]| >= 2 && |shapes[2]| >= 2 && |shapes[3]| >= 2 &&
    shapes[1][1] == rpnMaxNum && shapes[2][1] == rpnMaxNum
  }

  /**
   * The C++ reads dimension 1 of the class, mask and mask-area shapes and
   * dimension 3 of the mask-area shape without checking their rank; this
   * says those reads are in range whenever the code reaches them.
   */
  predicate ShapesReadable(shapes: seq<seq<nat>>, rpnMaxNum: nat)
  {
    (BboxShapeOk(shapes, rpnMaxNum) ==> |shapes[1]| >= 2) &&
    (BboxShapeOk(shapes, rpnMaxNum) && shapes[1][1] == rpnMaxNum ==> |shapes[2]| >= 2) &&
    (BboxShapeOk(shapes, rpnMaxNum) && shapes[1][1] == rpnMaxNum && shapes[2][1] == rpnMaxNum ==> |shapes[3]| >= 2) &&
    (MaskShapeOk(shapes, rpnMaxNum) && shapes[3][1] == rpnMaxNum ==> |shapes[3]| >= 4)
  }

  /** Whether the tensors have the shapes the post-processing reads. */
  function IsValidTensors(shapes: seq<seq<nat>>, rpnMaxNum: nat, maskSize: nat): (ok: bool)
    requires ShapesReadable(shapes, rpnMaxNum)
    ensures |shapes| < OutputTensorSize ==> !ok
    ensures ok ==> |shapes[0]| == 3 && Product(shapes[0][1..]) == rpnMaxNum * BboxIndexScaleNum
    ensures ok ==> forall t | 1 <= t < OutputTensorSize :: |shapes[t]| >= 2 && shapes[t][1] == rpnMaxNum
    ensures ok ==> |shapes[3]| >= 4 && shapes[3][3] == maskSize
    ensures !ok && |shapes| >= OutputTensorSize ==>
      |shapes[0]| != 3 || shapes[0][1] != rpnMaxNum || shapes[0][2] != 5 ||
      shapes[1][1] != rpnMaxNum || shapes[2][1] != rpnMaxNum || shapes[3][1] != rpnMaxNum ||
      shapes[3][3] != maskSize
  {
    if |shapes| < OutputTensorSize then false
    else if |shapes[0]| != OutputBboxSize then false
    else if shapes[0][1] != rpnMaxNum then false
    else if shapes[0][2] != OutputBboxTwoIndexShape then false
    else if shapes[1][1] != rpnMaxNum then false
    else if shapes[2][1] != rpnMaxNum then false
    else if shapes[3][1] != rpnMaxNum then false
    else if shapes[3][3] != maskSize then false
    else
      assert shapes[0][1..] == [rpnMaxNum, 5];
      assert Product(shapes[0][1..][1..]) == 5;
      true
  }

  /** The buffers of one batch element, flattened. */
  datatype BatchOutputs = BatchOutputs(bbox: seq<real>, labels: seq<int>, keep: seq<bool>, maskArea: seq<real>)

  /** Every buffer holds at least what the loop over `rpnMaxNum` boxes reads. */
  predicate WellFormed(b: BatchOutputs, rpnMaxNum: nat, maskSize: nat)
  {
    |b.bbox| >= rpnMaxNum * BboxIndexScaleNum && |b.labels| >= rpnMaxNum && |b.keep| >= rpnMaxNum &&
    |b.maskArea| >= rpnMaxNum * MaskPlanes * (maskSize * maskSize)
  }

  /** A candidate box; `maskOffset` is where its mask plane starts in the mask-area buffer. */
  datatype DetectBox = DetectBox(x: real, y: real, width: real, height: real, prob: real, classID: int, maskOffset: nat)

  /** The box read from slot `i`: centre, size, score and label. */
  function BoxAt(b: BatchOutputs, i: nat, maskSize: nat): (d: DetectBox)
    requires i * BboxIndexScaleNum + 5 <= |b.bbox| && i < |b.labels|
    ensures var s := i * BboxIndexScaleNum;
      d.x * CoordinateParam == b.bbox[s] + b.bbox[s + 2] && d.y * CoordinateParam == b.bbox[s + 1] + b.bbox[s + 3] &&
      b.bbox[s] + d.width == b.bbox[s + 2] && b.bbox[s + 1] + d.height == b.bbox[s + 3]
    ensures d.prob == b.bbox[i * BboxIndexScaleNum + 4] && d.classID == b.labels[i]
  {
    var s := i * BboxIndexScaleNum;
    var plane := maskSize * maskSize;
    DetectBox((b.bbox[s] + b.bbox[s + 2]) / CoordinateParam, (b.bbox[s + 1] + b.bbox[s + 3]) / CoordinateParam,
              b.bbox[s + 2] - b.bbox[s], b.bbox[s + 3] - b.bbox[s + 1], b.bbox[s + 4], b.labels[i],
              i * MaskPlanes * plane + plane)
  }

  /** Slot `i` yields a box iff it is flagged, scores above the threshold and has label 0. */
  predicate Kept(b: BatchOutputs, i: nat, scoreThresh: real)
    requires i * BboxIndexScaleNum + 5 <= |b.bbox| && i < |b.labels| && i < |b.keep|
  {
    b.keep[i] && b.bbox[i * BboxIndexScaleNum + 4] > scoreThresh && b.labels[i] == 0
  }

  /** The boxes of slots `0 .. n-1`, in slot order, before top-K. */
  function Candidates(b: BatchOutputs, scoreThresh: real, maskSize: nat, n: nat): (r: seq<DetectBox>)
    requires n * BboxIndexScaleNum <= |b.bbox| && n <= |b.labels| && n <= |b.keep|
    ensures |r| <= n
    ensures forall j | 0 <= j < |r| :: r[j].classID == 0 && r[j].prob > scoreThresh
  {
    if n == 0 then []
    else
      Candidates(b, scoreThresh, maskSize, n - 1) +
      (if Kept(b, n - 1, scoreThresh) then [BoxAt(b, n - 1, maskSize)] else [])
  }

  /** A box is a candidate exactly when some kept slot produced it. */
  lemma {:induction false} CandidatesMembers(b: BatchOutputs, scoreThresh: real, maskSize: nat, n: nat, d: DetectBox)
    requires n * BboxIndexScaleNum <= |b.bbox| && n <= |b.labels| && n <= |b.keep|
    ensures d in Candidates(b, scoreThresh, maskSize, n) <==>
            exists i | 0 <= i < n :: Kept(b, i, scoreThresh) && BoxAt(b, i, maskSize) == d
  {
    if n > 0 {
      CandidatesMembers(b, scoreThresh, maskSize, n - 1, d);
    }
  }

  predicate SortedByProb(s: seq<DetectBox>)
  {
    forall p, q | 0 <= p < q < |s| :: s[p].prob >= s[q].prob
  }

  /**
   * `r` is an outcome of sorting `input` by descending score and keeping
   * the first `k`: the order among equal scores is left open, as
   * `std::sort` is not stable.
   */
  predicate IsTopK(input: seq<DetectBox>, r: seq<DetectBox>, k: nat)
  {
    |r| == Min(|input|, k) && SortedByProb(r) && multiset(r) <= multiset(input) &&
    forall d, j | d in multiset(input) - multiset(r) && 0 <= j < |r| :: d.prob <= r[j].prob
  }

  /** The first `n` cells of `a` are in descending score order. */
  predicate SortedPrefix(a: array<DetectBox>, n: nat)
    reads a
    requires n <= a.Length
  {
    forall p, q | 0 <= p < q < n :: a[p].prob >= a[q].prob
  }

  /** In-place sort by descending score (insertion sort). */
  method SortByProb(a: array<DetectBox>)
    modifies a
    ensures SortedByProb(a[..])
    ensures multiset(a[..]) == multiset(old(a[..]))
  {
    for i := 0 to a.Length
      invariant SortedPrefix(a, i)
      invariant multiset(a[..]) == multiset(old(a[..]))
    {
      InsertAt(a, i);
    }
  }

  /** Moves `a[i]` left past every cell of the sorted prefix that scores lower. */
  method InsertAt(a: array<DetectBox>, i: nat)
    requires i < a.Length && SortedPrefix(a, i)
    modifies a
    ensures SortedPrefix(a, i + 1)
    ensures multiset(a[..]) == multiset(old(a[..]))
  {
    var j := i;
    while j > 0 && a[j - 1].prob < a[j].prob
      invariant 0 <= j <= i
      invariant Inserting(a[..], j, i)
      invariant multiset(a[..]) == multiset(old(a[..]))
    {
      ghost var before := a[..];
      a[j - 1], a[j] := a[j], a[j - 1];
      assert a[..] == Swapped(before, j);
      SwapKeepsInserting(before, j, i);
      j := j - 1;
    }
    InsertedSorted(a[..], j, i);
  }

  /** Insertion in progress: the prefix up to `i` is sorted except around `j`, and `a[j]` beats everything after it. */
  predicate Inserting(s: seq<DetectBox>, j: nat, i: nat)
    requires j <= i < |s|
  {
    (forall p, q | 0 <= p < q <= i && p != j && q != j :: s[p].prob >= s[q].prob) &&
    (forall q | j < q <= i :: s[j].prob > s[q].prob)
  }

  /** `s` with cells `j - 1` and `j` exchanged. */
  function Swapped(s: seq<DetectBox>, j: nat): (r: seq<DetectBox>)
    requires 0 < j < |s|
    ensures |r| == |s| && r[j - 1] == s[j] && r[j] == s[j - 1]
    ensures forall k | 0 <= k < |s| && k != j - 1 && k != j :: r[k] == s[k]
    ensures multiset(r) == multiset(s)
  {
    s[j - 1 := s[j]][j := s[j - 1]]
  }

  /** Swapping an out-of-order neighbour moves the insertion point one cell left. */
  lemma SwapKeepsInserting(s: seq<DetectBox>, j: nat, i: nat)
    requires 0 < j <= i < |s| && Inserting(s, j, i) && s[j - 1].prob < s[j].prob
    ensures Inserting(Swapped(s, j), j - 1, i)
  {
    var r := Swapped(s, j);
    forall p, q | 0 <= p < q <= i && p != j - 1 && q != j - 1
      ensures r[p].prob >= r[q].prob
    {
      if p == j {
        assert r[p] == s[j - 1];
        assert s[j - 1].prob >= s[q].prob;
      } else if q == j {
        assert r[q] == s[j - 1];
        assert s[p].prob >= s[j - 1].prob;
      }
    }
  }

  /** When the inserted box no longer beats its left neighbour, the whole prefix is sorted. */
  lemma InsertedSorted(s: seq<DetectBox>, j: nat, i: nat)
    requires j <= i < |s| && Inserting(s, j, i)
    requires j == 0 || s[j - 1].prob >= s[j].prob
    ensures forall p, q | 0 <= p < q <= i :: s[p].prob >= s[q].prob
  {
    forall p, q | 0 <= p < q <= i
      ensures s[p].prob >= s[q].prob
    {
      if q == j {
        assert s[p].prob >= s[j - 1].prob || p == j - 1;
      }
    }
  }

  /** `GetDetectBoxesTopK`: sort by descending score, then erase everything past `kVal`. */
  method GetDetectBoxesTopK(boxes: seq<DetectBox>, kVal: nat) returns (r: seq<DetectBox>)
    ensures IsTopK(boxes, r, kVal)
  {
    var a := new DetectBox[|boxes|](i requires 0 <= i < |boxes| => boxes[i]);
    assert a[..] == boxes;
    SortByProb(a);
    if a.Length <= kVal {
      return a[..];
    }
    r := a[..kVal];
    TruncatedSortedIsTopK(a[..], kVal);
  }

  /** Cutting a sorted sequence leaves only boxes that score no higher than the kept ones. */
  lemma TruncatedSortedIsTopK(s: seq<DetectBox>, k: nat)
    requires SortedByProb(s) && k <= |s|
    ensures IsTopK(s, s[..k], k)
  {
    TruncatedRest(s, k);
    TruncatedDominates(s, k);
    assert SortedByProb(s[..k]) by {
      forall p, q | 0 <= p < q < k
        ensures s[..k][p].prob >= s[..k][q].prob
      {
        assert s[..k][p] == s[p] && s[..k][q] == s[q];
      }
    }
  }

  /** The boxes cut off are exactly what the kept prefix leaves of the whole. */
  lemma TruncatedRest(s: seq<DetectBox>, k: nat)
    requires k <= |s|
    ensures multiset(s[..k]) <= multiset(s)
    ensures multiset(s) - multiset(s[..k]) == multiset(s[k..])
  {
    assert s == s[..k] + s[k..];
    assert multiset(s) == multiset(s[..k]) + multiset(s[k..]);
  }

  /** In a sorted sequence every box after position `k` scores no higher than any box before it. */
  lemma TruncatedDominates(s: seq<DetectBox>, k: nat)
    requires SortedByProb(s) && k <= |s|
    ensures forall d, j | d in multiset(s[k..]) && 0 <= j < k :: d.prob <= s[..k][j].prob
  {
    forall d, j | d in multiset(s[k..]) && 0 <= j < k
      ensures d.prob <= s[..k][j].prob
    {
      var m :| 0 <= m < |s[k..]| && s[k..][m] == d;
      assert s[k + m] == d && s[..k][j] == s[j];
    }
  }

  /** `GetValidDetBoxes`: one pass over the slots, then top-K. */
  method GetValidDetBoxes(b: BatchOutputs, rpnMaxNum: nat, scoreThresh: real, maskSize: nat, maxPerImg: nat)
    returns (detBoxes: seq<DetectBox>)
    requires WellFormed(b, rpnMaxNum, maskSize)
    ensures IsTopK(Candidates(b, scoreThresh, maskSize, rpnMaxNum), detBoxes, maxPerImg)
  {
    detBoxes := [];
    for index := 0 to rpnMaxNum
      invariant detBoxes == Candidates(b, scoreThresh, maskSize, index)
    {
      if !b.keep[index] {
        continue;
      }
      var start := index * BboxIndexScaleNum;
      var prob := b.bbox[start + 4];
      if prob <= scoreThresh || b.labels[index] != 0 {
        continue;
      }
      detBoxes := detBoxes + [BoxAt(b, index, maskSize)];
    }
    detBoxes := GetDetectBoxesTopK(detBoxes, maxPerImg);
  }

  /** The 0/1 mask of a plane read row by row: a cell is 1 iff its value exceeds the threshold. */
  function BinaryMask(plane: seq<real>, maskSize: nat, threshold: real): (m: seq<seq<int>>)
    requires |plane| >= maskSize * maskSize
    ensures |m| == maskSize
    ensures forall row | 0 <= row < maskSize :: |m[row]| == maskSize
    ensures forall row, col | 0 <= row < maskSize && 0 <= col < maskSize ::
      (m[row][col] == 1 <==> Cell(plane, maskSize, row, col) > threshold) && (m[row][col] == 0 || m[row][col] == 1)
  {
    seq(maskSize, row requires 0 <= row < maskSize =>
      seq(maskSize, col requires 0 <= col < maskSize =>
        if Cell(plane, maskSize, row, col) > threshold then 1 else 0))
  }

  /** The value at (`row`, `col`) of a square plane stored row by row. */
  function Cell(plane: seq<real>, width: nat, row: nat, col: nat): real
    requires |plane| >= width * width && row < width && col < width
  {
    RowMajorBound(row, col, width);
    plane[row * width + col]
  }

  lemma RowMajorBound(row: nat, col: nat, width: nat)
    requires row < width && col < width
    ensures row * width + col < width * width
  {
    MulMono(row + 1, width, width);
    assert (row + 1) * width == row * width + width;
  }

  lemma MulMono(a: nat, b: nat, c: nat)
    requires a <= b
    ensures a * c <= b * c
  {
  }

  /** `MaskPostProcess`: start from an all-zero grid and set the cells above the threshold. */
  method MaskPostProcess(plane: seq<real>, maskSize: nat, threshold: real) returns (m: seq<seq<int>>)
    requires |plane| >= maskSize * maskSize
    ensures m == BinaryMask(plane, maskSize, threshold)
  {
    m := seq(maskSize, _ => seq(maskSize, _ => 0));
    for row := 0 to maskSize
      invariant |m| == maskSize && forall r | 0 <= r < maskSize :: |m[r]| == maskSize
      invariant forall r | 0 <= r < row :: m[r] == BinaryMask(plane, maskSize, threshold)[r]
      invariant forall r | row <= r < maskSize :: m[r] == seq(maskSize, _ => 0)
    {
      for col := 0 to maskSize
        invariant |m| == maskSize && forall r | 0 <= r < maskSize :: |m[r]| == maskSize
        invariant forall r | 0 <= r < row :: m[r] == BinaryMask(plane, maskSize, threshold)[r]
        invariant forall r | row < r < maskSize :: m[r] == seq(maskSize, _ => 0)
        invariant forall c | 0 <= c < col :: m[row][c] == BinaryMask(plane, maskSize, threshold)[row][c]
        invariant forall c | col <= c < maskSize :: m[row][c] == 0
      {
        if Cell(plane, maskSize, row, col) <= threshold {
          continue;
        }
        m := m[row := m[row][col := 1]];
      }
    }
  }

  /** `std::max<float>(v, 0)`. */
  function ClampZero(v: real): (r: real)
    ensures r >= 0.0 && r >= v
    ensures v >= 0.0 ==> r == v
  {
    if v < 0.0 then 0.0 else v
  }

  datatype ObjectInfo = ObjectInfo(classId: int, confidence: real, x0: real, y0: real, x1: real, y1: real, mask: seq<seq<int>>)

  /** The mask plane of every box lies inside the mask-area buffer. */
  predicate MasksInRange(boxes: seq<DetectBox>, maskArea: seq<real>, maskSize: nat)
  {
    forall j | 0 <= j < |boxes| :: boxes[j].maskOffset + maskSize * maskSize <= |maskArea|
  }

  /** The object reported for one box: corners around the centre, clamped at 0, and its mask. */
  function ToObjectInfo(d: DetectBox, maskArea: seq<real>, maskSize: nat, threshold: real): (o: ObjectInfo)
    requires d.maskOffset + maskSize * maskSize <= |maskArea|
    ensures o.classId == d.classID && o.confidence == d.prob
    ensures o.x0 == ClampZero(d.x - d.width / CoordinateParam) && o.y0 == ClampZero(d.y - d.height / CoordinateParam)
    ensures o.x1 == ClampZero(d.x + d.width / CoordinateParam) && o.y1 == ClampZero(d.y + d.height / CoordinateParam)
    ensures o.mask == BinaryMask(maskArea[d.maskOffset..d.maskOffset + maskSize * maskSize], maskSize, threshold)
  {
    ObjectInfo(d.classID, d.prob,
               ClampZero(d.x - d.width / CoordinateParam), ClampZero(d.y - d.height / CoordinateParam),
               ClampZero(d.x + d.width / CoordinateParam), ClampZero(d.y + d.height / CoordinateParam),
               BinaryMask(maskArea[d.maskOffset..d.maskOffset + maskSize * maskSize], maskSize, threshold))
  }

  function CountNonNegative(boxes: seq<DetectBox>): nat
  {
    if |boxes| == 0 then 0
    else CountNonNegative(boxes[..|boxes| - 1]) + (if boxes[|boxes| - 1].classID >= 0 then 1 else 0)
  }

  /** The objects reported for `boxes`, in order: one per box with a non-negative class. */
  function ObjectInfos(boxes: seq<DetectBox>, maskArea: seq<real>, maskSize: nat, threshold: real): (r: seq<ObjectInfo>)
    requires MasksInRange(boxes, maskArea, maskSize)
    ensures |r| == CountNonNegative(boxes)
    ensures forall j | 0 <= j < |r| ::
      r[j].classId >= 0 && r[j].x0 >= 0.0 && r[j].y0 >= 0.0 && r[j].x1 >= 0.0 && r[j].y1 >= 0.0
    ensures forall j | 0 <= j < |r| :: |r[j].mask| == maskSize
  {
    if |boxes| == 0 then []
    else
      var d := boxes[|boxes| - 1];
      ObjectInfos(boxes[..|boxes| - 1], maskArea, maskSize, threshold) +
      (if d.classID < 0 then [] else [ToObjectInfo(d, maskArea, maskSize, threshold)])
  }

  /** Every box already reported keeps its class among the objects. */
  lemma {:induction false} ObjectInfosKeepClasses(boxes: seq<DetectBox>, maskArea: seq<real>, maskSize: nat, threshold: real)
    requires MasksInRange(boxes, maskArea, maskSize)
    requires forall j | 0 <= j < |boxes| :: boxes[j].classID >= 0
    ensures |ObjectInfos(boxes, maskArea, maskSize, threshold)| == |boxes|
    ensures forall j | 0 <= j < |boxes| ::
      ObjectInfos(boxes, maskArea, maskSize, threshold)[j] == ToObjectInfo(boxes[j], maskArea, maskSize, threshold)
  {
    if |boxes| > 0 {
      ObjectInfosKeepClasses(boxes[..|boxes| - 1], maskArea, maskSize, threshold);
    }
  }

  /** `ConvertObjInfoFromDetectBox`: the mask step never fails, so every non-negative box is reported. */
  method ConvertObjInfoFromDetectBox(boxes: seq<DetectBox>, maskArea: seq<real>, maskSize: nat, threshold: real)
    returns (objectInfos: seq<ObjectInfo>)
    requires MasksInRange(boxes, maskArea, maskSize)
    ensures objectInfos == ObjectInfos(boxes, maskArea, maskSize, threshold)
  {
    objectInfos := [];
    for j := 0 to |boxes|
      invariant objectInfos == ObjectInfos(boxes[..j], maskArea, maskSize, threshold)
    {
      assert boxes[..j + 1][..j] == boxes[..j];
      var d := boxes[j];
      if d.classID < 0 {
        continue;
      }
      var mask := MaskPostProcess(maskArea[d.maskOffset..d.maskOffset + maskSize * maskSize], maskSize, threshold);
      var info := ObjectInfo(d.classID, d.prob,
                             ClampZero(d.x - d.width / CoordinateParam), ClampZero(d.y - d.height / CoordinateParam),
                             ClampZero(d.x + d.width / CoordinateParam), ClampZero(d.y + d.height / CoordinateParam),
                             mask);
      objectInfos := objectInfos + [info];
    }
    assert boxes[..|boxes|] == boxes;
  }

  /** A box from slot `i < rpnMaxNum` has its mask plane inside a well-formed buffer. */
  lemma MaskPlaneInRange(i: nat, rpnMaxNum: nat, maskSize: nat)
    requires i < rpnMaxNum
    ensures i * MaskPlanes * (maskSize * maskSize) + maskSize * maskSize + maskSize * maskSize <=
            rpnMaxNum * MaskPlanes * (maskSize * maskSize)
  {
    var plane := maskSize * maskSize;
    var block := MaskPlanes * plane;
    MulMono(i + 1, rpnMaxNum, block);
    assert (i + 1) * block == i * block + block;
    assert i * MaskPlanes * plane == i * block;
    assert rpnMaxNum * MaskPlanes * plane == rpnMaxNum * block;
  }

  lemma CandidatesMasksInRange(b: BatchOutputs, rpnMaxNum: nat, scoreThresh: real, maskSize: nat, boxes: seq<DetectBox>)
    requires WellFormed(b, rpnMaxNum, maskSize)
    requires multiset(boxes) <= multiset(Candidates(b, scoreThresh, maskSize, rpnMaxNum))
    ensures MasksInRange(boxes, b.maskArea, maskSize)
  {
    forall j | 0 <= j < |boxes|
      ensures boxes[j].maskOffset + maskSize * maskSize <= |b.maskArea|
    {
      assert boxes[j] in multiset(boxes);
      CandidatesMembers(b, scoreThresh, maskSize, rpnMaxNum, boxes[j]);
      var i :| 0 <= i < rpnMaxNum && Kept(b, i, scoreThresh) && BoxAt(b, i, maskSize) == boxes[j];
      MaskPlaneInRange(i, rpnMaxNum, maskSize);
    }
  }

  /**
   * `ObjectDetectionOutput`: per batch element, in order, the valid boxes
   * go through non-maximum suppression (`nms`, outside this model, which
   * only removes or reorders boxes) and are converted; `picked` records
   * which top-K outcome the sort produced.
   */
  method ObjectDetectionOutput(batches: seq<BatchOutputs>, rpnMaxNum: nat, scoreThresh: real, maskSize: nat,
                               maxPerImg: nat, threshold: real, nms: seq<DetectBox> -> seq<DetectBox>)
    returns (objectInfos: seq<seq<ObjectInfo>>, ghost picked: seq<seq<DetectBox>>)
    requires forall i | 0 <= i < |batches| :: WellFormed(batches[i], rpnMaxNum, maskSize)
    requires forall s: seq<DetectBox> :: multiset(nms(s)) <= multiset(s)
    ensures |objectInfos| == |batches| && |picked| == |batches|
    ensures forall i | 0 <= i < |batches| ::
      ImageOutput(batches[i], rpnMaxNum, scoreThresh, maskSize, maxPerImg, threshold, nms, picked[i], objectInfos[i])
  {
    objectInfos := [];
    picked := [];
    for i := 0 to |batches|
      invariant |objectInfos| == i && |picked| == i
      invariant forall k | 0 <= k < i ::
        ImageOutput(batches[k], rpnMaxNum, scoreThresh, maskSize, maxPerImg, threshold, nms, picked[k], objectInfos[k])
    {
      var detBoxes := GetValidDetBoxes(batches[i], rpnMaxNum, scoreThresh, maskSize, maxPerImg);
      var afterNms := nms(detBoxes);
      assert multiset(afterNms) <= multiset(detBoxes);
      CandidatesMasksInRange(batches[i], rpnMaxNum, scoreThresh, maskSize, afterNms);
      var infos := ConvertObjInfoFromDetectBox(afterNms, batches[i].maskArea, maskSize, threshold);
      assert ImageOutput(batches[i], rpnMaxNum, scoreThresh, maskSize, maxPerImg, threshold, nms, detBoxes, infos);
      objectInfos := objectInfos + [infos];
      picked := picked + [detBoxes];
    }
  }

  /**
   * The output for one image: `picked` is a top-K of the image's candidates,
   * and the objects are the converted boxes that survive suppression, whose
   * mask planes lie inside the mask buffer.
   */
  ghost predicate ImageOutput(b: BatchOutputs, rpnMaxNum: nat, scoreThresh: real, maskSize: nat, maxPerImg: nat,
                              threshold: real, nms: seq<DetectBox> -> seq<DetectBox>, picked: seq<DetectBox>,
                              infos: seq<ObjectInfo>)
  {
    WellFormed(b, rpnMaxNum, maskSize) &&
    IsTopK(Candidates(b, scoreThresh, maskSize, rpnMaxNum), picked, maxPerImg) &&
    MasksInRange(nms(picked), b.maskArea, maskSize) &&
    infos == ObjectInfos(nms(picked), b.maskArea, maskSize, threshold)
  }
}
