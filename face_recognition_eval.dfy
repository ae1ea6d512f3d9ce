/**
 * The evaluation driver of FaceRecognitionForTracking
 * (research/cv/FaceRecognitionForTracking/eval.py): image batching in
 * `load_images`, the checkpoint remap, the grouping of images by object in
 * `inclass_likehood` / `btclass_likehood`, and the TAR@FAR table of
 * `tar_at_far`. Features are an abstract type and the similarity of two
 * features (a dot product in the source) is a parameter.
 */
module FaceRecognitionEval {
  import opened Wrappers
  import opened Strings
  import opened CheckpointKeys

  // ---------------------------------------------------------------------
  // Batching

  /** The concatenation of the batches, in order. */
  function Flatten<T>(batches: seq<seq<T>>): seq<T>
  {
    if |batches| == 0 then [] else Flatten(batches[..|batches| - 1]) + batches[|batches| - 1]
  }

  /**
   * `load_images`: an item is added to the current batch, which is emitted
   * when it reaches `batchSize`; a non-empty remainder is emitted last.
   * (With `batchSize <= 0` the size is never reached, so everything comes
   * out as one final batch.)
   */
  method LoadImages<T>(items: seq<T>, batchSize: int) returns (batches: seq<seq<T>>)
    ensures Flatten(batches) == items
    ensures forall j | 0 <= j < |batches| :: |batches[j]| > 0
    ensures batchSize > 0 ==> forall j | 0 <= j < |batches| - 1 :: |batches[j]| == batchSize
    ensures batchSize > 0 && |batches| > 0 ==> |batches[|batches| - 1]| <= batchSize
    ensures batchSize <= 0 ==> |batches| <= 1
  {
    batches := [];
    var ll: seq<T> := [];
    for i := 0 to |items|
      invariant Flatten(batches) + ll == items[..i]
      invariant FullBatches(batches, batchSize)
      invariant batchSize > 0 ==> |ll| < batchSize
      invariant batchSize <= 0 ==> |batches| == 0
    {
      assert items[..i + 1] == items[..i] + [items[i]];
      ll := ll + [items[i]];
      if |ll| == batchSize {
        FlattenSnoc(batches, ll);
        FullBatchesSnoc(batches, ll, batchSize);
        batches := batches + [ll];
        ll := [];
      }
    }
    assert items[..|items|] == items;
    if |ll| > 0 {
      FlattenSnoc(batches, ll);
      batches := batches + [ll];
    }
  }

  /** Every batch is non-empty and, for a positive size, full. */
  predicate FullBatches<T>(batches: seq<seq<T>>, batchSize: int)
  {
    forall j | 0 <= j < |batches| :: |batches[j]| > 0 && (batchSize > 0 ==> |batches[j]| == batchSize)
  }

  lemma FullBatchesSnoc<T>(batches: seq<seq<T>>, b: seq<T>, batchSize: int)
    requires FullBatches(batches, batchSize) && |b| > 0 && (batchSize > 0 ==> |b| == batchSize)
    ensures FullBatches(batches + [b], batchSize)
  {
  }

  lemma FlattenSnoc<T>(batches: seq<seq<T>>, b: seq<T>)
    ensures Flatten(batches + [b]) == Flatten(batches) + b
  {
    assert (batches + [b])[..|batches|] == batches;
  }

  /** The checkpoint remap of `run_eval`: the wrapper prefix is `model.`. */
  method LoadCheckpoint<V>(entries: seq<(string, V)>) returns (m: map<string, V>)
    ensures m == Remapped(entries, key => StripPrefixRename("model.", key))
    ensures forall k | k in m :: StrippedFrom("model.", entries, k)
  {
    m := RemapStripping("model.", entries);
  }

  // ---------------------------------------------------------------------
  // Object identity

  /** `_` followed by four digits starts at position `i`: the regular expression `_\d\d\d\d`. */
  predicate FrameSuffixAt(name: string, i: nat)
  {
    i + 5 <= |name| && name[i] == '_' &&
    IsDigit(name[i + 1]) && IsDigit(name[i + 2]) && IsDigit(name[i + 3]) && IsDigit(name[i + 4])
  }

  /**
   * `re.split('_\d\d\d\d', name)[0]`: the name up to the first `_dddd`,
   * or the whole name when there is none (see `ObjectIdSpec`).
   */
  function ObjectId(name: string): string
  {
    if |name| == 0 || FrameSuffixAt(name, 0) then "" else [name[0]] + ObjectId(name[1..])
  }

  /** The object id is a prefix of the name, ending at its first `_dddd` or at its end. */
  lemma {:induction false} ObjectIdSpec(name: string)
    ensures var id := ObjectId(name);
      StartsWith(name, id) && (forall i | 0 <= i < |id| :: !FrameSuffixAt(name, i)) &&
      (id == name || FrameSuffixAt(name, |id|))
  {
    if |name| > 0 && !FrameSuffixAt(name, 0) {
      var rest := ObjectId(name[1..]);
      ObjectIdSpec(name[1..]);
      forall i | 1 <= i < |rest| + 1
        ensures !FrameSuffixAt(name, i)
      {
        assert !FrameSuffixAt(name[1..], i - 1);
      }
    }
  }

  /** Conversely, a prefix with those properties is the object id. */
  lemma ObjectIdUnique(name: string, id: string)
    requires StartsWith(name, id) && forall i | 0 <= i < |id| :: !FrameSuffixAt(name, i)
    requires id == name || FrameSuffixAt(name, |id|)
    ensures ObjectId(name) == id
  {
    ObjectIdSpec(name);
    var o := ObjectId(name);
    assert |o| == |id|;
    assert o == name[..|o|] && id == name[..|id|];
  }

  lemma ObjectIdExample()
    ensures ObjectId("person3_0042_x") == "person3"
  {
    var name := "person3_0042_x";
    assert FrameSuffixAt(name, 7);
    forall i | 0 <= i < 7
      ensures !FrameSuffixAt(name, i)
    {
      assert name[i] != '_';
    }
    ObjectIdUnique(name, "person3");
  }

  // ---------------------------------------------------------------------
  // In-class likelihoods

  /** The features of the images of object `key`, in input order. */
  function FeaturesOf<F>(info: seq<(string, F)>, key: string): seq<F>
  {
    if |info| == 0 then []
    else FeaturesOf(info[..|info| - 1], key) +
         (if ObjectId(info[|info| - 1].0) == key then [info[|info| - 1].1] else [])
  }

  /** `obj_feas`, with its keys in insertion order. */
  datatype Groups<F> = Groups(order: seq<string>, feas: map<string, seq<F>>)

  /** The first loop of `inclass_likehood` over `info`; see also `GroupsOfDistinct`. */
  function GroupsOf<F>(info: seq<(string, F)>): (g: Groups<F>)
    ensures forall k :: k in g.feas <==> k in g.order
  {
    if |info| == 0 then Groups([], map[])
    else
      var g := GroupsOf(info[..|info| - 1]);
      var key := ObjectId(info[|info| - 1].0);
      if key in g.feas then Groups(g.order, g.feas[key := g.feas[key] + [info[|info| - 1].1]])
      else Groups(g.order + [key], g.feas[key := [info[|info| - 1].1]])
  }

  predicate Distinct(xs: seq<string>)
  {
    forall i, j | 0 <= i < j < |xs| :: xs[i] != xs[j]
  }

  /** Each object is listed once in `order`. */
  lemma {:induction false} GroupsOfDistinct<F>(info: seq<(string, F)>)
    ensures Distinct(GroupsOf(info).order)
  {
    if |info| > 0 {
      var g := GroupsOf(info[..|info| - 1]);
      GroupsOfDistinct(info[..|info| - 1]);
      var key := ObjectId(info[|info| - 1].0);
      if key !in g.feas {
        var o := g.order + [key];
        forall i, j | 0 <= i < j < |o|
          ensures o[i] != o[j]
        {
          if j == |g.order| {
            assert o[i] == g.order[i] && o[j] == key;
            assert g.order[i] in g.order && key !in g.order;
          } else {
            assert o[i] == g.order[i] && o[j] == g.order[j];
          }
        }
      }
    }
  }

  /**
   * Each object of the input has a group, and the group holds exactly the
   * features of that object's images, in input order.
   */
  lemma {:induction false} GroupsOfContents<F>(info: seq<(string, F)>, key: string)
    ensures key in GroupsOf(info).feas <==> HasObject(info, key)
    ensures key in GroupsOf(info).feas ==> GroupsOf(info).feas[key] == FeaturesOf(info, key)
    ensures key !in GroupsOf(info).feas ==> FeaturesOf(info, key) == []
  {
    if |info| > 0 {
      var init := info[..|info| - 1];
      var last := info[|info| - 1];
      GroupsOfContents(init, key);
      HasObjectStep(info);
      var g := GroupsOf(init);
      var k := ObjectId(last.0);
      assert FeaturesOf(info, key) == FeaturesOf(init, key) + (if k == key then [last.1] else []);
      if k == key && key !in g.feas {
        assert GroupsOf(info).feas[key] == [last.1];
      }
    }
  }

  /** Some image of `info` shows object `key`. */
  predicate HasObject<F>(info: seq<(string, F)>, key: string)
  {
    exists i | 0 <= i < |info| :: ObjectId(info[i].0) == key
  }

  lemma HasObjectStep<F>(info: seq<(string, F)>)
    requires |info| > 0
    ensures forall key :: HasObject(info, key) <==>
      HasObject(info[..|info| - 1], key) || ObjectId(info[|info| - 1].0) == key
  {
    var init := info[..|info| - 1];
    assert forall i | 0 <= i < |init| :: init[i] == info[i];
  }

  /** The row of the similarity matrix for feature `a` against a group. */
  function Row<F>(a: F, feas: seq<F>, sim: (F, F) -> real): (row: seq<real>)
    ensures |row| == |feas|
    ensures forall j | 0 <= j < |feas| :: row[j] == sim(a, feas[j])
  {
    seq(|feas|, j requires 0 <= j < |feas| => sim(a, feas[j]))
  }

  /** The similarity matrix of a group, row after row. */
  function Matrix<F>(rows: seq<F>, feas: seq<F>, sim: (F, F) -> real): seq<real>
  {
    if |rows| == 0 then []
    else Matrix(rows[..|rows| - 1], feas, sim) + Row(rows[|rows| - 1], feas, sim)
  }

  /** A group's matrix has size * size entries. */
  lemma {:induction false} MatrixLength<F>(rows: seq<F>, feas: seq<F>, sim: (F, F) -> real)
    ensures |Matrix(rows, feas, sim)| == |rows| * |feas|
  {
    if |rows| > 0 {
      var n, c := |rows|, |feas|;
      MatrixLength(rows[..n - 1], feas, sim);
      assert (n - 1) * c + c == n * c;
    }
  }

  /** Entry (i, j) of a group's matrix sits at `i * size + j`. */
  lemma {:induction false} MatrixEntry<F>(rows: seq<F>, feas: seq<F>, sim: (F, F) -> real, i: nat, j: nat)
    requires i < |rows| && j < |feas|
    ensures i * |feas| + j < |Matrix(rows, feas, sim)|
    ensures Matrix(rows, feas, sim)[i * |feas| + j] == sim(rows[i], feas[j])
  {
    var n, c := |rows|, |feas|;
    var init := rows[..n - 1];
    MatrixLength(rows, feas, sim);
    MatrixLength(init, feas, sim);
    var before := Matrix(init, feas, sim);
    assert |before| == (n - 1) * c;
    if i < n - 1 {
      MatrixEntry(init, feas, sim, i, j);
      assert init[i] == rows[i];
    } else {
      assert i * c == |before|;
    }
  }

  /** The likelihoods `inclass_likehood` emits for the groups listed in `order`. */
  function InclassScores<F>(order: seq<string>, feas: map<string, seq<F>>, sim: (F, F) -> real): seq<real>
    requires forall k | k in order :: k in feas
  {
    if |order| == 0 then []
    else
      var g := feas[order[|order| - 1]];
      InclassScores(order[..|order| - 1], feas, sim) + Matrix(g, g, sim)
  }

  /** One group contributes size * size scores. */
  function SquaredSizes<F>(order: seq<string>, feas: map<string, seq<F>>): nat
    requires forall k | k in order :: k in feas
  {
    if |order| == 0 then 0
    else SquaredSizes(order[..|order| - 1], feas) + |feas[order[|order| - 1]]| * |feas[order[|order| - 1]]|
  }

  lemma {:induction false} InclassScoresCount<F>(order: seq<string>, feas: map<string, seq<F>>, sim: (F, F) -> real)
    requires forall k | k in order :: k in feas
    ensures |InclassScores(order, feas, sim)| == SquaredSizes(order, feas)
  {
    if |order| > 0 {
      InclassScoresCount(order[..|order| - 1], feas, sim);
      var g := feas[order[|order| - 1]];
      MatrixLength(g, g, sim);
    }
  }

  /** The first loop of `inclass_likehood`: `obj_feas` filled image by image. */
  method GroupImages<F>(info: seq<(string, F)>) returns (order: seq<string>, objFeas: map<string, seq<F>>)
    ensures Groups(order, objFeas) == GroupsOf(info)
  {
    order := [];
    objFeas := map[];
    for i := 0 to |info|
      invariant Groups(order, objFeas) == GroupsOf(info[..i])
    {
      assert info[..i + 1][..i] == info[..i];
      assert info[..i + 1][i] == info[i];
      var key := ObjectId(info[i].0);
      if key !in objFeas {
        order := order + [key];
        objFeas := objFeas[key := []];
        assert [] + [info[i].1] == [info[i].1];
      }
      objFeas := objFeas[key := objFeas[key] + [info[i].1]];
    }
    assert info[..|info|] == info;
  }

  /** The similarity matrix of one group, appended row by row. */
  method GroupMatrix<F>(feas: seq<F>, sim: (F, F) -> real) returns (block: seq<real>)
    ensures block == Matrix(feas, feas, sim)
  {
    block := [];
    for r := 0 to |feas|
      invariant block == Matrix(feas[..r], feas, sim)
    {
      assert feas[..r + 1][..r] == feas[..r];
      block := block + Row(feas[r], feas, sim);
    }
    assert feas[..|feas|] == feas;
  }

  /**
   * `inclass_likehood`: images are grouped by object, and for each object,
   * in order of first appearance, every ordered pair of its images
   * (including an image with itself) contributes one score.
   */
  method InclassLikehood<F>(info: seq<(string, F)>, sim: (F, F) -> real) returns (likehoods: seq<real>)
    ensures likehoods == InclassScores(GroupsOf(info).order, GroupsOf(info).feas, sim)
    ensures |likehoods| == SquaredSizes(GroupsOf(info).order, GroupsOf(info).feas)
  {
    var order, objFeas := GroupImages(info);
    likehoods := [];
    for k := 0 to |order|
      invariant likehoods == InclassScores(order[..k], objFeas, sim)
    {
      assert order[..k + 1][..k] == order[..k];
      var block := GroupMatrix(objFeas[order[k]], sim);
      likehoods := likehoods + block;
    }
    assert order[..|order|] == order;
    InclassScoresCount(order, objFeas, sim);
  }

  // ---------------------------------------------------------------------
  // Between-class likelihoods

  /** The scores of image `a` against every image of another object, in input order. */
  function Against<F>(a: (string, F), info: seq<(string, F)>, sim: (F, F) -> real): seq<real>
  {
    if |info| == 0 then []
    else
      var b := info[|info| - 1];
      Against(a, info[..|info| - 1], sim) + (if ObjectId(a.0) == ObjectId(b.0) then [] else [sim(a.1, b.1)])
  }

  /** How many images of `info` belong to an object other than that of `name`. */
  function OthersCount<F>(name: string, info: seq<(string, F)>): (c: nat)
    ensures c <= |info|
  {
    if |info| == 0 then 0
    else OthersCount(name, info[..|info| - 1]) + (if ObjectId(name) == ObjectId(info[|info| - 1].0) then 0 else 1)
  }

  lemma {:induction false} AgainstCount<F>(a: (string, F), info: seq<(string, F)>, sim: (F, F) -> real)
    ensures |Against(a, info, sim)| == OthersCount(a.0, info)
  {
    if |info| > 0 {
      AgainstCount(a, info[..|info| - 1], sim);
    }
  }

  /** No image is ever compared with itself or with an image of its own object. */
  lemma {:induction false} AgainstOwnObject<F>(a: (string, F), info: seq<(string, F)>, sim: (F, F) -> real)
    requires forall i | 0 <= i < |info| :: ObjectId(info[i].0) == ObjectId(a.0)
    ensures Against(a, info, sim) == []
  {
    if |info| > 0 {
      AgainstOwnObject(a, info[..|info| - 1], sim);
    }
  }

  /** The scores `btclass_likehood` emits for the first `n` outer images. */
  function BtclassScores<F>(outer: seq<(string, F)>, info: seq<(string, F)>, sim: (F, F) -> real): seq<real>
  {
    if |outer| == 0 then []
    else BtclassScores(outer[..|outer| - 1], info, sim) + Against(outer[|outer| - 1], info, sim)
  }

  /**
   * `btclass_likehood`: one score per ordered pair of images of different
   * objects, the outer image varying slowest.
   */
  method BtclassLikehood<F>(info: seq<(string, F)>, sim: (F, F) -> real) returns (likehoods: seq<real>)
    ensures likehoods == BtclassScores(info, info, sim)
  {
    likehoods := [];
    for i := 0 to |info|
      invariant likehoods == BtclassScores(info[..i], info, sim)
    {
      assert info[..i + 1][..i] == info[..i];
      var row: seq<real> := [];
      for j := 0 to |info|
        invariant row == Against(info[i], info[..j], sim)
      {
        assert info[..j + 1][..j] == info[..j];
        if ObjectId(info[i].0) != ObjectId(info[j].0) {
          row := row + [sim(info[i].1, info[j].1)];
        }
      }
      assert info[..|info|] == info;
      likehoods := likehoods + row;
    }
    assert info[..|info|] == info;
  }

  // ---------------------------------------------------------------------
  // TAR at FAR

  /** The false-accept rates of the table, from loosest to strictest. */
  const TestPoints: seq<real> := [0.5, 0.3, 0.1, 0.01, 0.001, 0.0001, 0.00001]

  /** `np.sum(inlikehoods > thre)`. */
  function CountAbove(xs: seq<real>, t: real): (c: nat)
    ensures c <= |xs|
  {
    if |xs| == 0 then 0 else CountAbove(xs[..|xs| - 1], t) + (if xs[|xs| - 1] > t then 1 else 0)
  }

  /** Raising the threshold can only lower the number of accepted pairs. */
  lemma {:induction false} CountAboveAntitone(xs: seq<real>, s: real, t: real)
    requires s <= t
    ensures CountAbove(xs, t) <= CountAbove(xs, s)
  {
    if |xs| > 0 {
      CountAboveAntitone(xs[..|xs| - 1], s, t);
    }
  }

  /** `int(size * point)` for a rate in [0, 1). */
  function ThresholdIndex(size: nat, point: real): (k: nat)
    requires 0.0 <= point < 1.0
    ensures size > 0 ==> k < size
    ensures k as real <= size as real * point < k as real + 1.0
  {
    (size as real * point).Floor
  }

  datatype TarPoint = TarPoint(far: real, accepted: nat, total: nat, threshold: real)

  /**
   * `tar_at_far` on the sorted likelihoods: for each rate the threshold is
   * the between-class score at position `int(size * rate)`, and the TAR is
   * the share of in-class scores strictly above it (`accepted / total`).
   * Without between-class scores the first lookup raises IndexError;
   * without in-class scores the first share raises ZeroDivisionError.
   */
  method TarAtFar(inlikehoods: seq<real>, btlikehoods: seq<real>) returns (r: Result<seq<TarPoint>>)
    ensures r.Err? <==> |btlikehoods| == 0 || |inlikehoods| == 0
    ensures |btlikehoods| == 0 ==> r == Err(IndexError)
    ensures |btlikehoods| > 0 && |inlikehoods| == 0 ==> r == Err(ZeroDivisionError)
    ensures r.Ok? ==> |r.value| == |TestPoints|
    ensures r.Ok? ==> forall p | 0 <= p < |TestPoints| ::
      var k := ThresholdIndex(|btlikehoods|, TestPoints[p]);
      k < |btlikehoods| &&
      r.value[p] == TarPoint(TestPoints[p], CountAbove(inlikehoods, btlikehoods[k]), |inlikehoods|, btlikehoods[k])
  {
    if |btlikehoods| == 0 {
      return Err(IndexError);
    }
    if |inlikehoods| == 0 {
      return Err(ZeroDivisionError);
    }
    var tarFar: seq<TarPoint> := [];
    for p := 0 to |TestPoints|
      invariant |tarFar| == p
      invariant forall q | 0 <= q < p ::
        var k := ThresholdIndex(|btlikehoods|, TestPoints[q]);
        k < |btlikehoods| &&
        tarFar[q] == TarPoint(TestPoints[q], CountAbove(inlikehoods, btlikehoods[k]), |inlikehoods|, btlikehoods[k])
    {
      var thre := btlikehoods[ThresholdIndex(|btlikehoods|, TestPoints[p])];
      tarFar := tarFar + [TarPoint(TestPoints[p], CountAbove(inlikehoods, thre), |inlikehoods|, thre)];
    }
    return Ok(tarFar);
  }

  /**
   * With the between-class scores sorted in decreasing order, as the driver
   * sorts them, stricter rates use higher thresholds and accept fewer
   * in-class pairs.
   */
  lemma TarDecreasing(inlikehoods: seq<real>, btlikehoods: seq<real>, p: nat, q: nat)
    requires |btlikehoods| > 0
    requires forall i, j | 0 <= i < j < |btlikehoods| :: btlikehoods[i] >= btlikehoods[j]
    requires p < q < |TestPoints|
    ensures var kp := ThresholdIndex(|btlikehoods|, TestPoints[p]);
      var kq := ThresholdIndex(|btlikehoods|, TestPoints[q]);
      btlikehoods[kp] <= btlikehoods[kq] &&
      CountAbove(inlikehoods, btlikehoods[kq]) <= CountAbove(inlikehoods, btlikehoods[kp])
  {
    var n := |btlikehoods| as real;
    assert TestPoints[q] < TestPoints[p];
    var kp := ThresholdIndex(|btlikehoods|, TestPoints[p]);
    var kq := ThresholdIndex(|btlikehoods|, TestPoints[q]);
    assert n * TestPoints[q] <= n * TestPoints[p];
    assert kq <= kp;
    CountAboveAntitone(inlikehoods, btlikehoods[kp], btlikehoods[kq]);
  }
}
