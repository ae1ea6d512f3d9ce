/**
 * The step-decay learning-rate schedule `get_lr` that
 * research/cv/simple_baselines/train.py and research/cv/AlphaPose/modelart/start.py
 * define word for word (only their defaults differ), and the checkpoint
 * naming of the AlphaPose ModelArts script.
 */
module StepLr {
  import opened Strings

  /** `factor ** n`. */
  function Pow(factor: real, n: nat): real
  {
    if n == 0 then 1.0 else Pow(factor, n - 1) * factor
  }

  /** How many of the steps 0..i are drop steps (each step counts once, however often it is listed). */
  function DropsUpTo(i: int, dropSteps: seq<int>): (c: nat)
    ensures i < 0 ==> c == 0
    ensures i >= 0 ==> c <= i + 1
  {
    if i < 0 then 0 else DropsUpTo(i - 1, dropSteps) + (if i in dropSteps then 1 else 0)
  }

  /** The rate at step `i` of the full schedule: one factor per drop step reached, the step itself included. */
  function RateAt(i: int, lrInit: real, factor: real, dropSteps: seq<int>): real
  {
    lrInit * Pow(factor, DropsUpTo(i, dropSteps))
  }

  /** `[steps_per_epoch * x for x in epoch_number_to_drop]`. */
  function DropSteps(stepsPerEpoch: int, epochsToDrop: seq<int>): (r: seq<int>)
    ensures |r| == |epochsToDrop|
    ensures forall k | 0 <= k < |r| :: r[k] == stepsPerEpoch * epochsToDrop[k]
  {
    seq(|epochsToDrop|, k requires 0 <= k < |epochsToDrop| => stepsPerEpoch * epochsToDrop[k])
  }

  /** `xs[k:]` with Python's slice rules: negative starts count from the end, starts past the end give nothing. */
  function SliceFrom<T>(xs: seq<T>, k: int): (r: seq<T>)
    ensures k >= 0 ==> r == xs[if k <= |xs| then k else |xs|..]
    ensures k < 0 ==> r == xs[if |xs| + k >= 0 then |xs| + k else 0..]
  {
    if k >= 0 then (if k <= |xs| then xs[k..] else [])
    else if |xs| + k >= 0 then xs[|xs| + k..]
    else xs
  }

  /** The loop of `get_lr`: the rate is multiplied by `factor` on reaching each drop step. */
  method FullSchedule(totalSteps: int, lrInit: real, factor: real, dropSteps: seq<int>) returns (lrEachStep: seq<real>)
    ensures |lrEachStep| == if totalSteps > 0 then totalSteps else 0
    ensures forall i | 0 <= i < |lrEachStep| :: lrEachStep[i] == RateAt(i, lrInit, factor, dropSteps)
  {
    lrEachStep := [];
    var lr := lrInit;
    var i := 0;
    while i < totalSteps
      invariant 0 <= i && (totalSteps > 0 ==> i <= totalSteps) && (totalSteps <= 0 ==> i == 0)
      invariant |lrEachStep| == i
      invariant lr == RateAt(i - 1, lrInit, factor, dropSteps)
      invariant forall j | 0 <= j < i :: lrEachStep[j] == RateAt(j, lrInit, factor, dropSteps)
    {
      if i in dropSteps {
        lr := lr * factor;
      }
      lrEachStep := lrEachStep + [lr];
      i := i + 1;
    }
  }

  /**
   * `get_lr`: the schedule over `steps_per_epoch * total_epochs` steps,
   * from step `steps_per_epoch * begin_epoch` on.
   */
  method GetLr(beginEpoch: int, totalEpochs: int, stepsPerEpoch: int, lrInit: real, factor: real,
               epochNumberToDrop: seq<int>) returns (learningRate: seq<real>)
    ensures var total := if stepsPerEpoch * totalEpochs > 0 then stepsPerEpoch * totalEpochs else 0;
      var full := seq(total, i requires 0 <= i < total => RateAt(i, lrInit, factor, DropSteps(stepsPerEpoch, epochNumberToDrop)));
      learningRate == SliceFrom(full, stepsPerEpoch * beginEpoch)
  {
    var totalSteps := stepsPerEpoch * totalEpochs;
    var stepNumberToDrop := DropSteps(stepsPerEpoch, epochNumberToDrop);
    var lrEachStep := FullSchedule(totalSteps, lrInit, factor, stepNumberToDrop);
    var currentStep := stepsPerEpoch * beginEpoch;
    learningRate := SliceFrom(lrEachStep, currentStep);
  }

  /** Starting at a non-negative step inside the schedule leaves `total - start` values. */
  lemma GetLrLength(total: nat, start: int)
    requires 0 <= start <= total
    ensures forall xs: seq<real> | |xs| == total :: |SliceFrom(xs, start)| == total - start
  {
  }

  /** Between two steps with no drop step in between (after the first), the rate is the same. */
  lemma {:induction false} ConstantBetweenDrops(i: int, j: int, dropSteps: seq<int>)
    requires 0 <= i <= j
    requires forall k | i < k <= j :: k !in dropSteps
    ensures DropsUpTo(i, dropSteps) == DropsUpTo(j, dropSteps)
  {
    if j > i {
      ConstantBetweenDrops(i, j - 1, dropSteps);
    }
  }

  /** The drop takes effect at the drop step itself: the count rises by one there. */
  lemma DropAtStep(d: int, dropSteps: seq<int>)
    requires d >= 0 && d in dropSteps
    ensures DropsUpTo(d, dropSteps) == DropsUpTo(d - 1, dropSteps) + 1
  {
  }

  /** In a strictly increasing sequence, a value no larger than another sits no later. */
  lemma SortedIndexOrder(xs: seq<int>, a: nat, b: nat)
    requires forall j, k | 0 <= j < k < |xs| :: xs[j] < xs[k]
    requires a < |xs| && b < |xs| && xs[b] <= xs[a]
    ensures b <= a
  {
  }

  /** With the drop steps increasing, every step reached before step `i` counts, and no later one. */
  lemma {:induction false} DropsUpToSorted(i: int, dropSteps: seq<int>, n: nat)
    requires forall a, b | 0 <= a < b < |dropSteps| :: dropSteps[a] < dropSteps[b]
    requires forall a | 0 <= a < |dropSteps| :: dropSteps[a] >= 0
    requires n <= |dropSteps|
    requires forall a | 0 <= a < n :: dropSteps[a] <= i
    requires forall a | n <= a < |dropSteps| :: dropSteps[a] > i
    ensures DropsUpTo(i, dropSteps) == n
  {
    if i >= 0 {
      if i in dropSteps {
        var a :| 0 <= a < |dropSteps| && dropSteps[a] == i;
        assert a < n && dropSteps[n - 1] <= i;
        SortedIndexOrder(dropSteps, a, n - 1);
        forall b | 0 <= b < n - 1 ensures dropSteps[b] <= i - 1 {
          assert dropSteps[b] < dropSteps[a];
        }
        DropsUpToSorted(i - 1, dropSteps, n - 1);
      } else {
        forall a | 0 <= a < n ensures dropSteps[a] <= i - 1 {
          assert dropSteps[a] != i;
        }
        DropsUpToSorted(i - 1, dropSteps, n);
      }
    }
  }

  // ---------------------------------------------------------------------
  // Defaults

  /** simple_baselines: 0.1, dropped tenfold at epochs 90 and 120. */
  const SimpleBaselinesLrInit: real := 0.1
  const SimpleBaselinesFactor: real := 0.1
  const SimpleBaselinesDrops: seq<int> := [90, 120]

  /** AlphaPose: 0.001, dropped tenfold at epochs 170 and 200. */
  const AlphaPoseLrInit: real := 0.001
  const AlphaPoseFactor: real := 0.1
  const AlphaPoseDrops: seq<int> := [170, 200]

  /** With the simple_baselines defaults, epochs 90 to 119 train at a tenth of the initial rate. */
  lemma SimpleBaselinesSchedule(stepsPerEpoch: nat, i: int)
    requires stepsPerEpoch > 0
    requires 90 * stepsPerEpoch <= i < 120 * stepsPerEpoch
    ensures RateAt(i, SimpleBaselinesLrInit, SimpleBaselinesFactor, DropSteps(stepsPerEpoch, SimpleBaselinesDrops))
      == SimpleBaselinesLrInit * SimpleBaselinesFactor
  {
    var d := DropSteps(stepsPerEpoch, SimpleBaselinesDrops);
    assert d == [90 * stepsPerEpoch, 120 * stepsPerEpoch];
    DropsUpToSorted(i, d, 1);
  }

  // ---------------------------------------------------------------------
  // AlphaPose checkpoint naming

  /** The checkpoint prefix: per device when distributed, one name otherwise. */
  function CheckpointPrefix(runDistribute: bool, version: string, deviceId: string): (p: string)
    ensures runDistribute ==> p == "multi_train_fastpose_" + version + "_" + deviceId
    ensures !runDistribute ==> p == "single_train_fastpose_" + version
  {
    if runDistribute then "multi_" + "train_fastpose_" + version + "_" + deviceId
    else "single_" + "train_fastpose_" + version
  }

  /** The checkpoint directory: ModelArts' cache first, then a per-device directory, else one `device` directory. */
  function CheckpointDirectory(isModelArts: bool, runDistribute: bool, cacheOutput: string, ckptPath: string,
                               deviceId: string): (d: string)
    ensures isModelArts ==> d == cacheOutput + "device_" + deviceId
    ensures !isModelArts && runDistribute ==> d == ckptPath + "device_" + deviceId
    ensures !isModelArts && !runDistribute ==> d == ckptPath + "device"
  {
    if isModelArts then cacheOutput + "device_" + deviceId
    else if runDistribute then ckptPath + "device_" + deviceId
    else ckptPath + "device"
  }

  // ---------------------------------------------------------------------
  // AlphaPose training run

  /** What `main` reports and what it runs: the configured epoch range, but a single epoch of training. */
  datatype TrainRun = TrainRun(reportedEpochs: int, trainedEpochs: nat)

  function PlanTraining(beginEpoch: int, endEpoch: int): (r: TrainRun)
    ensures r.reportedEpochs == endEpoch - beginEpoch
    ensures r.trainedEpochs == 1
  {
    TrainRun(endEpoch - beginEpoch, 1)
  }

  /**
   * The one trained epoch stays inside the schedule: whenever the configured
   * range holds at least one epoch, the rates left after `begin_epoch` cover
   * the `dataset_size` steps run.
   */
  lemma TrainedStepsWithinSchedule(beginEpoch: nat, endEpoch: int, datasetSize: nat)
    requires endEpoch - beginEpoch >= 1
    ensures datasetSize * PlanTraining(beginEpoch, endEpoch).trainedEpochs <= datasetSize * endEpoch - datasetSize * beginEpoch
  {
    MulMonotoneLeft(datasetSize, 1, endEpoch - beginEpoch);
  }

  lemma MulMonotoneLeft(k: nat, a: int, b: int)
    requires a <= b
    ensures k * a <= k * b
  {
  }

  /** The file the checkpoint callback writes after epoch 1, step `datasetSize`, into `directory`. */
  function SavedCheckpoint(directory: string, prefix: string, datasetSize: nat): (path: string)
    ensures |path| > |directory| + |prefix|
  {
    directory + "/" + prefix + "-1_" + NatToString(datasetSize) + ".ckpt"
  }

  /** The checkpoint `main` reloads after training: always under the ModelArts cache directory. */
  function ReloadedCheckpoint(runDistribute: bool, cacheOutput: string, version: string, deviceId: string,
                              datasetSize: nat): (path: string)
    ensures StartsWith(path, cacheOutput + "device_" + deviceId + "/")
  {
    var r := cacheOutput + "device_" + deviceId + "/" + CheckpointPrefix(runDistribute, version, deviceId)
      + "-1_" + NatToString(datasetSize) + ".ckpt";
    assert r == (cacheOutput + "device_" + deviceId + "/") + (CheckpointPrefix(runDistribute, version, deviceId)
      + "-1_" + NatToString(datasetSize) + ".ckpt");
    r
  }

  /** On ModelArts the reloaded file is exactly the checkpoint saved by the single trained epoch. */
  lemma ReloadsSavedOnModelArts(runDistribute: bool, cacheOutput: string, ckptPath: string, version: string,
                                deviceId: string, datasetSize: nat)
    ensures ReloadedCheckpoint(runDistribute, cacheOutput, version, deviceId, datasetSize)
      == SavedCheckpoint(CheckpointDirectory(true, runDistribute, cacheOutput, ckptPath, deviceId),
                         CheckpointPrefix(runDistribute, version, deviceId), datasetSize)
  {
  }
}
