/**
 * The bookkeeping of the YOLOv3-tiny training driver
 * (research/cv/yolov3_tiny/train.py): the defaults `set_default` and
 * `setup_training` write into the global configuration, the checkpoint
 * remap of `prepare_network` for fine-tuning, and the step and epoch
 * counters of the training loop.
 */
module Yolov3Train {
  import opened Wrappers
  import opened Strings
  import opened CheckpointKeys
  import opened TrainFlags

  // ---------------------------------------------------------------------
  // Configuration

  /**
   * `t_max` after `set_default`: a cosine schedule never anneals over fewer
   * epochs than are trained.
   */
  function DefaultTMax(lrScheduler: string, maxEpoch: int, tMax: int): (t: int)
    ensures t >= tMax
    ensures lrScheduler == "cosine_annealing" ==> t >= maxEpoch
    ensures t == tMax || (lrScheduler == "cosine_annealing" && t == maxEpoch)
  {
    if lrScheduler == "cosine_annealing" && maxEpoch > tMax then maxEpoch else tMax
  }

  /**
   * `remain_epochs` and `resume_epoch` after `setup_training`. A zero (falsy)
   * `resume_epoch` trains all epochs; either way the two add up to `max_epoch`.
   */
  function ResumePlan(maxEpoch: int, resumeEpoch: int): (r: (int, int))
    ensures r.0 + r.1 == maxEpoch
    ensures r.1 == resumeEpoch
    ensures resumeEpoch == 0 ==> r.0 == maxEpoch
  {
    if resumeEpoch != 0 then (maxEpoch - resumeEpoch, resumeEpoch) else (maxEpoch, 0)
  }

  /** `convert_training_shape`: a square shape `[int(n), int(n)]`. */
  function ConvertTrainingShape(trainingShape: string): (r: Result<seq<int>>)
    ensures r.Err? <==> ParseInt(trainingShape).Err?
    ensures r.Ok? ==> |r.value| == 2 && r.value[0] == r.value[1] == ParseInt(trainingShape).value
  {
    var n :- ParseInt(trainingShape);
    Ok([n, n])
  }

  lemma ConvertTrainingShapeOfInt(n: int)
    ensures ConvertTrainingShape(IntToString(n)) == Ok([n, n])
  {
    ParseIntOfIntToString(n);
  }

  /**
   * `steps_per_epoch = int(data_size / per_batch_size / group_size)`: the
   * whole batches each device sees per epoch (float rounding not modelled).
   * A zero `per_batch_size` raises ZeroDivisionError; the device group
   * always has at least one member.
   */
  function StepsPerEpoch(dataSize: nat, perBatchSize: nat, groupSize: nat): (r: Result<nat>)
    requires groupSize > 0
    ensures r.Err? <==> perBatchSize == 0
    ensures r.Err? ==> r.error == ZeroDivisionError
    ensures r.Ok? ==> r.value * perBatchSize * groupSize <= dataSize < (r.value + 1) * perBatchSize * groupSize
  {
    if perBatchSize == 0 then Err(ZeroDivisionError) else Ok(dataSize / (perBatchSize * groupSize))
  }

  /** A non-positive `ckpt_interval` means one checkpoint per epoch. */
  function CheckpointInterval(ckptInterval: int, stepsPerEpoch: nat): (c: int)
    ensures ckptInterval > 0 ==> c == ckptInterval
    ensures ckptInterval <= 0 ==> c == stepsPerEpoch
    ensures c >= 0
  {
    if ckptInterval <= 0 then stepsPerEpoch else ckptInterval
  }

  /** Where the images and annotations are: the fine-tuning layout or COCO 2017. */
  function DataPaths(finetune: bool, dataDir: string): (paths: (string, string))
    ensures StartsWith(paths.0, dataDir) && StartsWith(paths.1, dataDir)
  {
    assert "train/images"[0] != '/' && "annotations_json/train.json"[0] != '/';
    assert "train2017"[0] != '/' && "annotations/instances_train2017.json"[0] != '/';
    if finetune then (PathJoin(dataDir, "train/images"), PathJoin(dataDir, "annotations_json/train.json"))
    else (PathJoin(dataDir, "train2017"), PathJoin(dataDir, "annotations/instances_train2017.json"))
  }

  /** The global `config` object, restricted to the fields the driver computes. */
  class YoloConfig {
    var lrScheduler: string
    var maxEpoch: int
    var tMax: int
    var lrEpochsText: string
    var lrEpochs: seq<int>
    var finetune: bool
    var dataDir: string
    var dataRoot: string
    var annFile: string
    var isDistributed: bool
    var rank: int
    var groupSize: int
    var isSaveOnMaster: bool
    var rankSaveCkptFlag: int
    var ckptPath: string
    var outputsDir: string
    var resumeEpoch: int
    var remainEpochs: int
    var trainingShape: string
    var multiScale: seq<seq<int>>
    var stepsPerEpoch: nat
    var ckptInterval: int

    constructor (lrScheduler: string, maxEpoch: int, tMax: int, lrEpochsText: string, finetune: bool,
                 dataDir: string, isDistributed: bool, isSaveOnMaster: bool, ckptPath: string,
                 resumeEpoch: int, trainingShape: string, ckptInterval: int)
      ensures this.lrScheduler == lrScheduler && this.maxEpoch == maxEpoch && this.tMax == tMax
      ensures this.lrEpochsText == lrEpochsText && this.lrEpochs == []
      ensures this.finetune == finetune && this.dataDir == dataDir && this.dataRoot == "" && this.annFile == ""
      ensures this.isDistributed == isDistributed && this.rank == 0 && this.groupSize == 1
      ensures this.isSaveOnMaster == isSaveOnMaster && this.rankSaveCkptFlag == 0
      ensures this.ckptPath == ckptPath && this.outputsDir == ""
      ensures this.resumeEpoch == resumeEpoch && this.remainEpochs == 0
      ensures this.trainingShape == trainingShape && this.multiScale == []
      ensures this.stepsPerEpoch == 0 && this.ckptInterval == ckptInterval
    {
      this.lrScheduler := lrScheduler;
      this.maxEpoch := maxEpoch;
      this.tMax := tMax;
      this.lrEpochsText := lrEpochsText;
      this.lrEpochs := [];
      this.finetune := finetune;
      this.dataDir := dataDir;
      this.dataRoot := "";
      this.annFile := "";
      this.isDistributed := isDistributed;
      this.rank := 0;
      this.groupSize := 1;
      this.isSaveOnMaster := isSaveOnMaster;
      this.rankSaveCkptFlag := 0;
      this.ckptPath := ckptPath;
      this.outputsDir := "";
      this.resumeEpoch := resumeEpoch;
      this.remainEpochs := 0;
      this.trainingShape := trainingShape;
      this.multiScale := [];
      this.stepsPerEpoch := 0;
      this.ckptInterval := ckptInterval;
    }

    /**
     * `set_default`. The rank and group size the collective layer reports
     * and the formatted start time are parameters. A malformed `lr_epochs`
     * raises ValueError after `t_max` has already been updated.
     */
    method SetDefault(collectiveRank: int, collectiveGroupSize: int, startTime: string) returns (r: Result<()>)
      modifies this
      ensures tMax == DefaultTMax(lrScheduler, maxEpoch, old(tMax))
      ensures r.Err? <==> ParseIntList(lrEpochsText).Err?
      ensures r.Err? ==> r.error == ValueError && lrEpochs == old(lrEpochs) && dataRoot == old(dataRoot) &&
                         annFile == old(annFile) && rank == old(rank) && groupSize == old(groupSize) &&
                         rankSaveCkptFlag == old(rankSaveCkptFlag) && outputsDir == old(outputsDir)
      ensures r.Ok? ==> lrEpochs == ParseIntList(lrEpochsText).value
      ensures r.Ok? ==> (dataRoot, annFile) == DataPaths(finetune, dataDir)
      ensures r.Ok? ==> rank == (if isDistributed then collectiveRank else old(rank))
      ensures r.Ok? ==> groupSize == (if isDistributed then collectiveGroupSize else old(groupSize))
      ensures r.Ok? ==> rankSaveCkptFlag == RankSaveCkptFlag(isSaveOnMaster, rank)
      ensures r.Ok? ==> outputsDir == PathJoin(ckptPath, startTime)
      ensures lrScheduler == old(lrScheduler) && maxEpoch == old(maxEpoch) && lrEpochsText == old(lrEpochsText)
      ensures finetune == old(finetune) && dataDir == old(dataDir) && isDistributed == old(isDistributed)
      ensures isSaveOnMaster == old(isSaveOnMaster) && ckptPath == old(ckptPath)
      ensures resumeEpoch == old(resumeEpoch) && remainEpochs == old(remainEpochs)
      ensures trainingShape == old(trainingShape) && multiScale == old(multiScale)
      ensures stepsPerEpoch == old(stepsPerEpoch) && ckptInterval == old(ckptInterval)
    {
      if lrScheduler == "cosine_annealing" && maxEpoch > tMax {
        tMax := maxEpoch;
      }
      var epochs := ParseIntList(lrEpochsText);
      if epochs.Err? {
        return Err(epochs.error);
      }
      lrEpochs := epochs.value;
      SetPathsAndRank(collectiveRank, collectiveGroupSize, startTime);
      return Ok(());
    }

    /** The rest of `set_default`, once `lr_epochs` has parsed. */
    method SetPathsAndRank(collectiveRank: int, collectiveGroupSize: int, startTime: string)
      modifies this
      ensures (dataRoot, annFile) == DataPaths(finetune, dataDir)
      ensures rank == (if isDistributed then collectiveRank else old(rank))
      ensures groupSize == (if isDistributed then collectiveGroupSize else old(groupSize))
      ensures rankSaveCkptFlag == RankSaveCkptFlag(isSaveOnMaster, rank)
      ensures outputsDir == PathJoin(ckptPath, startTime)
      ensures unchanged(`lrScheduler, `maxEpoch, `tMax, `lrEpochsText, `lrEpochs, `finetune, `dataDir, `isDistributed)
      ensures unchanged(`isSaveOnMaster, `ckptPath, `resumeEpoch, `remainEpochs, `trainingShape, `multiScale)
      ensures unchanged(`stepsPerEpoch, `ckptInterval)
    {
      var paths := DataPaths(finetune, dataDir);
      dataRoot, annFile := paths.0, paths.1;
      SetRank(collectiveRank, collectiveGroupSize);
      outputsDir := PathJoin(ckptPath, startTime);
    }

    /** The distributed rank, and which ranks save checkpoints. */
    method SetRank(collectiveRank: int, collectiveGroupSize: int)
      modifies this
      ensures rank == (if isDistributed then collectiveRank else old(rank))
      ensures groupSize == (if isDistributed then collectiveGroupSize else old(groupSize))
      ensures rankSaveCkptFlag == RankSaveCkptFlag(isSaveOnMaster, rank)
      ensures unchanged(`lrScheduler, `maxEpoch, `tMax, `lrEpochsText, `lrEpochs, `finetune, `dataDir, `isDistributed)
      ensures unchanged(`isSaveOnMaster, `ckptPath, `resumeEpoch, `remainEpochs, `trainingShape, `multiScale)
      ensures unchanged(`stepsPerEpoch, `ckptInterval, `dataRoot, `annFile, `outputsDir)
    {
      if isDistributed {
        rank := collectiveRank;
        groupSize := collectiveGroupSize;
      }
      rankSaveCkptFlag := 0;
      if isSaveOnMaster {
        if rank == 0 {
          rankSaveCkptFlag := 1;
        }
      } else {
        rankSaveCkptFlag := 1;
      }
    }

    /**
     * The configuration part of `setup_training`: the epoch plan and, for a
     * non-empty `training_shape`, a single square training scale.
     */
    method SetupTraining() returns (r: Result<()>)
      modifies this
      ensures (remainEpochs, resumeEpoch) == ResumePlan(maxEpoch, old(resumeEpoch))
      ensures r.Err? <==> trainingShape != "" && ConvertTrainingShape(trainingShape).Err?
      ensures r.Ok? && trainingShape != "" ==> multiScale == [ConvertTrainingShape(trainingShape).value]
      ensures r.Ok? && trainingShape == "" ==> multiScale == old(multiScale)
      ensures lrScheduler == old(lrScheduler) && maxEpoch == old(maxEpoch) && tMax == old(tMax)
      ensures lrEpochsText == old(lrEpochsText) && lrEpochs == old(lrEpochs)
      ensures finetune == old(finetune) && dataDir == old(dataDir) && dataRoot == old(dataRoot)
      ensures annFile == old(annFile) && isDistributed == old(isDistributed) && rank == old(rank)
      ensures groupSize == old(groupSize) && isSaveOnMaster == old(isSaveOnMaster)
      ensures rankSaveCkptFlag == old(rankSaveCkptFlag) && ckptPath == old(ckptPath) && outputsDir == old(outputsDir)
      ensures trainingShape == old(trainingShape)
      ensures stepsPerEpoch == old(stepsPerEpoch) && ckptInterval == old(ckptInterval)
    {
      if resumeEpoch != 0 {
        remainEpochs := maxEpoch - resumeEpoch;
      } else {
        remainEpochs := maxEpoch;
        resumeEpoch := 0;
      }
      if trainingShape != "" {
        var shape := ConvertTrainingShape(trainingShape);
        if shape.Err? {
          return Err(shape.error);
        }
        multiScale := [shape.value];
      }
      return Ok(());
    }

    /**
     * The counters `run_train` derives once the dataset size is known; a
     * zero `per_batch_size` raises before anything is set.
     */
    method SetSteps(dataSize: nat, perBatchSize: nat) returns (r: Result<()>)
      requires groupSize > 0
      modifies this
      ensures groupSize == old(groupSize)
      ensures r.Err? <==> perBatchSize == 0
      ensures r.Err? ==> r.error == ZeroDivisionError && stepsPerEpoch == old(stepsPerEpoch) && ckptInterval == old(ckptInterval)
      ensures r.Ok? ==> StepsPerEpoch(dataSize, perBatchSize, groupSize).Ok? &&
                        StepsPerEpoch(dataSize, perBatchSize, groupSize).value == stepsPerEpoch
      ensures r.Ok? ==> ckptInterval == CheckpointInterval(old(ckptInterval), stepsPerEpoch)
      ensures lrScheduler == old(lrScheduler) && maxEpoch == old(maxEpoch) && tMax == old(tMax)
      ensures lrEpochsText == old(lrEpochsText) && lrEpochs == old(lrEpochs)
      ensures finetune == old(finetune) && dataDir == old(dataDir) && dataRoot == old(dataRoot)
      ensures annFile == old(annFile) && isDistributed == old(isDistributed) && rank == old(rank)
      ensures groupSize == old(groupSize) && isSaveOnMaster == old(isSaveOnMaster)
      ensures rankSaveCkptFlag == old(rankSaveCkptFlag) && ckptPath == old(ckptPath) && outputsDir == old(outputsDir)
      ensures resumeEpoch == old(resumeEpoch) && remainEpochs == old(remainEpochs)
      ensures trainingShape == old(trainingShape) && multiScale == old(multiScale)
    {
      var steps := StepsPerEpoch(dataSize, perBatchSize, groupSize);
      if steps.Err? {
        return Err(steps.error);
      }
      stepsPerEpoch := steps.value;
      if ckptInterval <= 0 {
        ckptInterval := stepsPerEpoch;
      }
      return Ok(());
    }
  }

  // ---------------------------------------------------------------------
  // Fine-tuning checkpoint remap

  /** The detection heads, whose shapes depend on the class count, are not transferred. */
  predicate IsHeadKey(key: string)
  {
    Contains(key, "feature_map.head1.weight") || Contains(key, "feature_map.head1.bias") ||
    Contains(key, "feature_map.head2.weight") || Contains(key, "feature_map.head2.bias")
  }

  /** The second loop of `prepare_network`: every head key is deleted, every other entry stays. */
  method DeleteHeadKeys<V>(m: map<string, V>) returns (r: map<string, V>)
    ensures forall k :: k in r <==> k in m && !IsHeadKey(k)
    ensures forall k | k in r :: r[k] == m[k]
  {
    r := m;
    var keys := m.Keys;
    while keys != {}
      invariant keys <= m.Keys
      invariant forall k :: k in r <==> k in m && (k in keys || !IsHeadKey(k))
      invariant forall k | k in r :: r[k] == m[k]
      decreases keys
    {
      var key :| key in keys;
      if IsHeadKey(key) {
        r := r - {key};
      }
      keys := keys - {key};
    }
  }

  /**
   * `prepare_network` with `finetune`: optimizer state dropped,
   * `yolo_network.` stripped, then the head parameters removed. What is
   * loaded has no head key, and each name traces back to a checkpoint entry.
   */
  method PrepareFinetune<V>(entries: seq<(string, V)>) returns (r: map<string, V>)
    ensures forall k :: k in r <==>
      k in Remapped(entries, key => StripPrefixRename("yolo_network.", key)) && !IsHeadKey(k)
    ensures forall k | k in r :: r[k] == Remapped(entries, key => StripPrefixRename("yolo_network.", key))[k]
    ensures forall k | k in r :: !IsHeadKey(k) && StrippedFrom("yolo_network.", entries, k)
  {
    var remapped := RemapStripping("yolo_network.", entries);
    r := DeleteHeadKeys(remapped);
  }

  // ---------------------------------------------------------------------
  // Training loop counters

  /** `i % log_interval == 0`: iteration `i` writes a log line. */
  predicate IsLogStep(i: int, logInterval: nat)
  {
    logInterval > 0 && i % logInterval == 0
  }

  /**
   * The (iteration, learning rate) pairs the loop logs over its first `n`
   * iterations, numbered from `iStart`. Only rank 0 writes the log line, so
   * only rank 0 reads `lr[i - i_start]`, which raises IndexError past the
   * schedule.
   */
  function Logged(iStart: int, n: nat, logInterval: nat, lr: seq<real>, rank: int): (r: Result<seq<(int, real)>>)
    requires logInterval > 0
    ensures r.Ok? ==> |r.value| <= n
    ensures rank != 0 ==> r == Ok([])
  {
    if n == 0 then Ok([])
    else
      var i := iStart + n - 1;
      var prev :- Logged(iStart, n - 1, logInterval, lr, rank);
      if !IsLogStep(i, logInterval) || rank != 0 then Ok(prev)
      else if i - iStart >= |lr| then Err(IndexError)
      else Ok(prev + [(i, lr[i - iStart])])
  }

  /** An entry of the log: a logging iteration of the run, with the rate it read. */
  predicate LogEntry(e: (int, real), iStart: int, n: nat, logInterval: nat, lr: seq<real>)
  {
    iStart <= e.0 < iStart + n && IsLogStep(e.0, logInterval) &&
    e.0 - iStart < |lr| && e.1 == lr[e.0 - iStart]
  }

  /** Every logged pair is a logging iteration with `lr[i - i_start]`, in increasing order. */
  lemma {:induction false} LoggedSound(iStart: int, n: nat, logInterval: nat, lr: seq<real>, rank: int)
    requires logInterval > 0
    ensures var r := Logged(iStart, n, logInterval, lr, rank);
      r.Ok? ==> (forall j | 0 <= j < |r.value| :: LogEntry(r.value[j], iStart, n, logInterval, lr)) &&
                (forall j, k | 0 <= j < k < |r.value| :: r.value[j].0 < r.value[k].0)
  {
    if n > 0 {
      LoggedSound(iStart, n - 1, logInterval, lr, rank);
      var prev := Logged(iStart, n - 1, logInterval, lr, rank);
      if prev.Ok? {
        forall j | 0 <= j < |prev.value| ensures LogEntry(prev.value[j], iStart, n, logInterval, lr) {
          assert LogEntry(prev.value[j], iStart, n - 1, logInterval, lr);
        }
      }
    }
  }

  /** On rank 0 every logging iteration of the run appears in the log. */
  lemma {:induction false} LoggedComplete(iStart: int, n: nat, logInterval: nat, lr: seq<real>, i: int)
    requires logInterval > 0
    requires Logged(iStart, n, logInterval, lr, 0).Ok?
    requires iStart <= i < iStart + n && IsLogStep(i, logInterval)
    ensures exists j | 0 <= j < |Logged(iStart, n, logInterval, lr, 0).value| ::
      Logged(iStart, n, logInterval, lr, 0).value[j].0 == i
  {
    var r := Logged(iStart, n, logInterval, lr, 0).value;
    if i == iStart + n - 1 {
      assert r[|r| - 1].0 == i;
    } else {
      LoggedComplete(iStart, n - 1, logInterval, lr, i);
      var prev := Logged(iStart, n - 1, logInterval, lr, 0).value;
      var j :| 0 <= j < |prev| && prev[j].0 == i;
      assert r[j] == prev[j];
    }
  }

  /**
   * The loop fails exactly on rank 0 when some logging iteration lies
   * beyond the schedule; every other rank never reads `lr` and never fails.
   */
  lemma {:induction false} LoggedFails(iStart: int, n: nat, logInterval: nat, lr: seq<real>, rank: int)
    requires logInterval > 0
    ensures Logged(iStart, n, logInterval, lr, rank).Err? <==>
      rank == 0 && exists i | iStart <= i < iStart + n :: IsLogStep(i, logInterval) && i - iStart >= |lr|
  {
    if n > 0 {
      LoggedFails(iStart, n - 1, logInterval, lr, rank);
    }
  }

  /** Once the loop has failed, later iterations do not run. */
  lemma {:induction false} LoggedStaysFailed(iStart: int, n: nat, m: nat, logInterval: nat, lr: seq<real>, rank: int)
    requires logInterval > 0 && n <= m
    requires Logged(iStart, n, logInterval, lr, rank).Err?
    ensures Logged(iStart, m, logInterval, lr, rank) == Logged(iStart, n, logInterval, lr, rank)
    decreases m
  {
    if m > n {
      LoggedStaysFailed(iStart, n, m - 1, logInterval, lr, rank);
    }
  }

  /** How many of the iterations `iStart .. iStart + n - 1` end an epoch. */
  function EpochEnds(iStart: int, n: nat, stepsPerEpoch: nat): (c: nat)
    requires stepsPerEpoch > 0
    ensures c <= n
  {
    if n == 0 then 0
    else EpochEnds(iStart, n - 1, stepsPerEpoch) + (if (iStart + n) % stepsPerEpoch == 0 then 1 else 0)
  }

  datatype LoopTrace = LoopTrace(logged: seq<(int, real)>, curEpochNum: Option<int>)

  /**
   * The counters of `run_train`'s loop over `batches` batches: iterations
   * are numbered from `resume_epoch * steps_per_epoch`, rank 0 logs every
   * `log_interval`-th iteration with `lr[i - i_start]`, and when this rank saves checkpoints the
   * callback's epoch number starts at `resume_epoch + 1` and advances after
   * every iteration that completes an epoch. Both moduli raise
   * ZeroDivisionError on the first iteration when their divisor is 0.
   */
  method TrainLoop(resumeEpoch: nat, stepsPerEpoch: nat, batches: nat, logInterval: nat,
                   lr: seq<real>, rank: int, saveCkpt: bool) returns (r: Result<LoopTrace>)
    ensures batches > 0 && (logInterval == 0 || stepsPerEpoch == 0) ==> r == Err(ZeroDivisionError)
    ensures batches == 0 ==> r == Ok(LoopTrace([], if saveCkpt then Some(resumeEpoch + 1) else None))
    ensures batches > 0 && logInterval > 0 && stepsPerEpoch > 0 ==>
      (r.Err? <==> Logged(resumeEpoch * stepsPerEpoch, batches, logInterval, lr, rank).Err?) &&
      (r.Ok? ==> r.value.logged == Logged(resumeEpoch * stepsPerEpoch, batches, logInterval, lr, rank).value) &&
      (r.Ok? && saveCkpt ==>
         r.value.curEpochNum == Some(resumeEpoch + 1 + EpochEnds(resumeEpoch * stepsPerEpoch, batches, stepsPerEpoch))) &&
      (r.Ok? && !saveCkpt ==> r.value.curEpochNum == None)
  {
    if batches == 0 {
      return Ok(LoopTrace([], if saveCkpt then Some(resumeEpoch + 1) else None));
    }
    if logInterval == 0 || stepsPerEpoch == 0 {
      return Err(ZeroDivisionError);
    }
    var iStart := resumeEpoch * stepsPerEpoch;
    var logged, ends := CountSteps(iStart, batches, logInterval, stepsPerEpoch, lr, rank);
    if logged.Err? {
      return Err(logged.error);
    }
    return Ok(LoopTrace(logged.value, if saveCkpt then Some(resumeEpoch + 1 + ends) else None));
  }

  /** The loop body proper, once both divisors are known to be positive. */
  method CountSteps(iStart: int, batches: nat, logInterval: nat, stepsPerEpoch: nat, lr: seq<real>, rank: int)
    returns (r: Result<seq<(int, real)>>, ends: nat)
    requires logInterval > 0 && stepsPerEpoch > 0
    ensures r == Logged(iStart, batches, logInterval, lr, rank)
    ensures r.Ok? ==> ends == EpochEnds(iStart, batches, stepsPerEpoch)
  {
    var logged: seq<(int, real)> := [];
    ends := 0;
    for k := 0 to batches
      invariant Logged(iStart, k, logInterval, lr, rank) == Ok(logged)
      invariant ends == EpochEnds(iStart, k, stepsPerEpoch)
    {
      var i := iStart + k;
      assert iStart + (k + 1) - 1 == i;
      if IsLogStep(i, logInterval) && rank == 0 {
        if i - iStart >= |lr| {
          LoggedStaysFailed(iStart, k + 1, batches, logInterval, lr, rank);
          return Err(IndexError), ends;
        }
        logged := logged + [(i, lr[i - iStart])];
      }
      if (i + 1) % stepsPerEpoch == 0 {
        ends := ends + 1;
      }
    }
    return Ok(logged), ends;
  }
}
