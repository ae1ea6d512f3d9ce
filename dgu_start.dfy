/**
 * The argument handling of the DGU ModelArts start script
 * (research/nlp/dgu/modelart/start.py): `set_default_args`, the checks
 * `do_train` and `do_eval` make before loading anything, the metric name
 * they print and the names under which evaluated checkpoints are uploaded.
 * A falsy argument (None, 0, 0.0 or "") is written 0, 0.0 or "" here.
 * Training, evaluation and the copy itself are left out.
 */
module DguStart {
  import opened Wrappers
  import opened PyNumbers
  import opened Strings

  /** The argument values `set_default_args` reads and writes. */
  datatype ArgValues = ArgValues(taskName: string, saveSteps: int, epochs: int, maxSeqLen: int,
                                 evalMaxSeqLen: int, evalBatchSize: int, trainBatchSize: int,
                                 checkpointsPath: string, learningRate: real)

  predicate SupportedTask(task: string)
  {
    task == "udc" || task == "atis_intent" || task == "mrda" || task == "swda"
  }

  /** The checkpoint interval each task forces. */
  function SaveSteps(task: string): (n: int)
    requires SupportedTask(task)
    ensures n > 0
  {
    if task == "udc" then 1000 else if task == "atis_intent" then 100 else 500
  }

  /** The epoch count each task uses when none is given. */
  function DefaultEpochs(task: string): (n: int)
    requires SupportedTask(task)
    ensures n > 0
  {
    if task == "udc" then 2 else if task == "atis_intent" then 20 else if task == "mrda" then 7 else 3
  }

  /** `x if x else d`. */
  function OrInt(x: int, d: int): int { if x != 0 then x else d }

  /**
   * The values after `set_default_args`: the `task_name` lower-cased; an
   * unknown task raises ValueError; otherwise that task's save steps are
   * forced and each unset value takes its default (udc's own sequence
   * length and evaluation batch first, then the shared ones).
   */
  function Defaulted(a: ArgValues): (r: Result<ArgValues>)
    ensures r.Err? <==> !SupportedTask(Lower(a.taskName))
    ensures r.Err? ==> r.error == ValueError
    ensures r.Ok? ==> r.value.taskName == Lower(a.taskName) && r.value.saveSteps == SaveSteps(r.value.taskName)
    ensures r.Ok? ==> r.value.epochs == OrInt(a.epochs, DefaultEpochs(r.value.taskName))
    ensures r.Ok? ==> r.value.maxSeqLen == OrInt(a.maxSeqLen, if r.value.taskName == "udc" then 224 else 128)
    ensures r.Ok? ==> r.value.evalMaxSeqLen == OrInt(a.evalMaxSeqLen, r.value.maxSeqLen)
    ensures r.Ok? ==> r.value.evalBatchSize == OrInt(a.evalBatchSize, if r.value.taskName == "udc" then 100 else a.trainBatchSize)
    ensures r.Ok? ==> r.value.checkpointsPath == (if a.checkpointsPath != "" then a.checkpointsPath else "./checkpoints/" + r.value.taskName)
    ensures r.Ok? ==> r.value.learningRate == (if a.learningRate != 0.0 then a.learningRate else 0.00002)
    ensures r.Ok? ==> r.value.trainBatchSize == a.trainBatchSize
  {
    var task := Lower(a.taskName);
    if !SupportedTask(task) then Err(ValueError)
    else
      var udc := task == "udc";
      var maxSeqLen := OrInt(a.maxSeqLen, if udc then 224 else 128);
      Ok(ArgValues(task, SaveSteps(task), OrInt(a.epochs, DefaultEpochs(task)), maxSeqLen,
                   OrInt(a.evalMaxSeqLen, maxSeqLen),
                   OrInt(a.evalBatchSize, if udc then 100 else a.trainBatchSize), a.trainBatchSize,
                   if a.checkpointsPath != "" then a.checkpointsPath else "./checkpoints/" + task,
                   if a.learningRate != 0.0 then a.learningRate else 0.00002))
  }

  /** Lower-casing twice is lower-casing once. */
  lemma LowerIdempotent(s: string)
    ensures Lower(Lower(s)) == Lower(s)
  {
    forall i | 0 <= i < |s| ensures LowerChar(LowerChar(s[i])) == LowerChar(s[i]) {
    }
  }

  /** Defaulting twice changes nothing more: every default, once set, is kept. */
  lemma DefaultedIdempotent(a: ArgValues)
    requires Defaulted(a).Ok?
    ensures Defaulted(Defaulted(a).value) == Defaulted(a)
  {
    var b := Defaulted(a).value;
    LowerIdempotent(a.taskName);
    assert Lower(b.taskName) == b.taskName;
  }

  /** After defaulting, the epoch count, both sequence lengths and the checkpoint path are set. */
  lemma DefaultedSetsAll(a: ArgValues)
    requires Defaulted(a).Ok?
    ensures var b := Defaulted(a).value;
      b.epochs != 0 && b.maxSeqLen != 0 && b.evalMaxSeqLen != 0 && b.checkpointsPath != ""
  {
  }

  class Args {
    var taskName: string
    var saveSteps: int
    var epochs: int
    var maxSeqLen: int
    var evalMaxSeqLen: int
    var evalBatchSize: int
    var trainBatchSize: int
    var checkpointsPath: string
    var learningRate: real

    constructor (a: ArgValues)
      ensures Values() == a
    {
      taskName, saveSteps, epochs, maxSeqLen := a.taskName, a.saveSteps, a.epochs, a.maxSeqLen;
      evalMaxSeqLen, evalBatchSize, trainBatchSize := a.evalMaxSeqLen, a.evalBatchSize, a.trainBatchSize;
      checkpointsPath, learningRate := a.checkpointsPath, a.learningRate;
    }

    function Values(): ArgValues
      reads this
    {
      ArgValues(taskName, saveSteps, epochs, maxSeqLen, evalMaxSeqLen, evalBatchSize, trainBatchSize,
                checkpointsPath, learningRate)
    }

    /**
     * `set_default_args`, in place: the values become `Defaulted` of the
     * old ones; an unknown task raises after only the name was lower-cased.
     */
    method SetDefaultArgs() returns (r: Result<()>)
      modifies this
      ensures r.Err? <==> Defaulted(old(Values())).Err?
      ensures r.Err? ==> r.error == ValueError && Values() == old(Values()).(taskName := Lower(old(taskName)))
      ensures r.Ok? ==> Values() == Defaulted(old(Values())).value
    {
      var supported := SetTaskDefaults();
      if !supported {
        return Err(ValueError);
      }
      SetSharedDefaults();
      r := Ok(());
    }

    /** The per-task branch: the name lower-cased, then its save steps and its own defaults. */
    method SetTaskDefaults() returns (supported: bool)
      modifies this
      ensures taskName == Lower(old(taskName)) && (supported <==> SupportedTask(taskName))
      ensures !supported ==> Values() == old(Values()).(taskName := taskName)
      ensures supported ==> Values() == old(Values()).(taskName := taskName, saveSteps := SaveSteps(taskName),
        epochs := OrInt(old(epochs), DefaultEpochs(taskName)),
        maxSeqLen := if taskName == "udc" then OrInt(old(maxSeqLen), 224) else old(maxSeqLen),
        evalBatchSize := if taskName == "udc" then OrInt(old(evalBatchSize), 100) else old(evalBatchSize))
    {
      taskName := Lower(taskName);
      supported := true;
      if taskName == "udc" {
        saveSteps := 1000;
        if epochs == 0 {
          epochs := 2;
        }
        if maxSeqLen == 0 {
          maxSeqLen := 224;
        }
        if evalBatchSize == 0 {
          evalBatchSize := 100;
        }
      } else if taskName == "atis_intent" {
        saveSteps := 100;
        if epochs == 0 {
          epochs := 20;
        }
      } else if taskName == "mrda" {
        saveSteps := 500;
        if epochs == 0 {
          epochs := 7;
        }
      } else if taskName == "swda" {
        saveSteps := 500;
        if epochs == 0 {
          epochs := 3;
        }
      } else {
        supported := false;
      }
    }

    /** The shared defaults, each applied only when the value is unset. */
    method SetSharedDefaults()
      modifies this
      ensures Values() == old(Values()).(
        checkpointsPath := if old(checkpointsPath) != "" then old(checkpointsPath) else "./checkpoints/" + taskName,
        learningRate := if old(learningRate) != 0.0 then old(learningRate) else 0.00002,
        maxSeqLen := OrInt(old(maxSeqLen), 128),
        evalMaxSeqLen := OrInt(old(evalMaxSeqLen), OrInt(old(maxSeqLen), 128)),
        evalBatchSize := OrInt(old(evalBatchSize), trainBatchSize))
    {
      if checkpointsPath == "" {
        checkpointsPath := "./checkpoints/" + taskName;
      }
      if learningRate == 0.0 {
        learningRate := 0.00002;
      }
      if maxSeqLen == 0 {
        maxSeqLen := 128;
      }
      if evalMaxSeqLen == 0 {
        evalMaxSeqLen := maxSeqLen;
      }
      if evalBatchSize == 0 {
        evalBatchSize := trainBatchSize;
      }
    }
  }

  // ---------------------------------------------------------------------
  // do_train / do_eval

  /** What `do_train` prepares before training. */
  datatype TrainSetup = TrainSetup(maxTrainSteps: int, warmupSteps: int, numExamples: int,
                                   checkpointDirectory: Option<string>, prefix: string, checkpointSteps: int)

  /**
   * `do_train`: a missing pretrained checkpoint raises ValueError;
   * otherwise the step counts, and the checkpoint directory (None when no
   * save path was given) with `task_name` as prefix.
   */
  function DoTrainSetup(loadCheckpointPath: string, saveCheckpointPath: string, epochNum: int, datasetSize: int,
                        trainBatchSize: int, warmupProportion: real, args: ArgValues): (r: Result<TrainSetup>)
    ensures r.Err? <==> loadCheckpointPath == ""
    ensures r.Err? ==> r.error == ValueError
    ensures r.Ok? ==> r.value.maxTrainSteps == epochNum * datasetSize && r.value.numExamples == datasetSize * trainBatchSize
    ensures r.Ok? && epochNum * datasetSize >= 0 && 0.0 <= warmupProportion <= 1.0 ==>
      0 <= r.value.warmupSteps <= r.value.maxTrainSteps
    ensures r.Ok? ==> (r.value.checkpointDirectory.None? <==> saveCheckpointPath == "")
    ensures r.Ok? && saveCheckpointPath != "" ==> r.value.checkpointDirectory == Some(saveCheckpointPath)
    ensures r.Ok? ==> r.value.prefix == args.taskName && r.value.checkpointSteps == args.saveSteps
  {
    if loadCheckpointPath == "" then Err(ValueError)
    else
      var maxTrainSteps := epochNum * datasetSize;
      var warmupSteps := Trunc(maxTrainSteps as real * warmupProportion);
      assert 0.0 <= warmupProportion <= 1.0 && maxTrainSteps >= 0 ==> 0 <= warmupSteps <= maxTrainSteps by {
        if 0.0 <= warmupProportion <= 1.0 && maxTrainSteps >= 0 {
          WarmupWithin(maxTrainSteps, warmupProportion);
        }
      }
      Ok(TrainSetup(maxTrainSteps, warmupSteps, datasetSize * trainBatchSize,
                    if saveCheckpointPath == "" then None else Some(saveCheckpointPath),
                    args.taskName, args.saveSteps))
  }

  /** A proportion of a step count, truncated, is between none and all of the steps. */
  lemma WarmupWithin(steps: nat, proportion: real)
    requires 0.0 <= proportion <= 1.0
    ensures 0 <= Trunc(steps as real * proportion) <= steps
  {
    var y := steps as real * proportion;
    var rest := steps as real * (1.0 - proportion);
    assert 0.0 <= rest && 0.0 <= y;
    assert y + rest == steps as real;
    var n := Trunc(y);
    assert n as real <= y < n as real + 1.0;
  }

  /** `do_eval`: a missing fine-tuned checkpoint raises ValueError before anything is loaded. */
  function DoEvalCheck(loadCheckpointPath: string): (r: Result<string>)
    ensures r.Err? <==> loadCheckpointPath == ""
    ensures r.Err? ==> r.error == ValueError
    ensures r.Ok? ==> r.value == loadCheckpointPath
  {
    if loadCheckpointPath == "" then Err(ValueError) else Ok(loadCheckpointPath)
  }

  /** `eval_result_print`: the classification tasks report "Accuracy", the others the metric's own name. */
  function MetricName(taskName: string, evalMetricName: string): (name: string)
    ensures var t := Lower(taskName);
      (t == "atis_intent" || t == "mrda" || t == "swda") ==> name == "Accuracy"
    ensures var t := Lower(taskName);
      !(t == "atis_intent" || t == "mrda" || t == "swda") ==> name == evalMetricName
  {
    var t := Lower(taskName);
    if t == "atis_intent" || t == "mrda" || t == "swda" then "Accuracy" else evalMetricName
  }

  // ---------------------------------------------------------------------
  // Upload names

  /**
   * The result text in an upload name: `str(result)` without `[` and `]`,
   * and its first two `", "` turned into `_`.
   */
  function ResultTag(evalResult: string): (tag: string)
    ensures '[' !in tag && ']' !in tag
  {
    var bare := RemoveChar(RemoveChar(evalResult, '['), ']');
    RemoveCharKeepsAbsent(RemoveChar(evalResult, '['), ']', '[');
    ReplaceFirstKeepsAbsent(bare, ", ", "_", 2, '[');
    ReplaceFirstKeepsAbsent(bare, ", ", "_", 2, ']');
    ReplaceFirst(bare, ", ", "_", 2)
  }

  /** Removing one character keeps another absent. */
  lemma {:induction false} RemoveCharKeepsAbsent(s: string, d: char, c: char)
    requires c !in s
    ensures c !in RemoveChar(s, d)
  {
    if |s| > 0 {
      RemoveCharKeepsAbsent(s[1..], d, c);
    }
  }

  /** A character absent from the text and from the replacement stays absent. */
  lemma {:induction false} ReplaceFirstKeepsAbsent(s: string, pat: string, rep: string, count: nat, c: char)
    requires |pat| > 0 && c !in s && c !in rep
    ensures c !in ReplaceFirst(s, pat, rep, count)
    decreases |s|
  {
    if count > 0 && |s| > 0 {
      if StartsWith(s, pat) {
        ReplaceFirstKeepsAbsent(s[|pat|..], pat, rep, count - 1, c);
      } else {
        ReplaceFirstKeepsAbsent(s[1..], pat, rep, count, c);
      }
    }
  }

  /** `train_url + ckpt_result + "_" + filename.split('/')[-1]`. */
  function UploadName(trainUrl: string, evalResult: string, filename: string): string
  {
    trainUrl + ResultTag(evalResult) + "_" + LastPart(filename, '/')
  }

  /**
   * An upload name reads, in order: the train URL, the bracket-free result
   * tag, `_`, and the checkpoint's file name.
   */
  lemma UploadNameParts(trainUrl: string, evalResult: string, filename: string)
    ensures var name := UploadName(trainUrl, evalResult, filename);
      var tag := ResultTag(evalResult);
      |name| == |trainUrl| + |tag| + 1 + |LastPart(filename, '/')| &&
      name[..|trainUrl|] == trainUrl && name[|trainUrl|..|trainUrl| + |tag|] == tag &&
      name[|trainUrl| + |tag|] == '_' && name[|trainUrl| + |tag| + 1..] == LastPart(filename, '/') &&
      '[' !in tag && ']' !in tag
  {
    JoinedParts(trainUrl, ResultTag(evalResult), LastPart(filename, '/'));
  }

  /** `a + t + "_" + tail` holds its three parts at their offsets. */
  lemma JoinedParts(a: string, t: string, tail: string)
    ensures var n := a + t + "_" + tail;
      |n| == |a| + |t| + 1 + |tail| &&
      n[..|a|] == a && n[|a|..|a| + |t|] == t && n[|a| + |t|] == '_' && n[|a| + |t| + 1..] == tail
  {
    var n := a + t + "_" + tail;
    assert n[..|a|] == a;
    assert n[|a|..|a| + |t|] == t;
    assert n[|a| + |t| + 1..] == tail;
  }

  /** Four values lose their brackets and only their first two separators. */
  lemma UploadTagExample()
    ensures ResultTag("[1, 2, 3, 4]") == "1_2_3, 4"
  {
    BracketsRemovedExample();
    SeparatorsReplacedExample();
  }

  lemma BracketsRemovedExample()
    ensures RemoveChar(RemoveChar("[1, 2, 3, 4]", '['), ']') == "1, 2, 3, 4"
  {
    var body := "1, 2, 3, 4";
    assert "[1, 2, 3, 4]" == "[" + body + "]";
    BracketsRemoved(body);
  }

  /** A bracket-free text inside one pair of brackets loses just those brackets. */
  lemma BracketsRemoved(body: string)
    requires '[' !in body && ']' !in body
    ensures RemoveChar(RemoveChar("[" + body + "]", '['), ']') == body
  {
    var s := body + "]";
    assert "[" + body + "]" == "[" + s;
    RemoveCharAppend("[", s, '[');
    assert RemoveChar("[", '[') == "";
    RemoveCharAppend(body, "]", ']');
    assert RemoveChar("]", ']') == "";
  }

  lemma SeparatorsReplacedExample()
    ensures ReplaceFirst("1, 2, 3, 4", ", ", "_", 2) == "1_2_3, 4"
  {
    var pat := ", ";
    assert ReplaceFirst("3, 4", pat, "_", 0) == "3, 4";
    assert StartsWith(", 3, 4", pat);
    assert ReplaceFirst(", 3, 4", pat, "_", 1) == "_3, 4";
    assert "2, 3, 4"[..2][0] != pat[0];
    assert ReplaceFirst("2, 3, 4", pat, "_", 1) == "2_3, 4";
    assert StartsWith(", 2, 3, 4", pat);
    assert ReplaceFirst(", 2, 3, 4", pat, "_", 2) == "_2_3, 4";
    assert "1, 2, 3, 4"[..2][0] != pat[0];
  }

  /** The copies for the first entries of `eval_file_dict`, in order. */
  function Uploads(trainUrl: string, evalFileDict: seq<(string, string)>): (copies: seq<(string, string)>)
    ensures |copies| == |evalFileDict|
  {
    if |evalFileDict| == 0 then []
    else
      var last := evalFileDict[|evalFileDict| - 1];
      Uploads(trainUrl, evalFileDict[..|evalFileDict| - 1]) + [(last.0, UploadName(trainUrl, last.1, last.0))]
  }

  /** Each checkpoint is copied to its own upload name, at its own position. */
  lemma {:induction false} UploadsAt(trainUrl: string, evalFileDict: seq<(string, string)>, i: nat)
    requires i < |evalFileDict|
    ensures Uploads(trainUrl, evalFileDict)[i] == (evalFileDict[i].0, UploadName(trainUrl, evalFileDict[i].1, evalFileDict[i].0))
  {
    if i < |evalFileDict| - 1 {
      UploadsAt(trainUrl, evalFileDict[..|evalFileDict| - 1], i);
    }
  }

  lemma UploadsExtend(trainUrl: string, evalFileDict: seq<(string, string)>, i: nat)
    requires i < |evalFileDict|
    ensures Uploads(trainUrl, evalFileDict[..i + 1]) ==
      Uploads(trainUrl, evalFileDict[..i]) + [(evalFileDict[i].0, UploadName(trainUrl, evalFileDict[i].1, evalFileDict[i].0))]
  {
    assert evalFileDict[..i + 1][..i] == evalFileDict[..i];
  }

  /** The upload loop: one copy per evaluated checkpoint, in the dictionary's order. */
  method UploadAll(trainUrl: string, evalFileDict: seq<(string, string)>) returns (copies: seq<(string, string)>)
    ensures copies == Uploads(trainUrl, evalFileDict)
  {
    copies := [];
    for i := 0 to |evalFileDict|
      invariant copies == Uploads(trainUrl, evalFileDict[..i])
    {
      UploadsExtend(trainUrl, evalFileDict, i);
      var filename := evalFileDict[i].0;
      var saveFileName := UploadName(trainUrl, evalFileDict[i].1, filename);
      copies := copies + [(filename, saveFileName)];
    }
    assert evalFileDict[..|evalFileDict|] == evalFileDict;
  }
}
