/**
 * The training helpers of MobileNetV2 (official/cv/MobileNet/mobilenetv2/src/models.py):
 * the weight-decay parameter groups, the `Monitor` callback's best accuracy
 * and step bookkeeping, the freezing of a loaded backbone, the head's
 * activation choice and the label-smoothing values. Timing, logging and the
 * network layers are left out.
 */
module Mobilenetv2Models {
  import opened Wrappers
  import opened Strings
  import opened ParamGroups

  // ---------------------------------------------------------------------
  // Parameter groups

  /** `beta`, `gamma` and `bias` parameters are not decayed. */
  predicate NoDecay(name: string)
  {
    Contains(name, "beta") || Contains(name, "gamma") || Contains(name, "bias")
  }

  predicate Decayed(p: Parameter)
  {
    !NoDecay(p.name)
  }

  /** The three entries `build_params_groups` returns. */
  datatype GroupParams = GroupParams(decayed: seq<Parameter>, weightDecay: real,
                                     noDecayed: seq<Parameter>, orderParams: seq<Parameter>)

  function TrainableParams(params: seq<Parameter>): seq<Parameter>
  {
    Filter(params, (p: Parameter) => p.requiresGrad)
  }

  /**
   * `build_params_groups`: the trainable parameters split by name, only
   * the first group carrying the weight decay, and the full trainable list
   * as the order.
   */
  method BuildParamsGroups(params: seq<Parameter>, weightDecay: real) returns (g: GroupParams)
    ensures g.orderParams == TrainableParams(params)
    ensures g.decayed == Filter(TrainableParams(params), Decayed)
    ensures g.noDecayed == FilterNot(TrainableParams(params), Decayed)
    ensures g.weightDecay == weightDecay
    ensures multiset(g.decayed) + multiset(g.noDecayed) == multiset(g.orderParams)
    ensures forall p | p in g.noDecayed :: NoDecay(p.name)
    ensures forall p | p in g.decayed :: !NoDecay(p.name)
  {
    var trainable := TrainableParams(params);
    var decayed, noDecayed := Partition(trainable, Decayed);
    FilterPartition(trainable, Decayed);
    g := GroupParams(decayed, weightDecay, noDecayed, trainable);
  }

  /** Every trainable parameter whose name mentions a normalisation or bias term skips decay. */
  lemma NoDecayComplete(params: seq<Parameter>, p: Parameter)
    requires p in params && p.requiresGrad && NoDecay(p.name)
    ensures p in FilterNot(TrainableParams(params), Decayed)
  {
    FilterKeeps(params, (q: Parameter) => q.requiresGrad, p);
    FilterNotKeeps(TrainableParams(params), Decayed, p);
  }

  // ---------------------------------------------------------------------
  // Loading a backbone

  class Network {
    var params: seq<Parameter>

    constructor (params: seq<Parameter>)
      ensures this.params == params
    {
      this.params := params;
    }

    function Trainable(): seq<Parameter>
      reads this
    {
      TrainableParams(params)
    }

    /**
     * `load_ckpt` after the weights are loaded: with `trainable` false,
     * every parameter stops receiving gradients; names and order are kept.
     */
    method LoadCkpt(trainable: bool)
      modifies this
      ensures |params| == |old(params)|
      ensures forall i | 0 <= i < |params| :: params[i].name == old(params)[i].name
      ensures trainable ==> params == old(params)
      ensures !trainable ==> forall i | 0 <= i < |params| :: !params[i].requiresGrad
    {
      if !trainable {
        for i := 0 to |params|
          invariant |params| == |old(params)|
          invariant forall j | 0 <= j < |params| :: params[j].name == old(params)[j].name
          invariant forall j | 0 <= j < i :: !params[j].requiresGrad
        {
          params := params[i := params[i].(requiresGrad := false)];
        }
      }
    }
  }

  /** A frozen network has no trainable parameter left. */
  lemma {:induction false} FrozenHasNoTrainable(params: seq<Parameter>)
    requires forall i | 0 <= i < |params| :: !params[i].requiresGrad
    ensures TrainableParams(params) == []
  {
    if |params| > 0 {
      FrozenHasNoTrainable(params[..|params| - 1]);
    }
  }

  // ---------------------------------------------------------------------
  // Head and loss settings

  /** `define_net`: the head has no activation while training, the configured one otherwise. */
  function HeadActivation(cfgActivation: string, isTraining: bool): (a: string)
    ensures isTraining ==> a == "None"
    ensures !isTraining ==> a == cfgActivation
  {
    if !isTraining then cfgActivation else "None"
  }

  /**
   * `CrossEntropyWithLabelSmooth.__init__`: the one-hot on value and the
   * off value spread over the other classes; a single class divides by zero.
   */
  function SmoothValues(smoothFactor: real, numClasses: int): (r: Result<(real, real)>)
    ensures r.Err? <==> numClasses == 1
    ensures r.Err? ==> r.error == ZeroDivisionError
    ensures r.Ok? ==> r.value.0 == 1.0 - smoothFactor
    ensures r.Ok? ==> r.value.1 * (numClasses - 1) as real == smoothFactor
  {
    if numClasses - 1 == 0 then Err(ZeroDivisionError)
    else Ok((1.0 - smoothFactor, 1.0 * smoothFactor / (numClasses - 1) as real))
  }

  /** A smoothed one-hot row still sums to one. */
  lemma SmoothedRowSum(smoothFactor: real, numClasses: int)
    requires numClasses > 1
    ensures SmoothValues(smoothFactor, numClasses).Ok?
    ensures var v := SmoothValues(smoothFactor, numClasses).value;
      v.0 + v.1 * (numClasses - 1) as real == 1.0
  {
  }

  // ---------------------------------------------------------------------
  // Monitor

  /** What `step_end` reports: the step within the epoch and its learning rate. */
  datatype StepReport = StepReport(stepInEpoch: nat, lr: real)

  class Monitor {
    const lrInit: seq<real>
    var bestAcc: real
    var losses: seq<real>

    constructor (lrInit: seq<real>)
      ensures this.lrInit == lrInit && bestAcc == 0.0 && losses == []
    {
      this.lrInit := lrInit;
      bestAcc := 0.0;
      losses := [];
    }

    /** `epoch_begin`: the epoch's losses start empty. */
    method EpochBegin()
      modifies this
      ensures losses == [] && bestAcc == old(bestAcc)
    {
      losses := [];
    }

    /**
     * `epoch_end`: the per-step time divides by `batch_num`, so a zero
     * `batch_num` raises ZeroDivisionError before anything changes;
     * otherwise a strictly better evaluation accuracy becomes the best, and
     * without an evaluation nothing changes. The result is the best
     * accuracy the log line reports.
     */
    method EpochEnd(evalAcc: Option<real>, batchNum: nat) returns (r: Result<real>)
      modifies this
      ensures losses == old(losses)
      ensures batchNum == 0 ==> r == Err(ZeroDivisionError) && bestAcc == old(bestAcc)
      ensures batchNum > 0 ==> r == Ok(bestAcc)
      ensures bestAcc >= old(bestAcc)
      ensures batchNum > 0 && evalAcc.Some? && evalAcc.value > old(bestAcc) ==> bestAcc == evalAcc.value
      ensures !(batchNum > 0 && evalAcc.Some? && evalAcc.value > old(bestAcc)) ==> bestAcc == old(bestAcc)
    {
      if batchNum == 0 {
        return Err(ZeroDivisionError);
      }
      if evalAcc.Some? {
        if evalAcc.value > bestAcc {
          bestAcc := evalAcc.value;
        }
      }
      return Ok(bestAcc);
    }

    /**
     * `step_end`: the loss is recorded, the step within the epoch is
     * `(cur_step_num - 1) % batch_num`, and the rate is read at
     * `cur_step_num - 1` (a zero `batch_num` divides by zero, a step past
     * the schedule is an IndexError; both happen after the loss is recorded).
     */
    method StepEnd(stepLoss: real, curStepNum: nat, batchNum: nat) returns (r: Result<StepReport>)
      modifies this
      ensures losses == old(losses) + [stepLoss] && bestAcc == old(bestAcc)
      ensures r == StepReportOf(lrInit, curStepNum, batchNum)
    {
      losses := losses + [stepLoss];
      if batchNum == 0 {
        return Err(ZeroDivisionError);
      }
      var curStepInEpoch := (curStepNum - 1) % batchNum;
      var lr :- PyIndex(lrInit, curStepNum - 1);
      return Ok(StepReport(curStepInEpoch, lr));
    }
  }

  /** The report of step `curStepNum` (counted from 1). */
  function StepReportOf(lrInit: seq<real>, curStepNum: nat, batchNum: nat): (r: Result<StepReport>)
    ensures r.Ok? ==> batchNum > 0 && r.value.stepInEpoch < batchNum
    ensures batchNum == 0 ==> r == Err(ZeroDivisionError)
    ensures batchNum > 0 && 1 <= curStepNum <= |lrInit| ==>
      r.Ok? && r.value.lr == lrInit[curStepNum - 1] &&
      (curStepNum - 1) == ((curStepNum - 1) / batchNum) * batchNum + r.value.stepInEpoch
  {
    if batchNum == 0 then Err(ZeroDivisionError)
    else
      var lr :- PyIndex(lrInit, curStepNum - 1);
      Ok(StepReport((curStepNum - 1) % batchNum, lr))
  }

  /** A run of evaluations leaves the largest accuracy seen, or 0 if none beats it. */
  function BestAccuracy(evals: seq<Option<real>>): (best: real)
    ensures best >= 0.0
    ensures forall i | 0 <= i < |evals| && evals[i].Some? :: evals[i].value <= best
    ensures best == 0.0 || exists i | 0 <= i < |evals| :: evals[i] == Some(best)
  {
    if |evals| == 0 then 0.0
    else
      var b := BestAccuracy(evals[..|evals| - 1]);
      var e := evals[|evals| - 1];
      if e.Some? && e.value > b then e.value else b
  }

  /** The monitor's best accuracy after a run of epochs is `BestAccuracy` of their evaluations. */
  method RunEpochs(lrInit: seq<real>, evals: seq<Option<real>>, batchNum: nat) returns (r: Result<real>)
    ensures |evals| > 0 && batchNum == 0 ==> r == Err(ZeroDivisionError)
    ensures |evals| == 0 || batchNum > 0 ==> r == Ok(BestAccuracy(evals))
  {
    var monitor := new Monitor(lrInit);
    for i := 0 to |evals|
      invariant monitor.bestAcc == BestAccuracy(evals[..i])
      invariant batchNum == 0 ==> i == 0
    {
      assert evals[..i + 1][..i] == evals[..i];
      monitor.EpochBegin();
      var reported := monitor.EpochEnd(evals[i], batchNum);
      if reported.Err? {
        return Err(reported.error);
      }
    }
    assert evals[..|evals|] == evals;
    r := Ok(monitor.bestAcc);
  }

}
