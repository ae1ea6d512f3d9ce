/**
 * The configuration logic of Single-Path-NAS training
 * (research/cv/single_path_nas/train.py): the learning-rate scheduler
 * dispatch, `get_param_groups` and the loss-scale and label-smoothing
 * overrides. The schedules themselves and the network are left out.
 */
module SinglePathNasTrain {
  import opened Wrappers
  import opened Strings
  import opened ParamGroups
  import opened TrainFlags

  datatype Scheduler = WarmupStep | WarmupCosineAnnealing

  /** `lr_steps_imagenet`: only `exponential` and `cosine_annealing` are known. */
  function LrScheduler(name: string): (r: Result<Scheduler>)
    ensures r == Ok(WarmupStep) <==> name == "exponential"
    ensures r == Ok(WarmupCosineAnnealing) <==> name == "cosine_annealing"
    ensures r.Err? <==> name != "exponential" && name != "cosine_annealing"
    ensures r.Err? ==> r.error == NotImplementedError
  {
    if name == "exponential" then Ok(WarmupStep)
    else if name == "cosine_annealing" then Ok(WarmupCosineAnnealing)
    else Err(NotImplementedError)
  }

  /** Biases and batch-norm scale and shift are not decayed. */
  predicate NoDecay(p: Parameter)
  {
    EndsWith(p.name, ".bias") || EndsWith(p.name, ".gamma") || EndsWith(p.name, ".beta")
  }

  /** One optimizer group: its parameters and, when given, its own weight decay. */
  datatype Group = Group(params: seq<Parameter>, weightDecay: Option<real>)

  /**
   * `get_param_groups`: the no-decay group, with weight decay 0.0, comes
   * first, then the decay group without its own setting.
   */
  method GetParamGroups(trainable: seq<Parameter>) returns (groups: seq<Group>)
    ensures |groups| == 2
    ensures groups[0] == Group(Filter(trainable, NoDecay), Some(0.0))
    ensures groups[1] == Group(FilterNot(trainable, NoDecay), None)
    ensures multiset(groups[0].params) + multiset(groups[1].params) == multiset(trainable)
    ensures forall p | p in groups[0].params :: NoDecay(p)
    ensures forall p | p in groups[1].params :: !NoDecay(p)
  {
    var noDecayParams, decayParams := Partition(trainable, NoDecay);
    FilterPartition(trainable, NoDecay);
    groups := [Group(noDecayParams, Some(0.0)), Group(decayParams, None)];
  }

  /** The configuration fields the script overwrites. */
  class Config {
    var isDynamicLossScale: bool
    var lossScale: real
    var useLabelSmooth: bool
    var labelSmoothFactor: real

    constructor (isDynamicLossScale: bool, lossScale: real, useLabelSmooth: bool, labelSmoothFactor: real)
      ensures this.isDynamicLossScale == isDynamicLossScale && this.lossScale == lossScale
      ensures this.useLabelSmooth == useLabelSmooth && this.labelSmoothFactor == labelSmoothFactor
    {
      this.isDynamicLossScale := isDynamicLossScale;
      this.lossScale := lossScale;
      this.useLabelSmooth := useLabelSmooth;
      this.labelSmoothFactor := labelSmoothFactor;
    }

    /**
     * A dynamic loss scale forces `loss_scale` to 1, and disabled label
     * smoothing forces its factor to 0.
     */
    method ApplyOverrides()
      modifies this
      ensures isDynamicLossScale == old(isDynamicLossScale) && useLabelSmooth == old(useLabelSmooth)
      ensures lossScale == LossScale(isDynamicLossScale, old(lossScale))
      ensures labelSmoothFactor == SmoothFactor(useLabelSmooth, old(labelSmoothFactor))
    {
      if isDynamicLossScale {
        lossScale := 1.0;
      }
      if !useLabelSmooth {
        labelSmoothFactor := 0.0;
      }
    }
  }

  /** The factor the loss is built with. */
  function SmoothFactor(useLabelSmooth: bool, factor: real): (f: real)
    ensures !useLabelSmooth ==> f == 0.0
    ensures useLabelSmooth ==> f == factor
  {
    if useLabelSmooth then factor else 0.0
  }
}
