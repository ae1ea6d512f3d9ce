/**
 * The learning-rate generator of DarkNet-53 (research/cv/darknet53/src/lr_generator.py):
 * a linear warm-up followed by cosine annealing evaluated once per epoch,
 * and `get_lr`, which drops the epochs a pretrained checkpoint already ran.
 * The cosine is a parameter `cosPi` standing for `x -> cos(pi * x)`; the
 * float32 cast is left out.
 */
module Darknet53Lr {
  import opened Wrappers
  import opened PyNumbers
  import opened StepLr

  /** `linear_warmup_lr`: a straight line from `initLr` that reaches `baseLr` at `warmupSteps`. */
  function LinearWarmupLr(currentStep: int, warmupSteps: int, baseLr: real, initLr: real): (r: Result<real>)
    ensures r.Err? <==> warmupSteps == 0
    ensures r.Err? ==> r.error == ZeroDivisionError
    ensures r.Ok? ==> (r.value - initLr) * warmupSteps as real == (baseLr - initLr) * currentStep as real
  {
    if warmupSteps == 0 then Err(ZeroDivisionError)
    else
      var lrInc := (baseLr - initLr) / warmupSteps as real;
      Ok(initLr + lrInc * currentStep as real)
  }

  /** The parameters of `warmup_cosine_annealing_lr`, with the step counts already multiplied out. */
  datatype Annealing = Annealing(baseLr: real, stepsPerEpoch: int, warmupSteps: int, tMax: int, etaMin: real,
                                 cosPi: real -> real)

  /**
   * The rate at step `i`: `last_epoch = i // steps_per_epoch` first, then
   * the warm-up line from 0 before `warmupSteps`, the annealed value of the
   * epoch after it (dividing by `T_max`).
   */
  function RateAt(i: nat, a: Annealing): (r: Result<real>)
    ensures a.stepsPerEpoch == 0 ==> r == Err(ZeroDivisionError)
    ensures a.stepsPerEpoch != 0 && i < a.warmupSteps ==> r.Ok? && r.value * a.warmupSteps as real == a.baseLr * (i + 1) as real
    ensures a.stepsPerEpoch != 0 && i >= a.warmupSteps ==> (r.Err? <==> a.tMax == 0)
    ensures r.Err? ==> r.error == ZeroDivisionError
  {
    if a.stepsPerEpoch == 0 then Err(ZeroDivisionError)
    else
      var lastEpoch := FloorDiv(i, a.stepsPerEpoch);
      if i < a.warmupSteps then LinearWarmupLr(i + 1, a.warmupSteps, a.baseLr, 0.0)
      else if a.tMax == 0 then Err(ZeroDivisionError)
      else Ok(Annealed(lastEpoch, a))
  }

  /** `eta_min + (base_lr - eta_min) * (1 + cos(pi * last_epoch / T_max)) / 2`. */
  function Annealed(lastEpoch: int, a: Annealing): real
    requires a.tMax != 0
  {
    a.etaMin + (a.baseLr - a.etaMin) * (1.0 + a.cosPi(lastEpoch as real / a.tMax as real)) / 2.0
  }

  /** The rates of steps `0..n-1` in order, or the error of the first step that fails. */
  function ScheduleUpTo(n: nat, a: Annealing): (r: Result<seq<real>>)
  {
    if n == 0 then Ok([])
    else
      var prev :- ScheduleUpTo(n - 1, a);
      var v :- RateAt(n - 1, a);
      Ok(prev + [v])
  }

  /** A successful schedule has one rate per step, each the rate of its step. */
  lemma {:induction false} ScheduleUpToContents(n: nat, a: Annealing)
    ensures ScheduleUpTo(n, a).Ok? <==> forall k | 0 <= k < n :: RateAt(k, a).Ok?
    ensures ScheduleUpTo(n, a).Ok? ==>
      |ScheduleUpTo(n, a).value| == n &&
      forall k | 0 <= k < n :: ScheduleUpTo(n, a).value[k] == RateAt(k, a).value
    ensures ScheduleUpTo(n, a).Err? ==> ScheduleUpTo(n, a).error == ZeroDivisionError
  {
    if n > 0 {
      ScheduleUpToContents(n - 1, a);
    }
  }

  /**
   * Within `total` steps the schedule fails exactly when a step after the
   * warm-up exists and `T_max` is 0 (a zero `steps_per_epoch` leaves no steps).
   */
  lemma ScheduleFails(n: nat, a: Annealing)
    requires n > 0 ==> a.stepsPerEpoch != 0
    ensures ScheduleUpTo(n, a).Err? <==> n > 0 && n > a.warmupSteps && a.tMax == 0
  {
    ScheduleUpToContents(n, a);
    if n > 0 && n > a.warmupSteps && a.tMax == 0 {
      var k := if a.warmupSteps >= 0 then a.warmupSteps else 0;
      assert RateAt(k, a).Err?;
    }
  }

  /** `int(x * steps_per_epoch)`, the epoch counts being integers. */
  function Steps(epochs: int, stepsPerEpoch: int): int
  {
    epochs * stepsPerEpoch
  }

  /** `warmup_cosine_annealing_lr`: one rate per step of `max_epoch` epochs. */
  method WarmupCosineAnnealingLr(lr: real, stepsPerEpoch: int, warmupEpochs: int, maxEpoch: int, tMax: int,
                                 etaMin: real, cosPi: real -> real) returns (r: Result<seq<real>>)
    ensures r == ScheduleUpTo(if Steps(maxEpoch, stepsPerEpoch) > 0 then Steps(maxEpoch, stepsPerEpoch) else 0,
                              Annealing(lr, stepsPerEpoch, Steps(warmupEpochs, stepsPerEpoch), tMax, etaMin, cosPi))
  {
    var totalSteps := Steps(maxEpoch, stepsPerEpoch);
    var warmupSteps := Steps(warmupEpochs, stepsPerEpoch);
    ghost var a := Annealing(lr, stepsPerEpoch, warmupSteps, tMax, etaMin, cosPi);
    var lrEachStep := [];
    var i := 0;
    while i < totalSteps
      invariant 0 <= i && (totalSteps > 0 ==> i <= totalSteps) && (totalSteps <= 0 ==> i == 0)
      invariant ScheduleUpTo(i, a) == Ok(lrEachStep)
    {
      var rate := StepRate(i, lr, stepsPerEpoch, warmupSteps, tMax, etaMin, cosPi);
      if rate.Err? {
        ScheduleStaysFailed(i + 1, totalSteps, a);
        return Err(rate.error);
      }
      lrEachStep := lrEachStep + [rate.value];
      i := i + 1;
    }
    r := Ok(lrEachStep);
  }

  /** The body of the loop: step `i`'s epoch, then its warm-up or annealed rate. */
  method StepRate(i: nat, baseLr: real, stepsPerEpoch: int, warmupSteps: int, tMax: int, etaMin: real,
                  cosPi: real -> real) returns (r: Result<real>)
    ensures r == RateAt(i, Annealing(baseLr, stepsPerEpoch, warmupSteps, tMax, etaMin, cosPi))
  {
    var warmupInitLr := 0.0;
    if stepsPerEpoch == 0 {
      return Err(ZeroDivisionError);
    }
    var lastEpoch := FloorDiv(i, stepsPerEpoch);
    if i < warmupSteps {
      r := LinearWarmupLr(i + 1, warmupSteps, baseLr, warmupInitLr);
    } else {
      if tMax == 0 {
        return Err(ZeroDivisionError);
      }
      r := Ok(Annealed(lastEpoch, Annealing(baseLr, stepsPerEpoch, warmupSteps, tMax, etaMin, cosPi)));
    }
  }

  /** Once step `n - 1` fails, every longer schedule fails with the same error. */
  lemma {:induction false} ScheduleStaysFailed(n: nat, m: nat, a: Annealing)
    requires 0 < n <= m
    requires ScheduleUpTo(n - 1, a).Ok? && RateAt(n - 1, a).Err?
    ensures ScheduleUpTo(m, a) == Err(RateAt(n - 1, a).error)
  {
    if m > n {
      ScheduleStaysFailed(n, m - 1, a);
    }
  }

  /** The warm-up ends on the base rate: step `warmupSteps - 1` runs at `base_lr`. */
  lemma WarmupReachesBase(a: Annealing)
    requires a.stepsPerEpoch != 0 && a.warmupSteps > 0
    ensures RateAt(a.warmupSteps - 1, a) == Ok(a.baseLr)
  {
    var r := RateAt(a.warmupSteps - 1, a).value;
    assert r * a.warmupSteps as real == a.baseLr * a.warmupSteps as real;
    CancelPositive(r, a.baseLr, a.warmupSteps as real);
  }

  lemma CancelPositive(x: real, y: real, w: real)
    requires w > 0.0 && x * w == y * w
    ensures x == y
  {
    RealMulMonotone(x, y, w);
    RealMulMonotone(y, x, w);
  }

  lemma RealMulMonotone(x: real, y: real, w: real)
    requires w > 0.0
    ensures x < y ==> x * w < y * w
  {
  }

  /** With a positive base rate the warm-up strictly increases. */
  lemma WarmupIncreasing(a: Annealing, i: nat, j: nat)
    requires a.stepsPerEpoch != 0 && a.baseLr > 0.0
    requires i < j < a.warmupSteps
    ensures RateAt(i, a).value < RateAt(j, a).value
  {
    var w := a.warmupSteps as real;
    var ri := RateAt(i, a).value;
    var rj := RateAt(j, a).value;
    assert ri * w == a.baseLr * (i + 1) as real;
    assert rj * w == a.baseLr * (j + 1) as real;
    assert a.baseLr * (i + 1) as real < a.baseLr * (j + 1) as real;
    RealMulMonotone(rj, ri, w);
    RealMulMonotone(ri, rj, w);
  }

  /** After the warm-up the rate is the same for every step of one epoch. */
  lemma ConstantWithinEpoch(a: Annealing, e: int, i: nat, j: nat)
    requires a.stepsPerEpoch > 0 && a.tMax != 0
    requires a.warmupSteps <= i && a.warmupSteps <= j
    requires e * a.stepsPerEpoch <= i < e * a.stepsPerEpoch + a.stepsPerEpoch
    requires e * a.stepsPerEpoch <= j < e * a.stepsPerEpoch + a.stepsPerEpoch
    ensures RateAt(i, a) == RateAt(j, a) == Ok(Annealed(e, a))
  {
    EpochOf(i, a.stepsPerEpoch, e);
    EpochOf(j, a.stepsPerEpoch, e);
  }

  /** The floor quotient is the epoch whose steps contain `i`. */
  lemma EpochOf(i: int, s: int, e: int)
    requires s > 0 && e * s <= i < e * s + s
    ensures FloorDiv(i, s) == e
  {
    var q := FloorDiv(i, s);
    MulMonotone(q + 1, e, s);
    MulMonotone(e + 1, q, s);
    assert (q + 1) * s == q * s + s && (e + 1) * s == e * s + s;
  }

  lemma MulMonotone(a: int, b: int, s: int)
    requires s > 0
    ensures a <= b ==> a * s <= b * s
  {
  }

  // ---------------------------------------------------------------------
  // get_lr

  /** The configuration fields `get_lr` reads. */
  datatype Config = Config(lrScheduler: string, lr: real, warmupEpochs: int, epochNum: int, tMax: int,
                           etaMin: real, pretrainedEpochNum: int)

  /**
   * `get_lr`: only `cosine_annealing` is implemented; the epochs already
   * trained are dropped, and the rest must hold
   * `(epoch_num - pretrained_epoch_num) * steps_per_epoch` rates.
   */
  method GetLr(config: Config, stepsPerEpoch: int, cosPi: real -> real) returns (r: Result<seq<real>>)
    ensures config.lrScheduler != "cosine_annealing" ==> r == Err(NotImplementedError)
    ensures r.Ok? ==> |r.value| == (config.epochNum - config.pretrainedEpochNum) * stepsPerEpoch
    ensures config.lrScheduler == "cosine_annealing" ==>
      var total := Steps(config.epochNum, stepsPerEpoch);
      var full := ScheduleUpTo(if total > 0 then total else 0,
                               Annealing(config.lr, stepsPerEpoch, Steps(config.warmupEpochs, stepsPerEpoch),
                                         config.tMax, config.etaMin, cosPi));
      (full.Err? ==> r == full) &&
      (full.Ok? ==> var rest := SliceFrom(full.value, config.pretrainedEpochNum * stepsPerEpoch);
                    if |rest| == (config.epochNum - config.pretrainedEpochNum) * stepsPerEpoch then r == Ok(rest)
                    else r == Err(AssertionError))
  {
    if config.lrScheduler != "cosine_annealing" {
      return Err(NotImplementedError);
    }
    var lrEachStep :- WarmupCosineAnnealingLr(config.lr, stepsPerEpoch, config.warmupEpochs, config.epochNum,
                                              config.tMax, config.etaMin, cosPi);
    lrEachStep := SliceFrom(lrEachStep, config.pretrainedEpochNum * stepsPerEpoch);
    if |lrEachStep| != (config.epochNum - config.pretrainedEpochNum) * stepsPerEpoch {
      return Err(AssertionError);
    }
    r := Ok(lrEachStep);
  }

  /**
   * The assertion of `get_lr` holds for every sensible configuration: a
   * positive epoch length and `0 <= pretrained_epoch_num <= epoch_num`.
   */
  lemma GetLrAssertionHolds(full: seq<real>, stepsPerEpoch: int, epochNum: int, pretrainedEpochNum: int)
    requires stepsPerEpoch > 0 && 0 <= pretrainedEpochNum <= epochNum
    requires |full| == epochNum * stepsPerEpoch
    ensures |SliceFrom(full, pretrainedEpochNum * stepsPerEpoch)| == (epochNum - pretrainedEpochNum) * stepsPerEpoch
  {
    assert pretrainedEpochNum * stepsPerEpoch <= epochNum * stepsPerEpoch by {
      assert (epochNum - pretrainedEpochNum) * stepsPerEpoch >= 0;
    }
    assert (epochNum - pretrainedEpochNum) * stepsPerEpoch == epochNum * stepsPerEpoch - pretrainedEpochNum * stepsPerEpoch;
  }
}
