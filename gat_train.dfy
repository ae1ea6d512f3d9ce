/**
 * The early-stopping loop of GAT training (research/gnn/gat/train.py,
 * `train`): per epoch the validation loss and accuracy decide whether the
 * checkpoint is rewritten, whether the best bounds move and whether the
 * patience counter resets, grows or stops training. Training and
 * evaluating the network are a parameter `evaluate` giving each epoch's
 * validation result; NaN losses are left out.
 */
module GatTrain {
  import opened Wrappers

  /** `val_loss_min`: starts at `np.inf`. */
  datatype LossBound = Infinity | Finite(v: real)

  /** `loss < bound`. */
  predicate Below(loss: real, bound: LossBound)
  {
    bound.Infinity? || loss < bound.v
  }

  /** `bound <= other`. */
  predicate BoundLessEq(bound: LossBound, other: LossBound)
  {
    other.Infinity? || (bound.Finite? && bound.v <= other.v)
  }

  /** One epoch's validation result. */
  datatype Eval = Eval(loss: real, acc: real)

  /**
   * The loop's variables: the best accuracy and loss seen, the patience
   * counter and the saved model's result (both unbound until first set),
   * the epochs whose checkpoint was written, the epochs run, and whether
   * training stopped early.
   */
  datatype State = State(accMax: real, lossMin: LossBound, currStep: Option<int>, model: Option<Eval>,
                         saved: seq<nat>, epochsRun: nat, stopped: bool)

  const Initial: State := State(0.0, Infinity, None, None, [], 0, false)

  /** Either bound improves: the counter resets. */
  predicate Improves(s: State, e: Eval)
  {
    e.acc >= s.accMax || Below(e.loss, s.lossMin)
  }

  /** Both bounds improve: the checkpoint is rewritten. */
  predicate ImprovesBoth(s: State, e: Eval)
  {
    e.acc >= s.accMax && Below(e.loss, s.lossMin)
  }

  /**
   * One epoch. An improvement resets the counter (and with both bounds
   * improving saves the model); otherwise the counter grows, reading an
   * unbound `curr_step` raises, and reaching `early_stopping` stops
   * training after printing the saved model's result.
   */
  function Step(s: State, epoch: nat, e: Eval, earlyStopping: int): (r: Result<State>)
    requires !s.stopped
    ensures r.Ok? ==> r.value.accMax >= s.accMax && BoundLessEq(r.value.lossMin, s.lossMin)
    ensures r.Ok? ==> r.value.epochsRun == s.epochsRun + 1
    ensures Improves(s, e) ==> r.Ok? && r.value.currStep == Some(0) && !r.value.stopped
    ensures ImprovesBoth(s, e) ==> r.Ok? && r.value.saved == s.saved + [epoch] && r.value.model == Some(e)
    ensures !ImprovesBoth(s, e) && r.Ok? ==> r.value.saved == s.saved && r.value.model == s.model
    ensures !Improves(s, e) ==> (r.Err? <==> s.currStep.None? || (s.currStep.value + 1 == earlyStopping && s.model.None?))
    ensures !Improves(s, e) && r.Ok? ==>
      r.value.currStep == Some(s.currStep.value + 1) && r.value.accMax == s.accMax && r.value.lossMin == s.lossMin &&
      (r.value.stopped <==> s.currStep.value + 1 == earlyStopping)
    ensures r.Err? ==> r.error == UnboundLocalError
  {
    if Improves(s, e) then
      var s1 := if ImprovesBoth(s, e) then s.(model := Some(e), saved := s.saved + [epoch]) else s;
      var accMax := if s.accMax >= e.acc then s.accMax else e.acc;
      var lossMin := if Below(e.loss, s.lossMin) then Finite(e.loss) else s.lossMin;
      Ok(s1.(accMax := accMax, lossMin := lossMin, currStep := Some(0), epochsRun := s.epochsRun + 1))
    else if s.currStep.None? then Err(UnboundLocalError)
    else
      var c := s.currStep.value + 1;
      if c == earlyStopping && s.model.None? then Err(UnboundLocalError)
      else Ok(s.(currStep := Some(c), epochsRun := s.epochsRun + 1, stopped := c == earlyStopping))
  }

  /** The state after the epochs before `k`, the loop having broken out once stopped. */
  function Run(k: nat, evaluate: nat -> Eval, earlyStopping: int): (r: Result<State>)
  {
    if k == 0 then Ok(Initial)
    else
      var s :- Run(k - 1, evaluate, earlyStopping);
      if s.stopped then Ok(s) else Step(s, k - 1, evaluate(k - 1), earlyStopping)
  }

  /** The epoch loop of `train`, run for `num_epochs` epochs. */
  method Train(numEpochs: int, evaluate: nat -> Eval, earlyStopping: int) returns (r: Result<State>)
    ensures r == Run(if numEpochs > 0 then numEpochs else 0, evaluate, earlyStopping)
  {
    var st := Initial;
    var epoch := 0;
    while epoch < numEpochs
      invariant 0 <= epoch && (numEpochs > 0 ==> epoch <= numEpochs) && (numEpochs <= 0 ==> epoch == 0)
      invariant Run(epoch, evaluate, earlyStopping) == Ok(st) && !st.stopped
    {
      var next := Epoch(st, epoch, evaluate(epoch), earlyStopping);
      epoch := epoch + 1;
      if next.Err? {
        RunStaysFailed(epoch, numEpochs, evaluate, earlyStopping);
        return next;
      }
      st := next.value;
      if st.stopped {
        RunStaysStopped(epoch, numEpochs, evaluate, earlyStopping);
        return next;
      }
    }
    r := Ok(st);
  }

  /** The body of the epoch loop, on the loop's variables. */
  method Epoch(s: State, epoch: nat, e: Eval, earlyStopping: int) returns (r: Result<State>)
    requires !s.stopped
    ensures r == Step(s, epoch, e, earlyStopping)
  {
    var valAccMax, valLossMin, currStep, valModel, saved := s.accMax, s.lossMin, s.currStep, s.model, s.saved;
    if e.acc >= valAccMax || Below(e.loss, valLossMin) {
      if e.acc >= valAccMax && Below(e.loss, valLossMin) {
        valModel := Some(e);
        saved := saved + [epoch];
      }
      valAccMax := if valAccMax >= e.acc then valAccMax else e.acc;
      valLossMin := if Below(e.loss, valLossMin) then Finite(e.loss) else valLossMin;
      currStep := Some(0);
    } else {
      if currStep.None? {
        return Err(UnboundLocalError);
      }
      currStep := Some(currStep.value + 1);
      if currStep.value == earlyStopping {
        if valModel.None? {
          return Err(UnboundLocalError);
        }
        return Ok(State(valAccMax, valLossMin, currStep, valModel, saved, s.epochsRun + 1, true));
      }
    }
    r := Ok(State(valAccMax, valLossMin, currStep, valModel, saved, s.epochsRun + 1, false));
  }

  /** Once an epoch fails, the whole run fails with its error. */
  lemma {:induction false} RunStaysFailed(n: nat, m: int, evaluate: nat -> Eval, earlyStopping: int)
    requires 0 < n <= m
    requires Run(n, evaluate, earlyStopping).Err?
    ensures Run(m, evaluate, earlyStopping) == Run(n, evaluate, earlyStopping)
  {
    if m > n {
      RunStaysFailed(n, m - 1, evaluate, earlyStopping);
    }
  }

  /** Once stopped, later epochs change nothing. */
  lemma {:induction false} RunStaysStopped(n: nat, m: int, evaluate: nat -> Eval, earlyStopping: int)
    requires 0 < n <= m
    requires Run(n, evaluate, earlyStopping).Ok? && Run(n, evaluate, earlyStopping).value.stopped
    ensures Run(m, evaluate, earlyStopping) == Run(n, evaluate, earlyStopping)
  {
    if m > n {
      RunStaysStopped(n, m - 1, evaluate, earlyStopping);
    }
  }

  /**
   * The first epoch always improves on the infinite loss bound, so the
   * counter is bound before any epoch reads it.
   */
  lemma {:induction false} CounterBoundAfterFirstEpoch(k: nat, evaluate: nat -> Eval, earlyStopping: int)
    requires k > 0 && Run(k, evaluate, earlyStopping).Ok?
    ensures Run(k, evaluate, earlyStopping).value.currStep.Some?
    ensures Run(k, evaluate, earlyStopping).value.lossMin.Finite?
  {
    if k > 1 {
      CounterBoundAfterFirstEpoch(k - 1, evaluate, earlyStopping);
    }
  }

  /** At most `k` epochs run, and a run that has not stopped ran all of them. */
  lemma {:induction false} RunEpochCount(k: nat, evaluate: nat -> Eval, earlyStopping: int)
    ensures Run(k, evaluate, earlyStopping).Ok? ==> Run(k, evaluate, earlyStopping).value.epochsRun <= k
    ensures Run(k, evaluate, earlyStopping).Ok? && !Run(k, evaluate, earlyStopping).value.stopped ==>
      Run(k, evaluate, earlyStopping).value.epochsRun == k
  {
    if k > 0 {
      RunEpochCount(k - 1, evaluate, earlyStopping);
    }
  }

  /** The best accuracy never falls and the best loss never rises from one epoch to the next. */
  lemma {:induction false} BoundsMonotone(k: nat, evaluate: nat -> Eval, earlyStopping: int)
    requires Run(k + 1, evaluate, earlyStopping).Ok?
    ensures var before := Run(k, evaluate, earlyStopping).value;
      var after := Run(k + 1, evaluate, earlyStopping).value;
      after.accMax >= before.accMax && BoundLessEq(after.lossMin, before.lossMin)
  {
  }

  /**
   * With non-negative accuracies the first epoch improves both bounds
   * (0.0 and infinity), so it saves a checkpoint and binds the counter and
   * the saved result: no epoch can then raise.
   */
  lemma {:induction false} NoUnboundWithValidAccuracy(k: nat, evaluate: nat -> Eval, earlyStopping: int)
    requires forall i: nat | i < k :: evaluate(i).acc >= 0.0
    ensures Run(k, evaluate, earlyStopping).Ok?
    ensures k > 0 ==> Run(k, evaluate, earlyStopping).value.currStep.Some?
    ensures k > 0 ==> Run(k, evaluate, earlyStopping).value.model.Some?
    ensures k > 0 ==> |Run(k, evaluate, earlyStopping).value.saved| > 0 && Run(k, evaluate, earlyStopping).value.saved[0] == 0
  {
    if k > 0 {
      NoUnboundWithValidAccuracy(k - 1, evaluate, earlyStopping);
    }
  }

  /**
   * A stopped run ends on `early_stopping` consecutive epochs without
   * improvement: its counter equals `early_stopping`.
   */
  lemma {:induction false} StoppedAtPatience(k: nat, evaluate: nat -> Eval, earlyStopping: int)
    requires Run(k, evaluate, earlyStopping).Ok? && Run(k, evaluate, earlyStopping).value.stopped
    ensures Run(k, evaluate, earlyStopping).value.currStep == Some(earlyStopping)
    ensures earlyStopping > 0
  {
    var s := Run(k - 1, evaluate, earlyStopping).value;
    if !s.stopped {
      CounterNonNegative(k - 1, evaluate, earlyStopping);
    } else {
      StoppedAtPatience(k - 1, evaluate, earlyStopping);
    }
  }

  /** The counter, once bound, is never negative. */
  lemma {:induction false} CounterNonNegative(k: nat, evaluate: nat -> Eval, earlyStopping: int)
    requires Run(k, evaluate, earlyStopping).Ok?
    ensures Run(k, evaluate, earlyStopping).value.currStep.Some? ==> Run(k, evaluate, earlyStopping).value.currStep.value >= 0
  {
    if k > 0 {
      CounterNonNegative(k - 1, evaluate, earlyStopping);
    }
  }
}
