/**
 * The zero-shot evaluation of CPM (research/nlp/cpm/eval.py): the renaming
 * of checkpoint weights into the `cpm_model.` namespace, the prediction of
 * each sample as the best of the candidate columns, and the accuracy ratio.
 * The network's logits are inputs.
 */
module CpmEval {
  import opened Wrappers
  import opened Strings
  import opened CheckpointKeys

  const ModelPrefix: string := "cpm_model."

  /** A name outside the model namespace is moved into it; any other is kept. */
  function CpmName(name: string): (r: string)
    ensures Contains(r, ModelPrefix)
    ensures !Contains(name, ModelPrefix) ==> r == ModelPrefix + name
    ensures Contains(name, ModelPrefix) ==> r == name
  {
    if Contains(name, ModelPrefix) then name
    else
      StartsWithContains(ModelPrefix + name, ModelPrefix);
      ModelPrefix + name
  }

  /**
   * Two different weights end up under one key only when one is the other
   * with the prefix added.
   */
  lemma CpmNameCollision(a: string, b: string)
    requires a != b && CpmName(a) == CpmName(b)
    ensures (b == ModelPrefix + a && !Contains(a, ModelPrefix)) || (a == ModelPrefix + b && !Contains(b, ModelPrefix))
  {
    if !Contains(a, ModelPrefix) && !Contains(b, ModelPrefix) {
      PrependInjective(ModelPrefix, a, b);
      assert false;
    }
  }

  lemma PrependInjective(p: string, a: string, b: string)
    requires p + a == p + b
    ensures a == b
  {
    assert a == (p + a)[|p|..];
  }

  /** The loop that fills `can_be_loaded`; a later weight overwrites an earlier one under the same key. */
  method LoadWeights<V>(weights: seq<(string, V)>) returns (canBeLoaded: map<string, V>)
    ensures canBeLoaded == Remapped(weights, name => Keep(CpmName(name)))
    ensures forall k | k in canBeLoaded :: Contains(k, ModelPrefix)
    ensures forall i | 0 <= i < |weights| :: CpmName(weights[i].0) in canBeLoaded
  {
    canBeLoaded := RemapKeys(weights, name => Keep(CpmName(name)));
    forall k | k in canBeLoaded ensures Contains(k, ModelPrefix) {
      RemappedDomain(weights, name => Keep(CpmName(name)), k);
    }
    forall i | 0 <= i < |weights| ensures CpmName(weights[i].0) in canBeLoaded {
      RemappedDomain(weights, name => Keep(CpmName(name)), CpmName(weights[i].0));
    }
  }

  /** `argmax`: the first position of a maximum. */
  function ArgMax(xs: seq<real>): (k: nat)
    requires |xs| > 0
    ensures k < |xs|
    ensures forall j | 0 <= j < |xs| :: xs[j] <= xs[k]
    ensures forall j | 0 <= j < k :: xs[j] < xs[k]
  {
    if |xs| == 1 then 0
    else
      var k := ArgMax(xs[..|xs| - 1]);
      if xs[|xs| - 1] > xs[k] then |xs| - 1 else k
  }

  /** `row[cand_ids]`: the candidate columns of one row, or IndexError for a column past the row. */
  function SelectColumns(row: seq<real>, cand: seq<nat>): (r: Result<seq<real>>)
    ensures r.Err? <==> exists j | 0 <= j < |cand| :: cand[j] >= |row|
    ensures r.Ok? ==> |r.value| == |cand| && forall j | 0 <= j < |cand| :: r.value[j] == row[cand[j]]
    ensures r.Err? ==> r.error == IndexError
  {
    if exists j | 0 <= j < |cand| :: cand[j] >= |row| then Err(IndexError)
    else Ok(seq(|cand|, j requires 0 <= j < |cand| => row[cand[j]]))
  }

  /**
   * The prediction of one sample: the position, among the candidates, of
   * the highest logit. No candidate at all makes `argmax` fail (ValueError).
   */
  function Predict(row: seq<real>, cand: seq<nat>): (r: Result<nat>)
    ensures r.Ok? ==> r.value < |cand| && cand[r.value] < |row|
    ensures r.Ok? ==> forall j | 0 <= j < |cand| :: cand[j] < |row| && row[cand[j]] <= row[cand[r.value]]
    ensures r.Err? <==> |cand| == 0 || exists j | 0 <= j < |cand| :: cand[j] >= |row|
  {
    var selected :- SelectColumns(row, cand);
    if |selected| == 0 then Err(ValueError) else Ok(ArgMax(selected))
  }

  /** The predictions of a batch, row by row. */
  function PredictBatch(rows: seq<seq<real>>, cand: seq<nat>): (r: Result<seq<nat>>)
    ensures r.Ok? ==> |r.value| == |rows|
    ensures r.Ok? ==> forall i | 0 <= i < |rows| :: Predict(rows[i], cand) == Ok(r.value[i])
    ensures r.Err? <==> exists i | 0 <= i < |rows| :: Predict(rows[i], cand).Err?
  {
    if |rows| == 0 then Ok([])
    else
      var init :- PredictBatch(rows[..|rows| - 1], cand);
      var p :- Predict(rows[|rows| - 1], cand);
      Ok(init + [p])
  }

  /** How many positions of the zipped lists agree. */
  function Matches(preds: seq<int>, truths: seq<int>): (c: nat)
    ensures c <= |preds| && c <= |truths|
  {
    if |preds| == 0 || |truths| == 0 then 0
    else (if preds[0] == truths[0] then 1 else 0) + Matches(preds[1..], truths[1..])
  }

  /** Every zipped position agrees exactly when the count reaches the shorter length. */
  lemma {:induction false} MatchesAll(preds: seq<int>, truths: seq<int>)
    requires |preds| == |truths|
    ensures Matches(preds, truths) == |truths| <==> preds == truths
  {
    if |preds| > 0 {
      MatchesAll(preds[1..], truths[1..]);
      if preds[0] != truths[0] {
        assert Matches(preds[1..], truths[1..]) <= |truths| - 1;
      }
    }
  }

  /** The result: the share of agreeing positions over the number of labels. */
  function Accuracy(preds: seq<int>, truths: seq<int>): (r: Result<real>)
    ensures r.Err? <==> |truths| == 0
    ensures r.Err? ==> r.error == ZeroDivisionError
    ensures r.Ok? ==> 0.0 <= r.value <= 1.0
    ensures r.Ok? && |preds| == |truths| ==> (r.value == 1.0 <==> preds == truths)
  {
    if |truths| == 0 then Err(ZeroDivisionError)
    else
      assert |preds| == |truths| ==> (Matches(preds, truths) == |truths| <==> preds == truths) by {
        if |preds| == |truths| {
          MatchesAll(preds, truths);
        }
      }
      ShareWithin(Matches(preds, truths), |truths|);
      Ok(Matches(preds, truths) as real / |truths| as real)
  }

  /** A count out of a positive total is a share between 0 and 1, and 1 exactly when the count is the total. */
  lemma ShareWithin(m: nat, n: nat)
    requires m <= n && n > 0
    ensures 0.0 <= m as real / n as real <= 1.0
    ensures m as real / n as real == 1.0 <==> m == n
  {
    var q := m as real / n as real;
    assert q * n as real == m as real;
    if m == n {
      assert q == 1.0;
    } else {
      assert (1.0 - q) * n as real == (n - m) as real;
    }
  }

  /** One batch of the dataset: the logits of each row and the true labels. */
  datatype Batch = Batch(logits: seq<seq<real>>, truth: seq<int>)

  /** The true labels of all batches, in order. */
  function Truths(batches: seq<Batch>): seq<int>
  {
    if |batches| == 0 then [] else Truths(batches[..|batches| - 1]) + batches[|batches| - 1].truth
  }

  /** The number of predicted rows of all batches. */
  function RowCount(batches: seq<Batch>): nat
  {
    if |batches| == 0 then 0 else RowCount(batches[..|batches| - 1]) + |batches[|batches| - 1].logits|
  }

  /** The predictions and labels gathered over the batches, in order. */
  function Gathered(batches: seq<Batch>, cand: seq<nat>): (r: Result<(seq<int>, seq<int>)>)
    ensures r.Ok? ==> r.value.1 == Truths(batches) && |r.value.0| == RowCount(batches)
    ensures r.Err? <==> exists b | b in batches :: PredictBatch(b.logits, cand).Err?
  {
    if |batches| == 0 then Ok(([], []))
    else
      var b := batches[|batches| - 1];
      assert forall c | c in batches :: c in batches[..|batches| - 1] || c == b;
      var init :- Gathered(batches[..|batches| - 1], cand);
      var preds :- PredictBatch(b.logits, cand);
      Ok((init.0 + preds, init.1 + b.truth))
  }

  /**
   * `np.stack` needs arrays of one shape: every batch predicts as many rows
   * as the first, and carries as many labels as the first.
   */
  predicate Stackable(batches: seq<Batch>)
  {
    forall i | 0 <= i < |batches| ::
      |batches[i].logits| == |batches[0].logits| && |batches[i].truth| == |batches[0].truth|
  }

  /** Stacked batches form a full table: the rows number the batches times the first batch's rows. */
  lemma {:induction false} StackedRowCount(batches: seq<Batch>)
    requires |batches| > 0 && Stackable(batches)
    ensures RowCount(batches) == |batches| * |batches[0].logits|
    ensures |Truths(batches)| == |batches| * |batches[0].truth|
  {
    if |batches| > 1 {
      var init := batches[..|batches| - 1];
      assert init[0] == batches[0];
      assert Stackable(init) by {
        forall i | 0 <= i < |init| ensures |init[i].logits| == |init[0].logits| && |init[i].truth| == |init[0].truth| {
          assert init[i] == batches[i];
        }
      }
      StackedRowCount(init);
    } else {
      assert batches[..0] == [];
    }
  }

  /**
   * `do_eval` after loading: predictions and labels are appended batch by
   * batch, stacked and compared. Stacking fails with ValueError when there
   * is no batch, and also when the batches differ in size, as a short last
   * batch does (the dataset keeps its remainder).
   */
  method Evaluate(batches: seq<Batch>, cand: seq<nat>) returns (r: Result<real>)
    ensures |batches| == 0 ==> r == Err(ValueError)
    ensures |batches| > 0 ==> r == (var g :- Gathered(batches, cand);
                                     if !Stackable(batches) then Err(ValueError) else Accuracy(g.0, g.1))
    ensures Gathered(batches, cand).Ok? && !Stackable(batches) ==> r == Err(ValueError)
  {
    var allLosses: seq<int> := [];
    var truthLabels: seq<int> := [];
    for i := 0 to |batches|
      invariant Gathered(batches[..i], cand) == Ok((allLosses, truthLabels))
    {
      assert batches[..i + 1][..i] == batches[..i];
      var predId := PredictBatch(batches[i].logits, cand);
      if predId.Err? {
        GatheredStaysFailed(batches, cand, i + 1);
        return Err(predId.error);
      }
      allLosses := allLosses + predId.value;
      truthLabels := truthLabels + batches[i].truth;
    }
    assert batches[..|batches|] == batches;
    if |batches| == 0 || !Stackable(batches) {
      return Err(ValueError);
    }
    r := Accuracy(allLosses, truthLabels);
  }

  /** Batches of two rows and then one row, as a remainder gives, make the evaluation fail. */
  lemma UnevenBatchesNotStackable(b1: Batch, b2: Batch)
    requires |b1.logits| == 2 && |b2.logits| == 1
    ensures !Stackable([b1, b2])
  {
    assert [b1, b2][1] == b2;
  }

  /** Once a batch fails, so does every longer run of batches, with the same error. */
  lemma {:induction false} GatheredStaysFailed(batches: seq<Batch>, cand: seq<nat>, n: nat)
    requires 0 < n <= |batches|
    requires Gathered(batches[..n - 1], cand).Ok? && PredictBatch(batches[n - 1].logits, cand).Err?
    ensures Gathered(batches, cand) == Err(PredictBatch(batches[n - 1].logits, cand).error)
  {
    if n == |batches| {
      assert batches[..|batches| - 1] == batches[..n - 1];
    } else {
      assert batches[..|batches| - 1][..n - 1] == batches[..n - 1];
      GatheredStaysFailed(batches[..|batches| - 1], cand, n);
    }
  }
}
