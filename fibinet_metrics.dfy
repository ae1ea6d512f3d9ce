/**
 * `AUCMetric` of FiBiNET (research/recommend/fibinet/src/metrics.py): it
 * collects predicted probabilities and true labels batch by batch and
 * scores them at the end. The area under the ROC curve itself comes from
 * sklearn and is a parameter here.
 */
module FibinetMetrics {
  import opened Wrappers

  class AucMetric {
    var trueLabels: seq<real>
    var predProbs: seq<real>

    /** The two lists have the same length, the condition `eval` checks. */
    predicate Aligned()
      reads this
    {
      |trueLabels| == |predProbs|
    }

    /** The constructor calls `clear`. */
    constructor ()
      ensures trueLabels == [] && predProbs == []
      ensures Aligned()
    {
      trueLabels := [];
      predProbs := [];
    }

    /** `clear`: both lists become empty. */
    method Clear()
      modifies this
      ensures trueLabels == [] && predProbs == []
      ensures Aligned()
    {
      trueLabels := [];
      predProbs := [];
    }

    /**
     * `update(*inputs)`: the flattened prediction (`inputs[1]`) and labels
     * (`inputs[2]`) are appended; the logits (`inputs[0]`) are ignored.
     */
    method Update(logits: seq<real>, predict: seq<real>, labels: seq<real>)
      modifies this
      ensures predProbs == old(predProbs) + predict
      ensures trueLabels == old(trueLabels) + labels
      ensures |predict| == |labels| ==> (Aligned() <==> old(Aligned()))
    {
      predProbs := predProbs + predict;
      trueLabels := trueLabels + labels;
    }

    /**
     * `eval`: RuntimeError when the lengths differ, else the score of
     * the collected lists; the lists are left as they are.
     */
    method Eval(rocAucScore: (seq<real>, seq<real>) -> real) returns (r: Result<real>)
      ensures r.Err? <==> !Aligned()
      ensures r.Err? ==> r.error == RuntimeError
      ensures r.Ok? ==> r.value == rocAucScore(trueLabels, predProbs)
    {
      if |trueLabels| != |predProbs| {
        return Err(RuntimeError);
      }
      return Ok(rocAucScore(trueLabels, predProbs));
    }
  }

  /** One `update` call: the three flattened inputs. */
  datatype UpdateCall = UpdateCall(logits: seq<real>, predict: seq<real>, labels: seq<real>)

  /** The predictions a run of updates leaves, in order. */
  function Predictions(calls: seq<UpdateCall>): seq<real>
  {
    if |calls| == 0 then [] else Predictions(calls[..|calls| - 1]) + calls[|calls| - 1].predict
  }

  /** The labels a run of updates leaves, in order. */
  function Labels(calls: seq<UpdateCall>): seq<real>
  {
    if |calls| == 0 then [] else Labels(calls[..|calls| - 1]) + calls[|calls| - 1].labels
  }

  /** Updates whose prediction and labels have equal lengths keep the lists aligned. */
  lemma {:induction false} AlignedAfterUpdates(calls: seq<UpdateCall>)
    requires forall i | 0 <= i < |calls| :: |calls[i].predict| == |calls[i].labels|
    ensures |Predictions(calls)| == |Labels(calls)|
  {
    if |calls| > 0 {
      AlignedAfterUpdates(calls[..|calls| - 1]);
    }
  }

  /**
   * An evaluation pass: a fresh metric, one update per batch, then `eval`.
   * The stored lists are the concatenation of the batches.
   */
  method EvaluatePass(calls: seq<UpdateCall>, rocAucScore: (seq<real>, seq<real>) -> real) returns (r: Result<real>)
    ensures r.Err? <==> |Predictions(calls)| != |Labels(calls)|
    ensures r.Ok? ==> r.value == rocAucScore(Labels(calls), Predictions(calls))
  {
    var metric := new AucMetric();
    for i := 0 to |calls|
      invariant metric.predProbs == Predictions(calls[..i])
      invariant metric.trueLabels == Labels(calls[..i])
    {
      assert calls[..i + 1][..i] == calls[..i];
      metric.Update(calls[i].logits, calls[i].predict, calls[i].labels);
    }
    assert calls[..|calls|] == calls;
    r := metric.Eval(rocAucScore);
  }
}
