/**
 * `AverageMeter` of UniSiam (research/cv/unisiam/util.py): the latest
 * value, the weighted sum and count, and their average.
 */
module UnisiamMeter {
  import opened Wrappers

  class AverageMeter {
    var val: real
    var avg: real
    var sum: real
    var count: int

    /** `__init__` calls `reset`. */
    constructor ()
      ensures val == 0.0 && avg == 0.0 && sum == 0.0 && count == 0
    {
      val, avg, sum, count := 0.0, 0.0, 0.0, 0;
    }

    /** `reset`: everything back to zero. */
    method Reset()
      modifies this
      ensures val == 0.0 && avg == 0.0 && sum == 0.0 && count == 0
    {
      val, avg, sum, count := 0.0, 0.0, 0.0, 0;
    }

    /**
     * `update(val, n)`: the value is recorded, `val * n` added to the sum
     * and `n` to the count, then the average recomputed; a count of zero
     * raises ZeroDivisionError after the other fields have changed.
     */
    method Update(v: real, n: int) returns (r: Result<()>)
      modifies this
      ensures val == v && sum == old(sum) + v * n as real && count == old(count) + n
      ensures r.Err? <==> count == 0
      ensures r.Err? ==> r.error == ZeroDivisionError && avg == old(avg)
      ensures r.Ok? ==> avg * count as real == sum
    {
      val := v;
      sum := sum + v * n as real;
      count := count + n;
      if count == 0 {
        return Err(ZeroDivisionError);
      }
      avg := sum / count as real;
      r := Ok(());
    }
  }

  /** One `update(val, n)` call. */
  datatype Sample = Sample(val: real, n: int)

  /** The count after the samples: the sum of their `n`. */
  function TotalCount(samples: seq<Sample>): int
  {
    if |samples| == 0 then 0 else TotalCount(samples[..|samples| - 1]) + samples[|samples| - 1].n
  }

  /** The sum after the samples: the sum of `val * n`. */
  function TotalSum(samples: seq<Sample>): real
  {
    if |samples| == 0 then 0.0
    else TotalSum(samples[..|samples| - 1]) + samples[|samples| - 1].val * samples[|samples| - 1].n as real
  }

  /** Whether some run of the first samples adds up to a count of zero. */
  predicate ZeroCountPrefix(samples: seq<Sample>)
  {
    exists k | 1 <= k <= |samples| :: TotalCount(samples[..k]) == 0
  }

  /**
   * A fresh meter fed the samples in order: it stops at the first update
   * whose count is zero; otherwise it holds the totals, their average and
   * the last value.
   */
  method Accumulate(samples: seq<Sample>) returns (r: Result<(real, real, int)>)
    ensures r.Err? <==> ZeroCountPrefix(samples)
    ensures r.Ok? ==> r.value.1 == TotalSum(samples) && r.value.2 == TotalCount(samples)
    ensures r.Ok? && |samples| > 0 ==> r.value.0 * TotalCount(samples) as real == TotalSum(samples)
  {
    var meter := new AverageMeter();
    for i := 0 to |samples|
      invariant meter.sum == TotalSum(samples[..i]) && meter.count == TotalCount(samples[..i])
      invariant i > 0 ==> meter.avg * meter.count as real == meter.sum
      invariant forall k | 1 <= k <= i :: TotalCount(samples[..k]) != 0
    {
      assert samples[..i + 1][..i] == samples[..i];
      var u := meter.Update(samples[i].val, samples[i].n);
      if u.Err? {
        assert TotalCount(samples[..i + 1]) == 0;
        return Err(u.error);
      }
    }
    assert samples[..|samples|] == samples;
    r := Ok((meter.avg, meter.sum, meter.count));
  }

  /** With positive weights, the average of values in `[lo, hi]` stays in `[lo, hi]`. */
  lemma {:induction false} AverageBounded(samples: seq<Sample>, lo: real, hi: real)
    requires forall k | 0 <= k < |samples| :: samples[k].n > 0 && lo <= samples[k].val <= hi
    ensures lo * TotalCount(samples) as real <= TotalSum(samples) <= hi * TotalCount(samples) as real
  {
    if |samples| > 0 {
      var init := samples[..|samples| - 1];
      var last := samples[|samples| - 1];
      AverageBounded(init, lo, hi);
      WeightedBound(lo, last.val, hi, last.n as real);
    }
  }

  lemma WeightedBound(lo: real, v: real, hi: real, w: real)
    requires lo <= v <= hi && w > 0.0
    ensures lo * w <= v * w <= hi * w
  {
  }
}
