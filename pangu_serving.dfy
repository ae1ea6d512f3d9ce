/**
 * Token bookkeeping of the PanGu-Alpha incremental serving script
 * (official/nlp/Pangu_alpha/serving_increment/pangu_standalone/pangu/servable_config.py).
 *
 * Token ids are integers and logits are reals. The tokenizer, the network
 * and the random sampling are outside the model: the tokenizer's output is
 * an input, and each sampled token is a nondeterministic choice among the
 * vocabulary.
 */
module PanguServing {
  import opened Wrappers

  const MaxGenerateLength: nat := 500
  const TopKNum: nat := 3
  const SeqLength: nat := 1024
  const VocabSize: nat := 40000

  function Min(a: int, b: int): int { if a < b then a else b }

  // ---------------------------------------------------------------------
  // convert_text_to_ids

  /**
   * The single row `convert_text_to_ids` returns for the encoded ids: ids
   * beyond `seqLength + plus` are cut (only when there are more than
   * `seqLength`), the rest is right-padded with `pad`.
   */
  function ConvertTextToIds(ids: seq<int>, seqLength: nat, pad: int, plus: nat): (row: seq<int>)
    ensures |row| == seqLength + plus
    ensures var kept := Min(|ids|, seqLength + plus);
      row[..kept] == ids[..kept] && forall i | kept <= i < |row| :: row[i] == pad
  {
    var cut := if |ids| > seqLength then ids[..Min(|ids|, seqLength + plus)] else ids;
    cut + seq(seqLength + plus - |cut|, _ => pad)
  }

  /** Scoring labels: the tokens shifted left by one, then `pad`. */
  function ShiftedLabels(tokens: seq<int>, pad: int): (labels: seq<int>)
    requires |tokens| >= 1
    ensures |labels| == |tokens|
    ensures forall i | 0 <= i < |tokens| - 1 :: labels[i] == tokens[i + 1]
    ensures labels[|tokens| - 1] == pad
  {
    tokens[1..] + [pad]
  }

  /** Both rows sent for scoring have the full length, and labels line up with the next token. */
  lemma ScoringRowsAligned(ids: seq<int>, pad: int, i: nat)
    requires i < SeqLength - 1
    ensures var tokens := ConvertTextToIds(ids, SeqLength, pad, 0);
      |ShiftedLabels(tokens, pad)| == SeqLength &&
      ShiftedLabels(tokens, pad)[i] == (if i + 1 < |ids| then ids[i + 1] else pad)
  {
    var tokens := ConvertTextToIds(ids, SeqLength, pad, 0);
    if i + 1 < |ids| {
      assert tokens[..Min(|ids|, SeqLength)][i + 1] == ids[..Min(|ids|, SeqLength)][i + 1];
    }
  }

  // ---------------------------------------------------------------------
  // topk_fun

  /**
   * The order of `sorted(..., key=value, reverse=True)`: larger values
   * first, equal values in their original order (Python's sort is stable).
   */
  predicate Before(column: seq<real>, i: nat, j: nat)
    requires i < |column| && j < |column|
  {
    column[i] > column[j] || (column[i] == column[j] && i < j)
  }

  predicate SortedByRank(column: seq<real>, s: seq<nat>)
  {
    (forall k | 0 <= k < |s| :: s[k] < |column|) &&
    forall a, b | 0 <= a < b < |s| :: Before(column, s[a], s[b])
  }

  function Insert(column: seq<real>, x: nat, s: seq<nat>): (r: seq<nat>)
    requires x < |column|
    requires SortedByRank(column, s) && x !in s
    ensures SortedByRank(column, r)
    ensures multiset(r) == multiset(s) + multiset{x}
    ensures |r| == |s| + 1
  {
    if s == [] then [x]
    else if Before(column, x, s[0]) then [x] + s
    else
      var rest := Insert(column, x, s[1..]);
      assert s == [s[0]] + s[1..];
      HeadBeforeRest(column, x, s, rest);
      ConsSortedByRank(column, s[0], rest);
      [s[0]] + rest
  }

  /** The head of a ranked list that `x` does not precede comes before `x` and every later entry. */
  lemma HeadBeforeRest(column: seq<real>, x: nat, s: seq<nat>, rest: seq<nat>)
    requires x < |column| && |s| > 0 && SortedByRank(column, s) && !Before(column, x, s[0]) && x != s[0]
    requires multiset(rest) == multiset(s[1..]) + multiset{x}
    ensures forall b | 0 <= b < |rest| :: rest[b] < |column| && Before(column, s[0], rest[b])
  {
    forall b | 0 <= b < |rest|
      ensures rest[b] < |column| && Before(column, s[0], rest[b])
    {
      assert rest[b] in multiset(rest);
      if rest[b] != x {
        assert rest[b] in multiset(s[1..]);
        var c :| 0 <= c < |s[1..]| && s[1..][c] == rest[b];
        assert s[c + 1] == rest[b];
      }
    }
  }

  /** An entry before every entry of a ranked list extends it at the front. */
  lemma ConsSortedByRank(column: seq<real>, h: nat, rest: seq<nat>)
    requires h < |column| && SortedByRank(column, rest)
    requires forall b | 0 <= b < |rest| :: rest[b] < |column| && Before(column, h, rest[b])
    ensures SortedByRank(column, [h] + rest)
  {
    var r := [h] + rest;
    forall a, b | 0 <= a < b < |r|
      ensures Before(column, r[a], r[b])
    {
      if a > 0 {
        assert r[a] == rest[a - 1] && r[b] == rest[b - 1];
      }
    }
  }

  /** The indices 0..n-1 in stable descending order of value. */
  function RankedIndices(column: seq<real>, n: nat): (r: seq<nat>)
    requires n <= |column|
    ensures SortedByRank(column, r)
    ensures multiset(r) == multiset(seq(n, i => i))
    ensures |r| == n
  {
    if n == 0 then []
    else
      var prev := RankedIndices(column, n - 1);
      assert seq(n, i => i) == seq(n - 1, i => i) + [n - 1];
      assert n - 1 !in multiset(seq(n - 1, i => i));
      Insert(column, n - 1, prev)
  }

  /**
   * `topk_fun` on the single row of logits: the `min(k, n)` best
   * (index, value) pairs. An empty selection makes the unpacking of
   * `zip(*[])` raise ValueError.
   */
  function TopK(column: seq<real>, k: nat): (r: Result<seq<(nat, real)>>)
    ensures r.Err? <==> Min(k, |column|) == 0
    ensures r.Ok? ==> |r.value| == Min(k, |column|)
    ensures r.Ok? ==> forall a | 0 <= a < |r.value| :: r.value[a].0 < |column| && r.value[a].1 == column[r.value[a].0]
  {
    var ranked := RankedIndices(column, |column|);
    var m := Min(k, |column|);
    if m == 0 then Err(ValueError)
    else
      Ok(seq(m, a requires 0 <= a < m => (ranked[a], column[ranked[a]])))
  }

  /**
   * The selected pairs are in non-increasing value order with ties in
   * ascending index order, are distinct, and every index left out ranks
   * after every index selected.
   */
  lemma TopKBest(column: seq<real>, k: nat)
    requires TopK(column, k).Ok?
    ensures var top := TopK(column, k).value;
      (forall a, b | 0 <= a < b < |top| :: Before(column, top[a].0, top[b].0)) &&
      (forall j, a | 0 <= j < |column| && !Selected(top, j) && 0 <= a < |top| :: Before(column, top[a].0, j))
  {
    var ranked := RankedIndices(column, |column|);
    var top := TopK(column, k).value;
    forall j, a | 0 <= j < |column| && !Selected(top, j) && 0 <= a < |top|
      ensures Before(column, top[a].0, j)
    {
      assert seq(|column|, i => i)[j] == j;
      assert j in multiset(seq(|column|, i => i));
      assert j in ranked;
      var p :| 0 <= p < |ranked| && ranked[p] == j;
      assert forall q | 0 <= q < |top| :: top[q].0 == ranked[q];
      assert |top| <= p;
    }
  }

  predicate Selected(top: seq<(nat, real)>, j: nat)
  {
    exists a | 0 <= a < |top| :: top[a].0 == j
  }

  // ---------------------------------------------------------------------
  // gather

  /** `data[i, index[i]]` with numpy's wrap-around for negative indices. */
  predicate ValidColumn(row: seq<real>, j: int)
  {
    -|row| <= j < |row|
  }

  function At(row: seq<real>, j: int): real
    requires ValidColumn(row, j)
  {
    if j < 0 then row[|row| + j] else row[j]
  }

  /**
   * `gather`: one element per row. An index list shorter than the rows, or a
   * column index out of range, raises IndexError.
   */
  method Gather(data: seq<seq<real>>, index: seq<int>) returns (r: Result<seq<real>>)
    ensures r.Ok? <==> |data| <= |index| && forall i | 0 <= i < |data| :: ValidColumn(data[i], index[i])
    ensures r.Ok? ==> |r.value| == |data| && forall i | 0 <= i < |data| :: r.value[i] == At(data[i], index[i])
    ensures r.Err? ==> r.error == IndexError
  {
    var result: seq<real> := [];
    for i := 0 to |data|
      invariant i <= |index| || i == 0
      invariant forall k | 0 <= k < i :: k < |index| && ValidColumn(data[k], index[k])
      invariant |result| == i && forall k | 0 <= k < i :: result[k] == At(data[k], index[k])
    {
      if i >= |index| || !ValidColumn(data[i], index[i]) {
        return Err(IndexError);
      }
      result := result + [At(data[i], index[i])];
    }
    return Ok(result);
  }

  // ---------------------------------------------------------------------
  // generate_increment

  /** Occurrences of `t` in `s`. */
  function Count(s: seq<int>, t: int): nat
  {
    if |s| == 0 then 0 else Count(s[..|s| - 1], t) + (if s[|s| - 1] == t then 1 else 0)
  }

  /** The number of tokens the loop may reach: the input plus 500, capped at the sequence length. */
  function TargetLength(validLength: nat): (target: nat)
    ensures target <= SeqLength && target <= validLength + MaxGenerateLength
    ensures target == SeqLength || target == validLength + MaxGenerateLength
  {
    Min(validLength + MaxGenerateLength, SeqLength)
  }

  /** The position the first network call looks at. */
  function FirstCurrentIndex(validLength: nat): (index: nat)
    ensures validLength > 0 ==> index + 1 == validLength
    ensures validLength == 0 ==> index == 0
  {
    if validLength - 1 > 0 then validLength - 1 else 0
  }

  /**
   * `generate_increment`: extends the input ids one sampled token at a time.
   * Sampling is a nondeterministic choice of a vocabulary index. The loop
   * stops on the end token or one short of the target length; an input
   * longer than the sequence length makes `np.pad` raise ValueError.
   * Returns the output ids and the final frequency table.
   */
  method GenerateIncrement(originInputs: seq<int>, endToken: int)
    returns (r: Result<seq<int>>, frequency: array<nat>)
    ensures r.Err? <==> |originInputs| > SeqLength
    ensures r.Ok? ==> |r.value| >= |originInputs| && r.value[..|originInputs|] == originInputs
    ensures r.Ok? ==>
      var outputs := r.value;
      var generated := outputs[|originInputs|..];
      (|originInputs| < TargetLength(|originInputs|) ==> |outputs| <= TargetLength(|originInputs|) - 1) &&
      (|originInputs| >= TargetLength(|originInputs|) ==> outputs == originInputs) &&
      (forall i | 0 <= i < |generated| :: 0 <= generated[i] < VocabSize && generated[i] != endToken) &&
      frequency.Length == VocabSize &&
      (forall t | 0 <= t < VocabSize :: frequency[t] == Count(generated, t))
  {
    var outputs := originInputs;
    var validLength := |originInputs|;
    var targetLength := TargetLength(validLength);
    frequency := new nat[VocabSize](_ => 0);
    if SeqLength - validLength < 0 {
      return Err(ValueError), frequency;
    }
    var currentIndex := FirstCurrentIndex(validLength);
    while validLength < targetLength
      invariant |outputs| == validLength >= |originInputs| && outputs[..|originInputs|] == originInputs
      invariant |originInputs| < targetLength ==> validLength <= targetLength - 1
      invariant |originInputs| >= targetLength ==> outputs == originInputs
      invariant forall i | |originInputs| <= i < |outputs| :: 0 <= outputs[i] < VocabSize && outputs[i] != endToken
      invariant forall t | 0 <= t < VocabSize :: frequency[t] == Count(outputs[|originInputs|..], t)
      decreases targetLength - validLength
    {
      var target: nat :| target < VocabSize;
      if target == endToken || validLength == targetLength - 1 {
        break;
      }
      ghost var before := outputs[|originInputs|..];
      frequency[target] := frequency[target] + 1;
      validLength := validLength + 1;
      currentIndex := 0;
      outputs := outputs + [target];
      assert outputs[|originInputs|..] == before + [target];
      assert forall t | 0 <= t < VocabSize :: Count(before + [target], t) == Count(before, t) + (if t == target then 1 else 0);
    }
    return Ok(outputs), frequency;
  }

  /** Every appended token is counted once: the frequencies add up to the number of generated tokens. */
  lemma {:induction false} CountsSum(s: seq<int>, n: nat)
    requires forall i | 0 <= i < |s| :: 0 <= s[i] < n
    ensures SumCounts(s, n) == |s|
  {
    if |s| > 0 {
      var init := s[..|s| - 1];
      assert s == init + [s[|s| - 1]];
      CountsSum(init, n);
      SumCountsSnoc(init, s[|s| - 1], n);
      assert SumCounts(s, n) == SumCounts(init, n) + 1;
    } else {
      SumCountsNil(n);
    }
  }

  lemma {:induction false} SumCountsNil(n: nat)
    ensures SumCounts([], n) == 0
  {
    if n > 0 {
      SumCountsNil(n - 1);
    }
  }

  function SumCounts(s: seq<int>, n: nat): nat
  {
    if n == 0 then 0 else SumCounts(s, n - 1) + Count(s, n - 1)
  }

  lemma {:induction false} SumCountsSnoc(s: seq<int>, t: int, n: nat)
    ensures SumCounts(s + [t], n) == SumCounts(s, n) + (if 0 <= t < n then 1 else 0)
  {
    assert (s + [t])[..|s + [t]| - 1] == s;
    if n > 0 {
      SumCountsSnoc(s, t, n - 1);
    }
  }
}
