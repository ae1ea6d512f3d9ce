/**
 * Feature padding of the LUKE reading-comprehension loader
 * (research/nlp/luke/src/reading_comprehension/dataProcessing.py).
 *
 * Each feature is turned into a fixed-size record: word-level fields are
 * padded or truncated to the maximal sequence length, entity-level fields
 * to the maximal entity count. Evaluation records carry the feature's
 * position, training records the first answer span.
 */
module LukeCollate {
  import opened Wrappers
  import opened Strings

  /** Segment id of the second segment and whether an extra separator is added. */
  datatype SegmentChoice = SegmentChoice(segmentBId: int, addExtraSepToken: bool)

  /** RoBERTa-style models use segment 0 for both parts and two separators between them. */
  function ChooseSegments(bertModelName: string): (c: SegmentChoice)
    ensures Contains(bertModelName, "roberta") ==> c == SegmentChoice(0, true)
    ensures !Contains(bertModelName, "roberta") ==> c == SegmentChoice(1, false)
  {
    if Contains(bertModelName, "roberta") then SegmentChoice(0, true) else SegmentChoice(1, false)
  }

  /** `value[:max_len]` if too long, else `value + [padding_value] * (max_len - len(value))`. */
  function PadOrTruncate<T>(value: seq<T>, paddingValue: T, maxLen: nat): (r: seq<T>)
    ensures |r| == maxLen
    ensures |value| >= maxLen ==> r == value[..maxLen]
    ensures |value| < maxLen ==> r[..|value|] == value && forall i | |value| <= i < maxLen :: r[i] == paddingValue
  {
    if |value| > maxLen then value[..maxLen] else value + seq(maxLen - |value|, _ => paddingValue)
  }

  /**
   * The `entity_position_ids` case: padding rows are as wide as the first
   * row, so an empty list raises IndexError even when nothing is padded.
   */
  function PadPositionRows(value: seq<seq<int>>, paddingValue: int, maxLen: nat): (r: Result<seq<seq<int>>>)
    ensures r.Err? <==> |value| == 0
    ensures r.Ok? ==> |r.value| == maxLen
    ensures r.Ok? && |value| >= maxLen ==> r.value == value[..maxLen]
    ensures r.Ok? && |value| < maxLen ==>
      r.value[..|value|] == value &&
      forall i | |value| <= i < maxLen :: r.value[i] == seq(|value[0]|, _ => paddingValue)
  {
    if |value| > maxLen then Ok(value[..maxLen])
    else if |value| == 0 then Err(IndexError)
    else Ok(value + seq(maxLen - |value|, _ => seq(|value[0]|, _ => paddingValue)))
  }

  /** Truncating or padding twice to the same length changes nothing. */
  lemma PadOrTruncateIdempotent<T>(value: seq<T>, paddingValue: T, maxLen: nat)
    ensures PadOrTruncate(PadOrTruncate(value, paddingValue, maxLen), paddingValue, maxLen) ==
            PadOrTruncate(value, paddingValue, maxLen)
  {
  }

  datatype Feature = Feature(
    wordIds: seq<int>, wordSegmentIds: seq<int>, wordAttentionMask: seq<int>,
    entityIds: seq<int>, entityPositionIds: seq<seq<int>>, entitySegmentIds: seq<int>,
    entityAttentionMask: seq<int>, startPositions: seq<int>, endPositions: seq<int>)

  datatype Target = ExampleIndex(index: nat) | Span(startPosition: int, endPosition: int)

  datatype Record = Record(
    wordIds: seq<int>, wordAttentionMask: seq<int>, wordSegmentIds: seq<int>,
    entityIds: seq<int>, entityAttentionMask: seq<int>, entityPositionIds: seq<seq<int>>,
    entitySegmentIds: seq<int>, target: Target)

  datatype Options = Options(padTokenId: int, maxSeqLength: nat, maxEntityLength: nat,
                             noEntity: bool, evaluate: bool)

  /**
   * `collate_fn` as written: with `no_entity` it calls `fill_` on a Python
   * list, which raises AttributeError.
   */
  function CollateAsWritten(index: nat, f: Feature, opt: Options): (r: Result<Record>)
    ensures opt.noEntity && |f.entityPositionIds| > 0 ==> r == Err(AttributeError)
  {
    var positions :- PadPositionRows(f.entityPositionIds, -1, opt.maxEntityLength);
    if opt.noEntity then Err(AttributeError)
    else Collated(index, f, opt, positions, PadOrTruncate(f.entityAttentionMask, 0, opt.maxEntityLength))
  }

  /** The record once the fields are padded; training needs a non-empty answer list. */
  function Collated(index: nat, f: Feature, opt: Options, positions: seq<seq<int>>, entityMask: seq<int>): Result<Record>
  {
    var target :-
      if opt.evaluate then Ok(ExampleIndex(index))
      else if |f.startPositions| == 0 || |f.endPositions| == 0 then Err(IndexError)
      else Ok(Span(f.startPositions[0], f.endPositions[0]));
    Ok(Record(
      PadOrTruncate(f.wordIds, opt.padTokenId, opt.maxSeqLength),
      PadOrTruncate(f.wordAttentionMask, 0, opt.maxSeqLength),
      PadOrTruncate(f.wordSegmentIds, 0, opt.maxSeqLength),
      PadOrTruncate(f.entityIds, 0, opt.maxEntityLength),
      entityMask,
      positions,
      PadOrTruncate(f.entitySegmentIds, 0, opt.maxEntityLength),
      target))
  }

  /**
   * `collate_fn` as evidently intended: with `no_entity` the entity
   * attention mask is all zeros.
   */
  function Collate(index: nat, f: Feature, opt: Options): (r: Result<Record>)
    ensures r.Err? <==> |f.entityPositionIds| == 0 ||
                        (!opt.evaluate && (|f.startPositions| == 0 || |f.endPositions| == 0))
    ensures r.Ok? ==>
      var rec := r.value;
      |rec.wordIds| == |rec.wordAttentionMask| == |rec.wordSegmentIds| == opt.maxSeqLength &&
      |rec.entityIds| == |rec.entityAttentionMask| == |rec.entityPositionIds| == |rec.entitySegmentIds| == opt.maxEntityLength &&
      (forall i | |f.wordIds| <= i < opt.maxSeqLength :: rec.wordIds[i] == opt.padTokenId) &&
      (forall i | |f.entityPositionIds| <= i < opt.maxEntityLength :: rec.entityPositionIds[i] == seq(|f.entityPositionIds[0]|, _ => -1)) &&
      (opt.noEntity ==> forall i | 0 <= i < opt.maxEntityLength :: rec.entityAttentionMask[i] == 0) &&
      (opt.evaluate ==> rec.target == ExampleIndex(index)) &&
      (!opt.evaluate ==> rec.target == Span(f.startPositions[0], f.endPositions[0]))
  {
    var positions :- PadPositionRows(f.entityPositionIds, -1, opt.maxEntityLength);
    var entityMask := PadOrTruncate(f.entityAttentionMask, 0, opt.maxEntityLength);
    Collated(index, f, opt, positions, if opt.noEntity then seq(opt.maxEntityLength, _ => 0) else entityMask)
  }

  /** Without `no_entity` the two agree, and with it only the intended version produces a record. */
  lemma CollateAgreesWithoutNoEntity(index: nat, f: Feature, opt: Options)
    ensures !opt.noEntity ==> CollateAsWritten(index, f, opt) == Collate(index, f, opt)
    ensures opt.noEntity && |f.entityPositionIds| > 0 && (opt.evaluate || (|f.startPositions| > 0 && |f.endPositions| > 0)) ==>
      CollateAsWritten(index, f, opt).Err? && Collate(index, f, opt).Ok?
  {
  }

  /** A concrete input on which the written code fails: one entity, `no_entity` set. */
  lemma NoEntityFails()
    ensures var f := Feature([1], [0], [1], [7], [[3]], [0], [1], [0], [0]);
      var opt := Options(1, 4, 2, true, true);
      CollateAsWritten(0, f, opt) == Err(AttributeError) &&
      Collate(0, f, opt).Ok? && Collate(0, f, opt).value.entityAttentionMask == [0, 0]
  {
  }

  /**
   * The loader's final loop with a given `collate_fn`: one record per
   * feature, in feature order, numbered by position; the first failing
   * feature stops it with its error.
   */
  method BuildDatasetWith(features: seq<Feature>, opt: Options, collate: (nat, Feature, Options) -> Result<Record>)
    returns (r: Result<seq<Record>>)
    ensures r.Ok? <==> forall i | 0 <= i < |features| :: collate(i, features[i], opt).Ok?
    ensures r.Ok? ==> |r.value| == |features|
    ensures r.Ok? ==> forall i | 0 <= i < |features| :: r.value[i] == collate(i, features[i], opt).value
    ensures r.Err? ==> exists i | 0 <= i < |features| ::
      (forall k | 0 <= k < i :: collate(k, features[k], opt).Ok?) && collate(i, features[i], opt) == Err(r.error)
  {
    var dataset: seq<Record> := [];
    for i := 0 to |features|
      invariant |dataset| == i
      invariant forall k | 0 <= k < i :: collate(k, features[k], opt).Ok? && dataset[k] == collate(k, features[k], opt).value
    {
      var rec := collate(i, features[i], opt);
      if rec.Err? {
        return Err(rec.error);
      }
      dataset := dataset + [rec.value];
    }
    return Ok(dataset);
  }

  /**
   * The loop as written, over `CollateAsWritten`: with `no_entity` the
   * first feature already fails, with IndexError when it has no entity
   * position and with AttributeError otherwise.
   */
  method BuildDatasetAsWritten(features: seq<Feature>, opt: Options) returns (r: Result<seq<Record>>)
    ensures r.Ok? <==> forall i | 0 <= i < |features| :: CollateAsWritten(i, features[i], opt).Ok?
    ensures r.Ok? ==> |r.value| == |features|
    ensures r.Ok? ==> forall i | 0 <= i < |features| :: r.value[i] == CollateAsWritten(i, features[i], opt).value
    ensures opt.noEntity && |features| > 0 ==>
      r == Err(if |features[0].entityPositionIds| == 0 then IndexError else AttributeError)
  {
    r := BuildDatasetWith(features, opt, CollateAsWritten);
    if opt.noEntity && |features| > 0 {
      var i :| 0 <= i < |features| && (forall k | 0 <= k < i :: CollateAsWritten(k, features[k], opt).Ok?) &&
        CollateAsWritten(i, features[i], opt) == Err(r.error);
      assert i == 0 by {
        assert CollateAsWritten(0, features[0], opt).Err?;
      }
    }
  }

  /** The loop over the intended `Collate`, which the rest of the model uses. */
  method BuildDataset(features: seq<Feature>, opt: Options) returns (r: Result<seq<Record>>)
    ensures r.Ok? <==> forall i | 0 <= i < |features| :: Collate(i, features[i], opt).Ok?
    ensures r.Ok? ==> |r.value| == |features|
    ensures r.Ok? ==> forall i | 0 <= i < |features| :: r.value[i] == Collate(i, features[i], opt).value
  {
    r := BuildDatasetWith(features, opt, Collate);
  }
}
