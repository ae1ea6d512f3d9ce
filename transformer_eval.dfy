/**
 * The evaluation driver of the Transformer (official/nlp/Transformer/eval.py):
 * `load_weights`, which renames the decoder weights and aliases the shared
 * embedding table, and the writing of the predicted token ids, one line per
 * sentence. File reading and the network are left to the caller.
 */
module TransformerEval {
  import opened Wrappers
  import opened Strings
  import opened CheckpointKeys

  datatype CheckpointFormat = Npz | MindSporeCheckpoint

  /** A path ending in `.npz` is read with numpy, anything else as a MindSpore checkpoint. */
  function FormatOf(path: string): (f: CheckpointFormat)
    ensures f == Npz <==> EndsWith(path, ".npz")
  {
    if EndsWith(path, ".npz") then Npz else MindSporeCheckpoint
  }

  const DecoderPrefix: string := "tfm_decoder.decoder."
  const EmbeddingKey: string := "tfm_embedding_lookup.embedding_table"
  const DecoderEmbeddingKey: string := "tfm_decoder.decoder.tfm_embedding_lookup.embedding_table"

  /** The inference name of a stored weight: decoder weights move under `tfm_decoder.decoder.`. */
  function InferName(msname: string): (r: string)
    ensures Contains(msname, "tfm_decoder") ==> r == DecoderPrefix + msname
    ensures !Contains(msname, "tfm_decoder") ==> r == msname
  {
    if Contains(msname, "tfm_decoder") then DecoderPrefix + msname else msname
  }

  /**
   * Renaming never merges two weights: renamed names contain
   * `tfm_decoder` and kept ones do not.
   */
  lemma InferNameInjective(a: string, b: string)
    requires InferName(a) == InferName(b)
    ensures a == b
  {
    if Contains(a, "tfm_decoder") && Contains(b, "tfm_decoder") {
      assert a == (DecoderPrefix + a)[|DecoderPrefix|..];
      assert b == (DecoderPrefix + b)[|DecoderPrefix|..];
    } else if Contains(a, "tfm_decoder") {
      PrefixedContains(a);
    } else if Contains(b, "tfm_decoder") {
      PrefixedContains(b);
    }
  }

  lemma PrefixedContains(a: string)
    ensures Contains(DecoderPrefix + a, "tfm_decoder")
  {
    assert OccursAt(DecoderPrefix + a, "tfm_decoder", 0);
  }

  /**
   * The `weights` dict of `load_weights`: every stored weight under its
   * inference name, then the decoder's embedding table as an alias of the
   * shared one, whose absence raises KeyError.
   */
  method LoadWeights<V>(ckpt: seq<(string, V)>) returns (r: Result<map<string, V>>)
    ensures r.Err? <==> EmbeddingKey !in Remapped(ckpt, name => Keep(InferName(name)))
    ensures r.Err? ==> r.error == KeyError
    ensures r.Ok? ==> var w := Remapped(ckpt, name => Keep(InferName(name)));
      r.value == w[DecoderEmbeddingKey := w[EmbeddingKey]]
  {
    var weights := RemapKeys(ckpt, name => Keep(InferName(name)));
    if EmbeddingKey !in weights {
      return Err(KeyError);
    }
    weights := weights[DecoderEmbeddingKey := weights[EmbeddingKey]];
    return Ok(weights);
  }

  /** The shared table is found exactly when some stored weight is named by it. */
  lemma EmbeddingPresent<V>(ckpt: seq<(string, V)>)
    ensures EmbeddingKey in Remapped(ckpt, name => Keep(InferName(name))) <==>
      exists i | 0 <= i < |ckpt| :: ckpt[i].0 == EmbeddingKey
  {
    RemappedDomain(ckpt, name => Keep(InferName(name)), EmbeddingKey);
    EmbeddingKeyOutsideDecoder();
    forall i | 0 <= i < |ckpt| && InferName(ckpt[i].0) == EmbeddingKey ensures ckpt[i].0 == EmbeddingKey {
      if Contains(ckpt[i].0, "tfm_decoder") {
        PrefixedContains(ckpt[i].0);
      }
    }
  }

  lemma EmbeddingKeyOutsideDecoder()
    ensures !Contains(EmbeddingKey, "tfm_decoder")
  {
    forall i | 0 <= i <= |EmbeddingKey| - |"tfm_decoder"| ensures !OccursAt(EmbeddingKey, "tfm_decoder", i) {
      assert EmbeddingKey[i] != 't' || EmbeddingKey[i + 4] != 'd';
      assert EmbeddingKey[i..i + 11][0] == EmbeddingKey[i] && EmbeddingKey[i..i + 11][4] == EmbeddingKey[i + 4];
    }
  }

  datatype Parameter<V> = Parameter(name: string, data: V)

  /** The `parameter_dict` loop: each weight becomes a parameter named by its key. */
  method ToParameters<V>(weights: map<string, V>) returns (parameters: map<string, Parameter<V>>)
    ensures parameters.Keys == weights.Keys
    ensures forall k | k in weights :: parameters[k] == Parameter(k, weights[k])
  {
    parameters := map[];
    var rest := weights.Keys;
    while rest != {}
      invariant rest <= weights.Keys
      invariant parameters.Keys == weights.Keys - rest
      invariant forall k | k in parameters :: parameters[k] == Parameter(k, weights[k])
      decreases rest
    {
      var name :| name in rest;
      parameters := parameters[name := Parameter(name, weights[name])];
      rest := rest - {name};
    }
  }

  // ---------------------------------------------------------------------
  // Output

  /** The predictions of one batch: token ids per sentence, or per sentence and beam. */
  datatype Prediction = Ids(rows: seq<seq<int>>) | Beams(beams: seq<seq<seq<int>>>)

  /** `batch_out[:, 0]` on a beam prediction; a sentence without beams raises IndexError. */
  function FirstBeam(p: Prediction): (r: Result<seq<seq<int>>>)
    ensures p.Ids? ==> r == Ok(p.rows)
    ensures p.Beams? ==> (r.Err? <==> exists i | 0 <= i < |p.beams| :: |p.beams[i]| == 0)
    ensures p.Beams? && r.Ok? ==> |r.value| == |p.beams| && forall i | 0 <= i < |p.beams| :: r.value[i] == p.beams[i][0]
  {
    match p
    case Ids(rows) => Ok(rows)
    case Beams(beams) =>
      if exists i | 0 <= i < |beams| :: |beams[i]| == 0 then Err(IndexError)
      else Ok(seq(|beams|, i requires 0 <= i < |beams| && |beams[i]| > 0 => beams[i][0]))
  }

  /** The line written for one sentence, without its newline. */
  function Line(tokens: seq<int>): string
  {
    JoinInts(tokens, ' ')
  }

  /** The lines of one batch: the first `batchSize` sentences. */
  function BatchLines(p: Prediction, batchSize: nat): (r: Result<seq<string>>)
    ensures r.Ok? ==> |r.value| == batchSize
  {
    var rows :- FirstBeam(p);
    if |rows| < batchSize then Err(IndexError)
    else Ok(seq(batchSize, i requires 0 <= i < batchSize => Line(rows[i])))
  }

  /** The lines of the output file, batch after batch. */
  function OutputLines(predictions: seq<Prediction>, batchSize: nat): (r: Result<seq<string>>)
    ensures r.Ok? ==> |r.value| == |predictions| * batchSize
  {
    if |predictions| == 0 then Ok([])
    else
      var init :- OutputLines(predictions[..|predictions| - 1], batchSize);
      var last :- BatchLines(predictions[|predictions| - 1], batchSize);
      Ok(init + last)
  }

  /** Each written line reads back, split on spaces, as the sentence's token ids. */
  lemma LineRoundTrip(tokens: seq<int>)
    requires |tokens| >= 1
    ensures ParseAll(Split(Line(tokens), ' ')) == Ok(tokens)
  {
    ParseAllOfJoin(tokens, ' ');
  }

  /**
   * The writing loop of `run_transformer_eval`: for each batch and each
   * of the first `batch_size` rows, one space-joined line.
   */
  method WriteOutput(predictions: seq<Prediction>, batchSize: nat) returns (r: Result<seq<string>>)
    ensures r == OutputLines(predictions, batchSize)
  {
    var lines: seq<string> := [];
    for b := 0 to |predictions|
      invariant OutputLines(predictions[..b], batchSize) == Ok(lines)
    {
      assert predictions[..b + 1][..b] == predictions[..b];
      var batchOut := BatchLines(predictions[b], batchSize);
      if batchOut.Err? {
        OutputStaysFailed(predictions, batchSize, b + 1);
        return Err(batchOut.error);
      }
      lines := lines + batchOut.value;
    }
    assert predictions[..|predictions|] == predictions;
    return Ok(lines);
  }

  lemma {:induction false} OutputStaysFailed(predictions: seq<Prediction>, batchSize: nat, n: nat)
    requires 0 < n <= |predictions|
    requires OutputLines(predictions[..n - 1], batchSize).Ok? && BatchLines(predictions[n - 1], batchSize).Err?
    ensures OutputLines(predictions, batchSize) == Err(BatchLines(predictions[n - 1], batchSize).error)
  {
    if n == |predictions| {
      assert predictions[..|predictions| - 1] == predictions[..n - 1];
    } else {
      assert predictions[..|predictions| - 1][..n - 1] == predictions[..n - 1];
      OutputStaysFailed(predictions[..|predictions| - 1], batchSize, n);
    }
  }

  /** Line `b * batchSize + i` of the file holds row `i` of batch `b`. */
  lemma {:induction false} OutputLineAt(predictions: seq<Prediction>, batchSize: nat, b: nat, i: nat)
    requires OutputLines(predictions, batchSize).Ok?
    requires b < |predictions| && i < batchSize
    ensures FirstBeam(predictions[b]).Ok? && i < |FirstBeam(predictions[b]).value|
    ensures b * batchSize + i < |OutputLines(predictions, batchSize).value|
    ensures OutputLines(predictions, batchSize).value[b * batchSize + i] == Line(FirstBeam(predictions[b]).value[i])
  {
    var init := predictions[..|predictions| - 1];
    var initLines := OutputLines(init, batchSize).value;
    assert |initLines| == |init| * batchSize;
    if b < |predictions| - 1 {
      OutputLineAt(init, batchSize, b, i);
      assert init[b] == predictions[b];
      MulMonotone(b + 1, |init|, batchSize);
    } else {
      assert b == |init|;
    }
  }

  lemma MulMonotone(a: nat, c: nat, k: nat)
    requires a <= c
    ensures a * k <= c * k
  {
  }
}
