/**
 * Label encoding for the CRNN-Seq2Seq OCR data set writer
 * (research/cv/crnn_seq2seq_ocr/src/create_mindrecord_files.py).
 *
 * The vocabulary file holds one character per line. Each line maps to its
 * line number, the reverse table is padded to a fixed number of classes and
 * a space is put last. An annotation is encoded as
 * go-id, one id per character, eos-id; training records pad that label to
 * the maximal length, mask the real positions and shift it left by one to
 * form the decoder target.
 *
 * File-system access is modelled by its outcome: a missing file is `None`,
 * an existing one is given by its lines, and "does this image exist" is a
 * predicate passed in.
 */
module OcrMindrecord {
  import opened Wrappers
  import opened Strings

  /** Number of character classes before the trailing space. */
  const CharactersClass: nat := 9999

  // ---------------------------------------------------------------------
  // initialize_vocabulary

  /** `[line.strip() for line in voc_file]`. */
  function StrippedLines(lines: seq<string>): (r: seq<string>)
    ensures |r| == |lines|
    ensures forall i | 0 <= i < |lines| :: r[i] == StripChars(lines[i], Whitespace)
  {
    seq(|lines|, i requires 0 <= i < |lines| => StripChars(lines[i], Whitespace))
  }

  /** `{x: y for (y, x) in enumerate(words)}`: later lines overwrite earlier ones. */
  function IndexMap(words: seq<string>): map<string, int>
  {
    if |words| == 0 then map[]
    else IndexMap(words[..|words| - 1])[words[|words| - 1] := |words| - 1]
  }

  /** Every line is a key, and nothing else is. */
  lemma {:induction false} IndexMapDomain(words: seq<string>, w: string)
    ensures w in IndexMap(words) <==> w in words
  {
    if |words| > 0 {
      var init := words[..|words| - 1];
      IndexMapDomain(init, w);
      assert words == init + [words[|words| - 1]];
    }
  }

  /** A line that appears several times keeps the index of its last occurrence. */
  lemma {:induction false} IndexMapLast(words: seq<string>, i: nat)
    requires i < |words|
    requires forall j | i < j < |words| :: words[j] != words[i]
    ensures words[i] in IndexMap(words) && IndexMap(words)[words[i]] == i
  {
    if i < |words| - 1 {
      var init := words[..|words| - 1];
      assert init[i] == words[i];
      IndexMapLast(init, i);
    }
  }

  datatype Vocabulary = Vocabulary(vocab: map<string, int>, revVocab: seq<string>)

  /** What `initialize_vocabulary` returns for a file with these lines. */
  function VocabularyOf(lines: seq<string>): Vocabulary
    requires |lines| <= CharactersClass
  {
    var words := StrippedLines(lines);
    Vocabulary(IndexMap(words)[" " := CharactersClass],
               words + seq(CharactersClass - |lines|, _ => "") + [" "])
  }

  /**
   * `initialize_vocabulary`: `None` stands for a path that does not exist.
   * Both a missing file and more than 9999 lines raise ValueError; exactly
   * 9999 lines are accepted.
   */
  method InitializeVocabulary(file: Option<seq<string>>) returns (r: Result<Vocabulary>)
    ensures r.Err? <==> file.None? || |file.value| > CharactersClass
    ensures r.Err? ==> r.error == ValueError
    ensures r.Ok? ==> r.value == VocabularyOf(file.value)
  {
    if file.None? {
      return Err(ValueError);
    }
    var lines := file.value;
    var revVocab := StrippedLines(lines);
    var vocab: map<string, int> := map[];
    for i := 0 to |revVocab|
      invariant vocab == IndexMap(revVocab[..i])
    {
      assert revVocab[..i + 1][..i] == revVocab[..i];
      vocab := vocab[revVocab[i] := i];
    }
    assert revVocab[..|revVocab|] == revVocab;
    var reservedCharSize := CharactersClass - |revVocab|;
    if reservedCharSize < 0 {
      return Err(ValueError);
    }
    var words := revVocab;
    for k := 0 to reservedCharSize
      invariant revVocab == words + seq(k, _ => "")
    {
      revVocab := revVocab + [""];
    }
    vocab := vocab[" " := |revVocab|];
    revVocab := revVocab + [" "];
    return Ok(Vocabulary(vocab, revVocab));
  }

  /** The reverse table has 10000 entries, the space last at index 9999. */
  lemma VocabularyShape(lines: seq<string>)
    requires |lines| <= CharactersClass
    ensures var v := VocabularyOf(lines);
      |v.revVocab| == CharactersClass + 1 &&
      v.revVocab[CharactersClass] == " " && v.vocab[" "] == CharactersClass &&
      (forall i | |lines| <= i < CharactersClass :: v.revVocab[i] == "")
  {
  }

  /**
   * Every stripped line other than the space maps to a position at which
   * the reverse table holds that same line, so `rev_vocab[vocab[c]] == c`.
   */
  lemma VocabularyRoundTrip(lines: seq<string>, w: string)
    requires |lines| <= CharactersClass
    requires w in VocabularyOf(lines).vocab
    ensures var v := VocabularyOf(lines);
      0 <= v.vocab[w] < |v.revVocab| && v.revVocab[v.vocab[w]] == w
  {
    var words := StrippedLines(lines);
    if w != " " {
      IndexMapDomain(words, w);
      var i :| 0 <= i < |words| && words[i] == w;
      var j := LastOccurrence(words, i);
      IndexMapLast(words, j);
    }
  }

  /** The last position holding the same word as position `i`. */
  lemma LastOccurrence(words: seq<string>, i: nat) returns (j: nat)
    requires i < |words|
    ensures i <= j < |words| && words[j] == words[i]
    ensures forall k | j < k < |words| :: words[k] != words[i]
    decreases |words| - i
  {
    if exists k | i < k < |words| :: words[k] == words[i] {
      var k :| i < k < |words| && words[k] == words[i];
      j := LastOccurrence(words, k);
    } else {
      j := i;
    }
  }

  // ---------------------------------------------------------------------
  // serialize_annotation

  /** The label is usable: not a special label and every character in the vocabulary. */
  predicate Encodable(lex: string, vocab: map<string, int>, labelsNotUse: seq<string>)
  {
    lex !in labelsNotUse && forall i | 0 <= i < |lex| :: [lex[i]] in vocab
  }

  /** The ids of the characters of `lex`, in order. */
  function CharIds(lex: string, vocab: map<string, int>): seq<int>
    requires forall i | 0 <= i < |lex| :: [lex[i]] in vocab
  {
    seq(|lex|, i requires 0 <= i < |lex| => vocab[[lex[i]]])
  }

  /**
   * `serialize_annotation`: `None` for a special label or a character outside
   * the vocabulary, otherwise go-id, the character ids, eos-id.
   */
  method SerializeAnnotation(lex: string, vocab: map<string, int>, labelsNotUse: seq<string>,
                             goId: int, eosId: int) returns (word: Option<seq<int>>)
    ensures word.None? <==> !Encodable(lex, vocab, labelsNotUse)
    ensures word.Some? ==> word.value == [goId] + CharIds(lex, vocab) + [eosId]
  {
    for j := 0 to |labelsNotUse|
      invariant lex !in labelsNotUse[..j]
    {
      if lex == labelsNotUse[j] {
        return None;
      }
    }
    assert labelsNotUse[..|labelsNotUse|] == labelsNotUse;
    var w := [goId];
    for i := 0 to |lex|
      invariant forall k | 0 <= k < i :: [lex[k]] in vocab
      invariant w == [goId] + seq(i, k requires 0 <= k < i && [lex[k]] in vocab => vocab[[lex[k]]])
    {
      if [lex[i]] !in vocab {
        return None;
      }
      w := w + [vocab[[lex[i]]]];
    }
    w := w + [eosId];
    return Some(w);
  }

  /** A serialised label is two longer than the annotation and decodes back through `rev_vocab`. */
  lemma SerializedDecodes(lines: seq<string>, lex: string, labelsNotUse: seq<string>, goId: int, eosId: int, i: nat)
    requires |lines| <= CharactersClass
    requires Encodable(lex, VocabularyOf(lines).vocab, labelsNotUse)
    requires i < |lex|
    ensures var v := VocabularyOf(lines);
      var word := [goId] + CharIds(lex, v.vocab) + [eosId];
      |word| == |lex| + 2 && 0 <= word[i + 1] < |v.revVocab| && v.revVocab[word[i + 1]] == [lex[i]]
  {
    VocabularyRoundTrip(lines, [lex[i]]);
  }

  // ---------------------------------------------------------------------
  // create_fsns_label

  /** One annotation line: the file name before the first tab, the label up to the first newline after it. */
  function ParseAnnotationLine(line: string): (r: Result<(string, string)>)
    ensures r.Err? <==> '\t' !in line
    ensures r.Ok? ==> r.value.0 == Split(line, '\t')[0] && '\t' !in r.value.0 && '\n' !in r.value.1
    ensures r.Ok? ==> r.value.1 == Split(Split(line, '\t')[1], '\n')[0]
    ensures r.Ok? ==> line[|r.value.0|] == '\t' && StartsWith(line[|r.value.0| + 1..], r.value.1) && '\t' !in r.value.1
  {
    var fileName := FirstPart(line, '\t');
    var second :- SecondPart(line, '\t');
    Ok((fileName, FirstPart(second, '\n')))
  }

  /** The (image path, label) pairs that receive ids, in line order. */
  function LabelledImages(imageDir: string, lines: seq<string>, isFile: string -> bool): Result<seq<(string, string)>>
  {
    if |lines| == 0 then Ok([])
    else
      var prev :- LabelledImages(imageDir, lines[..|lines| - 1], isFile);
      var entry :- ParseAnnotationLine(lines[|lines| - 1]);
      var path := PathJoin(imageDir, entry.0);
      if isFile(path) && entry.1 != "" then Ok(prev + [(path, entry.1)]) else Ok(prev)
  }

  /** Only existing images with a non-empty label are kept; nothing is invented. */
  lemma {:induction false} LabelledImagesKept(imageDir: string, lines: seq<string>, isFile: string -> bool)
    requires LabelledImages(imageDir, lines, isFile).Ok?
    ensures var kept := LabelledImages(imageDir, lines, isFile).value;
      |kept| <= |lines| &&
      forall k | 0 <= k < |kept| :: isFile(kept[k].0) && kept[k].1 != ""
  {
    if |lines| > 0 {
      LabelledImagesKept(imageDir, lines[..|lines| - 1], isFile);
    }
  }

  /** A line without a tab makes the whole call raise IndexError. */
  lemma {:induction false} LabelledImagesNeedTabs(imageDir: string, lines: seq<string>, isFile: string -> bool)
    ensures LabelledImages(imageDir, lines, isFile).Ok? <==> forall i | 0 <= i < |lines| :: '\t' in lines[i]
  {
    if |lines| > 0 {
      LabelledImagesNeedTabs(imageDir, lines[..|lines| - 1], isFile);
      assert forall i | 0 <= i < |lines| - 1 :: lines[..|lines| - 1][i] == lines[i];
    }
  }

  datatype FsnsLabels = FsnsLabels(images: seq<int>, imageFiles: map<int, string>, imageAnnos: map<int, string>)

  /** The three tables for the kept pairs: ids 0, 1, ... in order. */
  function Numbered(kept: seq<(string, string)>): (r: FsnsLabels)
    ensures |r.images| == |kept| && forall i | 0 <= i < |kept| :: r.images[i] == i
    ensures forall id :: id in r.imageFiles <==> 0 <= id < |kept|
    ensures forall id :: id in r.imageAnnos <==> 0 <= id < |kept|
    ensures forall id | 0 <= id < |kept| :: r.imageFiles[id] == kept[id].0 && r.imageAnnos[id] == kept[id].1
  {
    FsnsLabels(seq(|kept|, i => i),
               map id | 0 <= id < |kept| :: kept[id].0,
               map id | 0 <= id < |kept| :: kept[id].1)
  }

  /**
   * `create_fsns_label`: the annotation files are given by their lines,
   * concatenated in order. Ids are consecutive from 0 in line order.
   */
  method CreateFsnsLabel(imageDirExists: bool, imageDir: string, lines: seq<string>, isFile: string -> bool)
    returns (r: Result<FsnsLabels>)
    ensures !imageDirExists ==> r == Err(ValueError)
    ensures imageDirExists && LabelledImages(imageDir, lines, isFile).Err? ==> r == Err(IndexError)
    ensures imageDirExists && LabelledImages(imageDir, lines, isFile).Ok? ==>
      r == Ok(Numbered(LabelledImages(imageDir, lines, isFile).value))
  {
    if !imageDirExists {
      return Err(ValueError);
    }
    var images: seq<int> := [];
    var files: map<int, string> := map[];
    var annos: map<int, string> := map[];
    var imgId := 0;
    for n := 0 to |lines|
      invariant LabelledImages(imageDir, lines[..n], isFile).Ok?
      invariant imgId == |LabelledImages(imageDir, lines[..n], isFile).value|
      invariant FsnsLabels(images, files, annos) == Numbered(LabelledImages(imageDir, lines[..n], isFile).value)
    {
      assert lines[..n + 1][..n] == lines[..n];
      ghost var kept := LabelledImages(imageDir, lines[..n], isFile).value;
      var parsed := ParseAnnotationLine(lines[n]);
      if parsed.Err? {
        LabelledImagesNeedTabs(imageDir, lines, isFile);
        return Err(IndexError);
      }
      var (fileName, labels) := parsed.value;
      var imagePath := PathJoin(imageDir, fileName);
      if !isFile(imagePath) {
        continue;
      }
      if labels != "" {
        NumberedAppend(kept, (imagePath, labels));
        images := images + [imgId];
        files := files[imgId := imagePath];
        annos := annos[imgId := labels];
        imgId := imgId + 1;
      }
    }
    assert lines[..|lines|] == lines;
    return Ok(FsnsLabels(images, files, annos));
  }

  lemma NumberedAppend(kept: seq<(string, string)>, e: (string, string))
    ensures var t := Numbered(kept);
      Numbered(kept + [e]) ==
      FsnsLabels(t.images + [|kept|], t.imageFiles[|kept| := e.0], t.imageAnnos[|kept| := e.1])
  {
  }

  // ---------------------------------------------------------------------
  // Training record layout in fsns_train_data_to_mindrecord

  datatype TrainRecord = TrainRecord(decoderInput: seq<int>, decoderMask: seq<int>, decoderTarget: seq<int>)

  /**
   * Pads a serialised ids to `maxLength`, builds the mask of
   * `|ids| - goShift` ones followed by zeros, and the target shifted left
   * by one. `np.ones`/`np.zeros` of a negative length raise ValueError.
   * `ids` is a serialised label, so it holds at least go-id and eos-id.
   */
  function MakeTrainRecord(ids: seq<int>, maxLength: int, goShift: int): (r: Result<Option<TrainRecord>>)
    requires |ids| >= 2
    ensures r.Ok? && r.value.None? <==> |ids| > maxLength
    ensures r.Ok? && r.value.Some? ==>
      var t := r.value.value;
      |t.decoderInput| == maxLength && t.decoderInput[..|ids|] == ids &&
      (forall i | |ids| <= i < maxLength :: t.decoderInput[i] == 0) &&
      |t.decoderMask| == maxLength &&
      (forall i | 0 <= i < maxLength :: t.decoderMask[i] == if i < |ids| - goShift then 1 else 0) &&
      |t.decoderTarget| == maxLength - 1 && maxLength >= 2 &&
      (forall i | 0 <= i < maxLength - 1 :: t.decoderTarget[i] == t.decoderInput[i + 1])
    ensures r.Err? <==> |ids| <= maxLength && (|ids| - goShift < 0 || maxLength - (|ids| - goShift) < 0)
  {
    if |ids| > maxLength then Ok(None)
    else
      var padded := ids + seq(maxLength - |ids|, _ => 0);
      var oneMaskLen := |ids| - goShift;
      if oneMaskLen < 0 || maxLength - oneMaskLen < 0 then Err(ValueError)
      else
        var mask := seq(oneMaskLen, _ => 1) + seq(maxLength - oneMaskLen, _ => 0);
        Ok(Some(TrainRecord(padded, mask, padded[1..])))
  }

  /**
   * The per-image step of the writer loop: annotations longer than
   * `maxLength - 2` and labels that do not serialise are skipped (`Ok(None)`).
   */
  method EncodeTrainSample(annotation: string, vocab: map<string, int>, labelsNotUse: seq<string>,
                           goId: int, eosId: int, maxLength: int, goShift: int)
    returns (r: Result<Option<TrainRecord>>)
    ensures |annotation| > maxLength - 2 ==> r == Ok(None)
    ensures |annotation| <= maxLength - 2 && !Encodable(annotation, vocab, labelsNotUse) ==> r == Ok(None)
    ensures |annotation| <= maxLength - 2 && Encodable(annotation, vocab, labelsNotUse) ==>
      r == MakeTrainRecord([goId] + CharIds(annotation, vocab) + [eosId], maxLength, goShift) &&
      (r.Ok? ==> r.value.Some?)
  {
    if |annotation| > maxLength - 2 {
      return Ok(None);
    }
    var ids := SerializeAnnotation(annotation, vocab, labelsNotUse, goId, eosId);
    if ids.None? {
      return Ok(None);
    }
    r := MakeTrainRecord(ids.value, maxLength, goShift);
  }
}
