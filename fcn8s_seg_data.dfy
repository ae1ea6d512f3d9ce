/**
 * The FCN8s segmentation-data converter
 * (research/cv/FCN8s/src/data/build_seg_data.py): each line of the data
 * list names an image and its label; samples are buffered and handed to
 * the MindRecord writer 1000 at a time, with the remainder written once at
 * the end. The list is taken as already read (and, when enabled,
 * shuffled); a sample records the two files it reads rather than their
 * bytes.
 */
module Fcn8sSegData {
  import opened Wrappers
  import opened Strings

  /** Samples are flushed to the writer in groups of this size. */
  const FlushEvery: nat := 1000

  /** One record: `file_name`, and the files `data` and `label` are read from. */
  datatype Sample = Sample(fileName: string, dataPath: string, labelPath: string)

  /**
   * One line of the list: its first two space-separated fields, stripped of
   * newlines, are the image and label paths; a line without a space raises
   * IndexError.
   */
  function SampleOf(line: string, dataRoot: string): (r: Result<Sample>)
    ensures r.Err? <==> ' ' !in line
    ensures r.Err? ==> r.error == IndexError
    ensures r.Ok? ==> '/' !in r.value.fileName && EndsWith(r.value.dataPath, r.value.fileName)
  {
    var parts := Split(line, ' ');
    if |parts| < 2 then Err(IndexError)
    else SampleFromFields(StripChars(parts[0], {'\n'}), StripChars(parts[1], {'\n'}), dataRoot)
  }

  /** The sample of an image path and a label path: the image's file name and both paths under the root. */
  function SampleFromFields(imgPath: string, labelPath: string, dataRoot: string): (r: Result<Sample>)
    ensures r.Ok? && '/' !in r.value.fileName && EndsWith(r.value.dataPath, r.value.fileName)
    ensures r.value.fileName == LastPart(imgPath, '/')
  {
    var fileName := LastPart(imgPath, '/');
    PathJoinEndsWith(dataRoot, imgPath);
    EndsWithTransitive(PathJoin(dataRoot, imgPath), imgPath, fileName);
    Ok(Sample(fileName, PathJoin(dataRoot, imgPath), PathJoin(dataRoot, labelPath)))
  }

  lemma EndsWithTransitive(a: string, b: string, c: string)
    requires EndsWith(a, b) && EndsWith(b, c)
    ensures EndsWith(a, c)
  {
    assert a[|a| - |c|..] == b[|b| - |c|..];
  }

  /** A list line written as `image label\n` gives back its image name and both paths. */
  lemma SampleOfListLine(img: string, lbl: string, dataRoot: string)
    requires ' ' !in img && ' ' !in lbl && '\n' !in img && '\n' !in lbl
    ensures SampleOf(img + " " + lbl + "\n", dataRoot) ==
      Ok(Sample(LastPart(img, '/'), PathJoin(dataRoot, img), PathJoin(dataRoot, lbl)))
  {
    var line := img + " " + lbl + "\n";
    SplitListLine(img, lbl);
    assert StripChars(img, {'\n'}) == img;
    StripTrailingNewline(lbl);
  }

  lemma SplitListLine(img: string, lbl: string)
    requires ' ' !in img && ' ' !in lbl
    ensures Split(img + " " + lbl + "\n", ' ') == [img, lbl + "\n"]
  {
    var parts := [img, lbl + "\n"];
    assert Join(parts[1..], ' ') == lbl + "\n";
    assert Join(parts, ' ') == img + " " + lbl + "\n";
    assert ' ' !in lbl + "\n";
    SplitJoin(parts, ' ');
  }

  lemma StripTrailingNewline(s: string)
    requires '\n' !in s
    ensures StripChars(s + "\n", {'\n'}) == s
  {
    var t := s + "\n";
    if |s| > 0 {
      assert t[0] == s[0];
      assert t[..|t| - 1] == s;
    } else {
      assert t[1..] == "";
    }
  }

  /** The result of every line of the list. */
  function ParsedLines(lines: seq<string>, dataRoot: string): (rs: seq<Result<Sample>>)
    ensures |rs| == |lines|
    ensures forall j | 0 <= j < |lines| :: rs[j] == SampleOf(lines[j], dataRoot)
  {
    seq(|lines|, j requires 0 <= j < |lines| => SampleOf(lines[j], dataRoot))
  }

  /** The samples of the lines before the first one that fails. */
  function LeadingSamples(results: seq<Result<Sample>>): (r: seq<Sample>)
    ensures |r| <= |results|
    ensures forall j | 0 <= j < |r| :: results[j] == Ok(r[j])
    ensures |r| < |results| ==> results[|r|].Err?
  {
    if |results| == 0 then []
    else match results[0]
      case Err(_) => []
      case Ok(s) =>
        var rest := LeadingSamples(results[1..]);
        var r := [s] + rest;
        assert forall j | 1 <= j < |r| :: results[j] == results[1..][j - 1] && r[j] == rest[j - 1];
        r
  }

  /** The leading samples stop at the first failing line and continue past a parsed one. */
  lemma LeadingStep(results: seq<Result<Sample>>, n: nat)
    requires n < |results| && n <= |LeadingSamples(results)|
    ensures var leading := LeadingSamples(results);
      (results[n].Err? ==> leading[..n] == leading) &&
      (results[n].Ok? ==> n < |leading| && leading[..n + 1] == leading[..n] + [results[n].value])
  {
    var leading := LeadingSamples(results);
    if n < |leading| {
      assert results[n] == Ok(leading[n]);
      assert leading[..n + 1] == leading[..n] + [leading[n]];
    } else {
      assert n == |leading| && results[n].Err?;
      assert leading[..n] == leading;
    }
  }

  /** The buffer state: the groups already written and the samples waiting in `data_list`. */
  datatype Buffered = Buffered(flushed: seq<seq<Sample>>, pending: seq<Sample>)

  /** The buffer after appending `samples` one by one, flushing whenever the count reaches a multiple of 1000. */
  function AfterSamples(samples: seq<Sample>): Buffered
  {
    if |samples| == 0 then Buffered([], [])
    else
      var n := |samples|;
      var b := AfterSamples(samples[..n - 1]);
      var pending := b.pending + [samples[n - 1]];
      if n % FlushEvery == 0 then Buffered(b.flushed + [pending], [])
      else Buffered(b.flushed, pending)
  }

  /**
   * The buffer loses and repeats nothing: the flushed groups and the
   * pending samples are the samples in order; every flushed group holds
   * 1000 samples, and fewer than 1000 wait.
   */
  lemma {:induction false} AfterSamplesKeepsOrder(samples: seq<Sample>)
    ensures KeepsOrder(AfterSamples(samples), samples)
  {
    if |samples| > 0 {
      var n := |samples|;
      AfterSamplesKeepsOrder(samples[..n - 1]);
      assert samples == samples[..n - 1] + [samples[n - 1]];
      KeepsOrderStep(AfterSamples(samples[..n - 1]), samples[..n - 1], samples[n - 1]);
      AfterSamplesSnoc(samples[..n - 1], samples[n - 1]);
    }
  }

  /** The flushed groups then the pending samples are `samples`; every group is full, and fewer than 1000 wait. */
  predicate KeepsOrder(b: Buffered, samples: seq<Sample>)
  {
    Flatten(b.flushed) + b.pending == samples && AllFull(b.flushed) && |b.pending| == |samples| % FlushEvery
  }

  predicate AllFull(groups: seq<seq<Sample>>)
  {
    forall g | g in groups :: |g| == FlushEvery
  }

  /** One appended sample keeps the buffer in order. */
  lemma KeepsOrderStep(b: Buffered, done: seq<Sample>, x: Sample)
    requires KeepsOrder(b, done)
    ensures var pending := b.pending + [x];
      KeepsOrder(if (|done| + 1) % FlushEvery == 0 then Buffered(b.flushed + [pending], [])
                 else Buffered(b.flushed, pending), done + [x])
  {
    var pending := b.pending + [x];
    CountStep(|done| + 1);
    if (|done| + 1) % FlushEvery == 0 {
      FlattenSnoc(b.flushed, pending);
      assert forall g | g in b.flushed + [pending] :: g in b.flushed || g == pending;
    }
  }

  lemma CountStep(n: nat)
    requires n > 0
    ensures n % FlushEvery == 0 ==> (n - 1) % FlushEvery == FlushEvery - 1
    ensures n % FlushEvery != 0 ==> (n - 1) % FlushEvery + 1 == n % FlushEvery
  {
  }

  /** Appending one sample: it joins the pending samples, which are flushed when the count is a multiple of 1000. */
  lemma AfterSamplesSnoc(done: seq<Sample>, x: Sample)
    ensures var b := AfterSamples(done);
      AfterSamples(done + [x]) ==
        if (|done| + 1) % FlushEvery == 0 then Buffered(b.flushed + [b.pending + [x]], [])
        else Buffered(b.flushed, b.pending + [x])
  {
    assert (done + [x])[..|done|] == done;
  }

  function Flatten(groups: seq<seq<Sample>>): seq<Sample>
  {
    if |groups| == 0 then [] else Flatten(groups[..|groups| - 1]) + groups[|groups| - 1]
  }

  lemma FlattenSnoc(groups: seq<seq<Sample>>, g: seq<Sample>)
    ensures Flatten(groups + [g]) == Flatten(groups) + g
  {
    assert (groups + [g])[..|groups|] == groups;
  }

  /** Everything the writer receives: the flushed groups, then the non-empty remainder. */
  function Written(samples: seq<Sample>): seq<seq<Sample>>
  {
    var b := AfterSamples(samples);
    if |b.pending| > 0 then b.flushed + [b.pending] else b.flushed
  }

  /**
   * Every sample is written exactly once and in list order; every group
   * but the last holds exactly 1000 samples, and no group is empty.
   */
  lemma WrittenExactlyOnce(samples: seq<Sample>)
    ensures Flatten(Written(samples)) == samples
    ensures forall g | g in Written(samples) :: 0 < |g| <= FlushEvery
    ensures forall j | 0 <= j < |Written(samples)| - 1 :: |Written(samples)[j]| == FlushEvery
    ensures |Written(samples)| == (|samples| + FlushEvery - 1) / FlushEvery
  {
    var b := AfterSamples(samples);
    AfterSamplesKeepsOrder(samples);
    if |b.pending| > 0 {
      FlattenSnoc(b.flushed, b.pending);
    }
    FlushedCount(b.flushed);
    assert |samples| == FlushEvery * |b.flushed| + |b.pending|;
  }

  lemma {:induction false} FlushedCount(groups: seq<seq<Sample>>)
    requires AllFull(groups)
    ensures |Flatten(groups)| == FlushEvery * |groups|
  {
    if |groups| > 0 {
      assert forall g | g in groups[..|groups| - 1] :: g in groups;
      FlushedCount(groups[..|groups| - 1]);
      assert groups[|groups| - 1] in groups;
    }
  }

  /** The MindRecord writer: the groups passed to `write_raw_data`, and whether it was committed. */
  class FileWriter {
    var groups: seq<seq<Sample>>
    var committed: bool

    constructor ()
      ensures groups == [] && !committed
    {
      groups := [];
      committed := false;
    }

    method WriteRawData(data: seq<Sample>)
      modifies this
      ensures groups == old(groups) + [data] && committed == old(committed)
    {
      groups := groups + [data];
    }

    method Commit()
      modifies this
      ensures groups == old(groups) && committed
    {
      committed := true;
    }
  }

  /**
   * The conversion loop: every line becomes a sample, flushed in groups of
   * 1000, the remainder written and the writer committed; it returns `cnt`.
   * A line without a space raises IndexError after the groups before it
   * were written, and the writer is never committed.
   */
  method BuildSegData(lines: seq<string>, dataRoot: string, writer: FileWriter) returns (cnt: Result<int>)
    modifies writer
    ensures var samples := LeadingSamples(ParsedLines(lines, dataRoot));
      (cnt.Ok? <==> |samples| == |lines|) &&
      (cnt.Ok? ==> cnt.value == |lines| && writer.groups == old(writer.groups) + Written(samples) && writer.committed)
    ensures var samples := LeadingSamples(ParsedLines(lines, dataRoot));
      cnt.Err? ==>
        cnt.error == IndexError && writer.groups == old(writer.groups) + AfterSamples(samples).flushed &&
        writer.committed == old(writer.committed)
  {
    var results := ParsedLines(lines, dataRoot);
    assert forall j | 0 <= j < |results| :: results[j].Err? ==> results[j].error == IndexError;
    cnt := WriteSamples(results, writer);
  }

  /** The loop of the converter over the lines' results, in list order. */
  method WriteSamples(results: seq<Result<Sample>>, writer: FileWriter) returns (cnt: Result<int>)
    requires forall j | 0 <= j < |results| :: results[j].Err? ==> results[j].error == IndexError
    modifies writer
    ensures var samples := LeadingSamples(results);
      (cnt.Ok? <==> |samples| == |results|) &&
      (cnt.Ok? ==> cnt.value == |results| && writer.groups == old(writer.groups) + Written(samples) && writer.committed)
    ensures var samples := LeadingSamples(results);
      cnt.Err? ==>
        cnt.error == IndexError && writer.groups == old(writer.groups) + AfterSamples(samples).flushed &&
        writer.committed == old(writer.committed)
  {
    var n, dataList, flushed := WriteLeading(results, writer);
    if n < |results| {
      return Err(results[n].error);
    }
    assert Written(LeadingSamples(results)) == flushed + (if |dataList| > 0 then [dataList] else []);
    FinishWriting(dataList, writer);
    cnt := Ok(n);
  }

  /**
   * The loop over the results up to the first failing one: each sample is
   * appended, and every full group of 1000 is written. It stops at `n`, the
   * number of leading samples.
   */
  method WriteLeading(results: seq<Result<Sample>>, writer: FileWriter)
    returns (n: nat, dataList: seq<Sample>, ghost flushed: seq<seq<Sample>>)
    modifies writer
    ensures n == |LeadingSamples(results)| && (n < |results| ==> results[n].Err?)
    ensures AfterSamples(LeadingSamples(results)) == Buffered(flushed, dataList)
    ensures writer.groups == old(writer.groups) + flushed && writer.committed == old(writer.committed)
  {
    dataList := [];
    n := 0;
    ghost var leading := LeadingSamples(results);
    flushed := [];
    while n < |results|
      invariant n <= |leading| && n <= |results|
      invariant AfterSamples(leading[..n]) == Buffered(flushed, dataList)
      invariant writer.groups == old(writer.groups) + flushed
      invariant writer.committed == old(writer.committed)
    {
      var sample := results[n];
      LeadingStep(results, n);
      if sample.Err? {
        break;
      }
      ghost var written;
      dataList, written := Append(dataList, n, leading[..n], flushed, sample.value, writer);
      flushed := flushed + written;
      n := n + 1;
    }
    assert leading[..n] == leading;
  }

  /** After the loop: a non-empty remainder is written once, then the writer is committed. */
  method FinishWriting(dataList: seq<Sample>, writer: FileWriter)
    modifies writer
    ensures writer.groups == old(writer.groups) + (if |dataList| > 0 then [dataList] else [])
    ensures writer.committed
  {
    if |dataList| > 0 {
      writer.WriteRawData(dataList);
    }
    writer.Commit();
  }

  /** One iteration: the sample joins `data_list`, which is written and emptied at every 1000th sample. */
  method Append(dataList: seq<Sample>, cnt: nat, ghost done: seq<Sample>, ghost flushed: seq<seq<Sample>>,
                sample: Sample, writer: FileWriter)
    returns (dataList': seq<Sample>, ghost written: seq<seq<Sample>>)
    requires AfterSamples(done) == Buffered(flushed, dataList) && cnt == |done|
    modifies writer
    ensures AfterSamples(done + [sample]) == Buffered(flushed + written, dataList')
    ensures writer.groups == old(writer.groups) + written
    ensures writer.committed == old(writer.committed)
  {
    AfterSamplesSnoc(done, sample);
    dataList' := dataList + [sample];
    written := [];
    if (cnt + 1) % FlushEvery == 0 {
      writer.WriteRawData(dataList');
      written := [dataList'];
      dataList' := [];
    }
  }

  // ---------------------------------------------------------------------
  // The destination directory

  /** `'/'.join(dst_path.split('/')[:-1])`: the path without its last component. */
  function DestinationDir(dstPath: string): (dir: string)
    ensures '/' in dstPath ==> dir + "/" + LastPart(dstPath, '/') == dstPath
    ensures '/' !in dstPath ==> dir == ""
  {
    AllButLastPart(dstPath, '/')
  }

  /** What preparing the destination does: the directory to create, if any. */
  datatype Setup = Setup(dir: string, create: bool)

  /**
   * As written: a missing directory is created with `os.makedirs`; a path
   * without `/` gives the empty directory, which `os.path.exists` reports
   * missing and `os.makedirs` rejects with FileNotFoundError.
   */
  function DestinationSetupAsWritten(dstPath: string, pathExists: string -> bool): (r: Result<Setup>)
    ensures r.Err? <==> DestinationDir(dstPath) == ""
    ensures '/' !in dstPath ==> r.Err?
    ensures r.Ok? ==> r.value.dir == DestinationDir(dstPath) && (r.value.create <==> !pathExists(r.value.dir))
  {
    var dir := DestinationDir(dstPath);
    if dir == "" then Err(FileNotFoundError)
    else Ok(Setup(dir, !pathExists(dir)))
  }

  /** A destination in the working directory, such as `out.mindrecord`, fails as written. */
  lemma BareFileNameFailsAsWritten(pathExists: string -> bool)
    ensures DestinationSetupAsWritten("out.mindrecord", pathExists) == Err(FileNotFoundError)
  {
  }

  /**
   * Evidently intended: a path without a directory part writes into the
   * working directory and creates nothing; otherwise the missing directory
   * is created.
   */
  function DestinationSetup(dstPath: string, pathExists: string -> bool): (s: Setup)
    ensures s.dir == DestinationDir(dstPath)
    ensures s.create <==> s.dir != "" && !pathExists(s.dir)
  {
    var dir := DestinationDir(dstPath);
    Setup(dir, dir != "" && !pathExists(dir))
  }

  /** Wherever the code as written succeeds, the intended setup agrees with it; it never fails. */
  lemma DestinationSetupAgrees(dstPath: string, pathExists: string -> bool)
    ensures DestinationSetupAsWritten(dstPath, pathExists).Ok? ==>
      DestinationSetupAsWritten(dstPath, pathExists).value == DestinationSetup(dstPath, pathExists)
    ensures DestinationDir(dstPath) == "" ==> !DestinationSetup(dstPath, pathExists).create
  {
  }
}
