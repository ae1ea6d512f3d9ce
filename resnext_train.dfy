/**
 * The configuration and bookkeeping logic of the ResNeXt-152 training
 * script (research/cv/resnext152_64x4d/train.py): merging cloud arguments
 * into the parsed namespace (`merge_args`), the values `parse_args`
 * derives, and the checkpoint history the `ProgressMonitor` callback keeps
 * at the end of each epoch.
 */
module ResnextTrain {
  import opened Wrappers
  import opened Strings
  import opened PyNumbers
  import opened TrainFlags

  // ---------------------------------------------------------------------
  // merge_args

  /** The values an argparse namespace holds. */
  datatype Value = VNone | VBool(b: bool) | VInt(i: int) | VFloat(x: real) | VStr(s: string)

  /** Python truthiness: `None`, `False`, `0`, `0.0` and `""` are false. */
  predicate Truthy(v: Value)
  {
    match v
    case VNone => false
    case VBool(b) => b
    case VInt(i) => i != 0
    case VFloat(x) => x != 0.0
    case VStr(s) => s != ""
  }

  /**
   * `type(target)(val)`: the value converted to the type of `target`.
   * `bool(x)` is truthiness, `int` of a float truncates, `int` of a string
   * parses a decimal literal; `str` and `float` of a float or a string go
   * through `show` and `parse`, Python's float formatting and parsing.
   */
  function Cast(target: Value, val: Value, show: real -> string, parse: string -> Option<real>): (r: Result<Value>)
    requires !target.VNone?
    ensures r.Ok? ==> r.value.VBool? == target.VBool? && r.value.VInt? == target.VInt?
    ensures r.Ok? ==> r.value.VFloat? == target.VFloat? && r.value.VStr? == target.VStr?
    ensures target.VBool? ==> r == Ok(VBool(Truthy(val)))
    ensures r.Err? <==> val.VStr? && ((target.VInt? && ParseInt(val.s).Err?) || (target.VFloat? && parse(val.s).None?))
    ensures r.Err? ==> r.error == ValueError
    ensures val.VNone? && target.VStr? ==> r == Ok(VStr("None"))
  {
    match target
    case VBool(_) => Ok(VBool(Truthy(val)))
    case VInt(_) =>
      (match val
       case VNone => Ok(VInt(0))
       case VBool(b) => Ok(VInt(if b then 1 else 0))
       case VInt(i) => Ok(VInt(i))
       case VFloat(x) => Ok(VInt(Trunc(x)))
       case VStr(s) => (var n :- ParseInt(s); Ok(VInt(n))))
    case VFloat(_) =>
      (match val
       case VNone => Ok(VFloat(0.0))
       case VBool(b) => Ok(VFloat(if b then 1.0 else 0.0))
       case VInt(i) => Ok(VFloat(i as real))
       case VFloat(x) => Ok(VFloat(x))
       case VStr(s) => if parse(s).Some? then Ok(VFloat(parse(s).value)) else Err(ValueError))
    case VStr(_) =>
      (match val
       case VNone => Ok(VStr("None"))
       case VBool(b) => Ok(VStr(if b then "True" else "False"))
       case VInt(i) => Ok(VStr(IntToString(i)))
       case VFloat(x) => Ok(VStr(show(x)))
       case VStr(s) => Ok(VStr(s)))
  }

  /**
   * The value a truthy cloud value gives an existing argument: the cloud
   * value itself when the argument is `None`, otherwise the cloud value
   * cast to the argument's type.
   */
  function Merged(current: Value, val: Value, show: real -> string, parse: string -> Option<real>): (r: Result<Value>)
    ensures current.VNone? ==> r == Ok(val)
    ensures !current.VNone? ==> r == Cast(current, val, show, parse)
  {
    if current.VNone? then Ok(val) else Cast(current, val, show, parse)
  }

  /** `cloud_args` is either a dict, listed in its key order, or something else. */
  datatype CloudArgs = NotDict | Dict(entries: seq<(string, Value)>)

  /** The keys of a Python dict are distinct. */
  predicate DistinctKeys(entries: seq<(string, Value)>)
  {
    forall i, j | 0 <= i < j < |entries| :: entries[i].0 != entries[j].0
  }

  /** Whether an entry is copied: its key is an existing argument and its value is truthy. */
  predicate Copies(args: map<string, Value>, entry: (string, Value))
  {
    entry.0 in args && Truthy(entry.1)
  }

  /** One iteration of the loop in `merge_args`. */
  function MergeOne(args: map<string, Value>, entry: (string, Value), show: real -> string, parse: string -> Option<real>): (r: Result<map<string, Value>>)
    ensures r.Ok? ==> r.value.Keys == args.Keys
    ensures !Copies(args, entry) ==> r == Ok(args)
  {
    if Copies(args, entry) then
      var v :- Merged(args[entry.0], entry.1, show, parse);
      Ok(args[entry.0 := v])
    else Ok(args)
  }

  /** The namespace after the loop has visited `entries` in order. */
  function MergeEntries(args: map<string, Value>, entries: seq<(string, Value)>, show: real -> string, parse: string -> Option<real>): (r: Result<map<string, Value>>)
    ensures r.Ok? ==> r.value.Keys == args.Keys
  {
    if |entries| == 0 then Ok(args)
    else
      var a :- MergeEntries(args, entries[..|entries| - 1], show, parse);
      MergeOne(a, entries[|entries| - 1], show, parse)
  }

  /** `merge_args`: a cloud dict is merged in; anything else leaves the arguments as they are. */
  function Merge(args: map<string, Value>, cloud: CloudArgs, show: real -> string, parse: string -> Option<real>): (r: Result<map<string, Value>>)
    ensures cloud.NotDict? ==> r == Ok(args)
    ensures r.Ok? ==> r.value.Keys == args.Keys
  {
    if cloud.Dict? then MergeEntries(args, cloud.entries, show, parse) else Ok(args)
  }

  /** The loop of `merge_args`, updating the namespace's dictionary in place. */
  method MergeArgs(args: map<string, Value>, cloud: CloudArgs, show: real -> string, parse: string -> Option<real>)
    returns (r: Result<map<string, Value>>)
    ensures r == Merge(args, cloud, show, parse)
  {
    if !cloud.Dict? {
      return Ok(args);
    }
    var entries := cloud.entries;
    var argsDict := args;
    for i := 0 to |entries|
      invariant MergeEntries(args, entries[..i], show, parse) == Ok(argsDict)
    {
      assert entries[..i + 1][..i] == entries[..i];
      var (key, val) := entries[i];
      if key in argsDict && Truthy(val) {
        if !argsDict[key].VNone? {
          var cast := Cast(argsDict[key], val, show, parse);
          if cast.Err? {
            MergeStaysFailed(args, entries, i + 1, show, parse);
            assert entries[..|entries|] == entries;
            return Err(cast.error);
          }
          val := cast.value;
        }
        argsDict := argsDict[key := val];
      }
    }
    assert entries[..|entries|] == entries;
    r := Ok(argsDict);
  }

  /** A failed conversion ends the merge: later entries are never reached. */
  lemma {:induction false} MergeStaysFailed(args: map<string, Value>, entries: seq<(string, Value)>, n: nat,
                                            show: real -> string, parse: string -> Option<real>)
    requires n <= |entries|
    requires MergeEntries(args, entries[..n], show, parse).Err?
    ensures MergeEntries(args, entries, show, parse) == MergeEntries(args, entries[..n], show, parse)
    decreases |entries| - n
  {
    if n < |entries| {
      assert entries[..n + 1][..n] == entries[..n];
      MergeStaysFailed(args, entries, n + 1, show, parse);
    } else {
      assert entries[..n] == entries;
    }
  }

  /** Whether some entry of the dict names `key` with a truthy value. */
  predicate Touched(entries: seq<(string, Value)>, key: string)
  {
    exists i | 0 <= i < |entries| :: entries[i].0 == key && Truthy(entries[i].1)
  }

  /**
   * What merging a dict does, key by key: it fails (with ValueError) iff a
   * copied value cannot be converted; otherwise every copied entry's key
   * holds its merged value, and every other argument keeps its value.
   */
  lemma MergeEntriesEffect(args: map<string, Value>, entries: seq<(string, Value)>,
                            show: real -> string, parse: string -> Option<real>)
    requires DistinctKeys(entries)
    ensures var r := MergeEntries(args, entries, show, parse);
      (r.Err? <==> exists i | 0 <= i < |entries| :: Copies(args, entries[i]) && Merged(args[entries[i].0], entries[i].1, show, parse).Err?)
    ensures var r := MergeEntries(args, entries, show, parse);
      r.Err? ==> r.error == ValueError
    ensures var r := MergeEntries(args, entries, show, parse);
      r.Ok? ==> forall i | 0 <= i < |entries| && Copies(args, entries[i]) ::
        r.value[entries[i].0] == Merged(args[entries[i].0], entries[i].1, show, parse).value
    ensures var r := MergeEntries(args, entries, show, parse);
      r.Ok? ==> forall k | k in args && !Touched(entries, k) :: r.value[k] == args[k]
  {
    MergeEntriesFails(args, entries, show, parse);
    MergeEntriesValues(args, entries, show, parse);
  }

  /** Until a merge fails, the namespace holds the original value of every key not yet visited. */
  lemma {:induction false} MergeEntriesUntouched(args: map<string, Value>, entries: seq<(string, Value)>,
                                                 show: real -> string, parse: string -> Option<real>, k: string)
    requires k in args && MergeEntries(args, entries, show, parse).Ok?
    requires forall i | 0 <= i < |entries| :: entries[i].0 != k
    ensures MergeEntries(args, entries, show, parse).value[k] == args[k]
  {
    if |entries| > 0 {
      MergeEntriesUntouched(args, entries[..|entries| - 1], show, parse, k);
    }
  }

  lemma {:induction false} MergeEntriesFails(args: map<string, Value>, entries: seq<(string, Value)>,
                                             show: real -> string, parse: string -> Option<real>)
    requires DistinctKeys(entries)
    ensures var r := MergeEntries(args, entries, show, parse);
      (r.Err? <==> exists i | 0 <= i < |entries| :: Copies(args, entries[i]) && Merged(args[entries[i].0], entries[i].1, show, parse).Err?)
    ensures var r := MergeEntries(args, entries, show, parse);
      r.Err? ==> r.error == ValueError
  {
    if |entries| > 0 {
      var n := |entries| - 1;
      var prefix := entries[..n];
      var e := entries[n];
      assert DistinctKeys(prefix);
      MergeEntriesFails(args, prefix, show, parse);
      var p := MergeEntries(args, prefix, show, parse);
      if p.Ok? {
        MergeEntriesUntouchedByLater(args, entries, show, parse);
        assert forall i | 0 <= i < n :: entries[i] == prefix[i];
      } else {
        var i :| 0 <= i < n && Copies(args, prefix[i]) && Merged(args[prefix[i].0], prefix[i].1, show, parse).Err?;
        assert entries[i] == prefix[i];
      }
    }
  }

  /** The last entry's key still holds its original value when that entry is reached. */
  lemma MergeEntriesUntouchedByLater(args: map<string, Value>, entries: seq<(string, Value)>,
                                     show: real -> string, parse: string -> Option<real>)
    requires DistinctKeys(entries) && |entries| > 0
    requires MergeEntries(args, entries[..|entries| - 1], show, parse).Ok?
    ensures var a := MergeEntries(args, entries[..|entries| - 1], show, parse).value;
      var e := entries[|entries| - 1];
      Copies(a, e) == Copies(args, e) && (e.0 in args ==> a[e.0] == args[e.0])
  {
    var n := |entries| - 1;
    var e := entries[n];
    if e.0 in args {
      forall i | 0 <= i < n
        ensures entries[..n][i].0 != e.0
      {
        assert entries[i].0 != entries[n].0;
      }
      MergeEntriesUntouched(args, entries[..n], show, parse, e.0);
    }
  }

  lemma {:induction false} MergeEntriesValues(args: map<string, Value>, entries: seq<(string, Value)>,
                                              show: real -> string, parse: string -> Option<real>)
    requires DistinctKeys(entries)
    ensures var r := MergeEntries(args, entries, show, parse);
      r.Ok? ==> forall i | 0 <= i < |entries| && Copies(args, entries[i]) ::
        Merged(args[entries[i].0], entries[i].1, show, parse).Ok? &&
        r.value[entries[i].0] == Merged(args[entries[i].0], entries[i].1, show, parse).value
    ensures var r := MergeEntries(args, entries, show, parse);
      r.Ok? ==> forall k | k in args && !Touched(entries, k) :: r.value[k] == args[k]
  {
    if |entries| > 0 {
      var n := |entries| - 1;
      var prefix := entries[..n];
      var e := entries[n];
      assert DistinctKeys(prefix);
      MergeEntriesValues(args, prefix, show, parse);
      var p := MergeEntries(args, prefix, show, parse);
      var r := MergeEntries(args, entries, show, parse);
      if p.Ok? && r.Ok? {
        var a := p.value;
        MergeEntriesUntouchedByLater(args, entries, show, parse);
        assert r == MergeOne(a, e, show, parse);
        forall i | 0 <= i < |entries| && Copies(args, entries[i])
          ensures Merged(args[entries[i].0], entries[i].1, show, parse).Ok?
          ensures r.value[entries[i].0] == Merged(args[entries[i].0], entries[i].1, show, parse).value
        {
          if i < n {
            assert entries[i] == prefix[i];
            assert entries[i].0 != e.0;
          }
        }
        forall k | k in args && !Touched(entries, k)
          ensures r.value[k] == args[k]
        {
          assert !Touched(prefix, k) by {
            forall i | 0 <= i < n ensures !(prefix[i].0 == k && Truthy(prefix[i].1)) {
              assert prefix[i] == entries[i];
            }
          }
          assert !(e.0 == k && Truthy(e.1));
        }
      }
    }
  }

  /** A key the cloud dict sets with a truthy value is converted to the existing argument's type. */
  lemma MergeCastsToExistingType(args: map<string, Value>, cloud: CloudArgs, i: nat,
                                 show: real -> string, parse: string -> Option<real>)
    requires cloud.Dict? && DistinctKeys(cloud.entries) && i < |cloud.entries|
    requires Copies(args, cloud.entries[i]) && !args[cloud.entries[i].0].VNone?
    requires Merge(args, cloud, show, parse).Ok?
    ensures var r := Merge(args, cloud, show, parse).value;
      var key := cloud.entries[i].0;
      r[key].VBool? == args[key].VBool? && r[key].VInt? == args[key].VInt? &&
      r[key].VFloat? == args[key].VFloat? && r[key].VStr? == args[key].VStr?
  {
    MergeEntriesEffect(args, cloud.entries, show, parse);
  }

  // ---------------------------------------------------------------------
  // parse_args

  /** The entries of `config` that `parse_args` reads and transforms. */
  datatype Config = Config(imageSize: string, lr: real, lrEpochs: string, isDynamicLossScale: int, lossScale: real,
                           isSaveOnMaster: int, dataSinkMode: bool, usePythonMultiprocessing: bool)

  /** The command-line values (after `merge_args`) that `parse_args` looks at. */
  datatype CliArgs = CliArgs(lr: Option<real>, dataSinkMode: Option<int>, usePythonMultiprocessing: Option<int>, isDistributed: int)

  /** The derived training arguments. */
  datatype TrainArgs = TrainArgs(lr: real, lrEpochs: seq<int>, imageSize: seq<int>, dataSinkMode: bool,
                                 usePythonMultiprocessing: bool, rank: int, groupSize: int, lossScale: real,
                                 rankSaveCkptFlag: int)

  /**
   * `parse_args` after the merge: the comma lists become int lists (a bad
   * element raises ValueError), unset options fall back to the config, a
   * distributed run takes its rank and group size from the communicator
   * (`commRank`, `commSize`), otherwise rank 0 of a group of 1.
   */
  function ParseArgs(cli: CliArgs, config: Config, commRank: int, commSize: int): (r: Result<TrainArgs>)
    ensures r.Err? <==> ParseIntList(config.lrEpochs).Err? || ParseIntList(config.imageSize).Err?
    ensures r.Err? ==> r.error == ValueError
    ensures r.Ok? ==> |r.value.lrEpochs| == |Split(config.lrEpochs, ',')| && |r.value.imageSize| == |Split(config.imageSize, ',')|
    ensures r.Ok? ==> r.value.lr == (if cli.lr.Some? then cli.lr.value else config.lr)
    ensures r.Ok? ==> (cli.dataSinkMode.None? ==> r.value.dataSinkMode == config.dataSinkMode) &&
                      (cli.dataSinkMode.Some? ==> (r.value.dataSinkMode <==> cli.dataSinkMode.value != 0))
    ensures r.Ok? ==> (cli.usePythonMultiprocessing.None? ==> r.value.usePythonMultiprocessing == config.usePythonMultiprocessing) &&
                      (cli.usePythonMultiprocessing.Some? ==> (r.value.usePythonMultiprocessing <==> cli.usePythonMultiprocessing.value != 0))
    ensures r.Ok? && cli.isDistributed != 0 ==> r.value.rank == commRank && r.value.groupSize == commSize
    ensures r.Ok? && cli.isDistributed == 0 ==> r.value.rank == 0 && r.value.groupSize == 1
    ensures r.Ok? ==> (config.isDynamicLossScale == 1 ==> r.value.lossScale == 1.0) &&
                      (config.isDynamicLossScale != 1 ==> r.value.lossScale == config.lossScale)
    ensures r.Ok? ==> (r.value.rankSaveCkptFlag == 1 <==> config.isSaveOnMaster == 0 || r.value.rank == 0)
    ensures r.Ok? ==> r.value.rankSaveCkptFlag == 0 || r.value.rankSaveCkptFlag == 1
  {
    var lrEpochs :- ParseIntList(config.lrEpochs);
    var imageSize :- ParseIntList(config.imageSize);
    var rank := if cli.isDistributed != 0 then commRank else 0;
    var groupSize := if cli.isDistributed != 0 then commSize else 1;
    Ok(TrainArgs(
      lr := cli.lr.GetOr(config.lr),
      lrEpochs := lrEpochs,
      imageSize := imageSize,
      dataSinkMode := if cli.dataSinkMode.Some? then cli.dataSinkMode.value != 0 else config.dataSinkMode,
      usePythonMultiprocessing :=
        if cli.usePythonMultiprocessing.Some? then cli.usePythonMultiprocessing.value != 0 else config.usePythonMultiprocessing,
      rank := rank,
      groupSize := groupSize,
      lossScale := LossScale(config.isDynamicLossScale == 1, config.lossScale),
      rankSaveCkptFlag := RankSaveCkptFlag(config.isSaveOnMaster != 0, rank)))
  }

  /** Lists written as comma-separated integers come back as the same lists. */
  lemma ParseArgsOfJoinedLists(cli: CliArgs, config: Config, commRank: int, commSize: int, lrEpochs: seq<int>, imageSize: seq<int>)
    requires |lrEpochs| >= 1 && |imageSize| >= 1
    requires config.lrEpochs == JoinInts(lrEpochs, ',') && config.imageSize == JoinInts(imageSize, ',')
    ensures ParseArgs(cli, config, commRank, commSize).Ok?
    ensures ParseArgs(cli, config, commRank, commSize).value.lrEpochs == lrEpochs
    ensures ParseArgs(cli, config, commRank, commSize).value.imageSize == imageSize
  {
    ParseIntListOfJoin(lrEpochs);
    ParseIntListOfJoin(imageSize);
  }

  // ---------------------------------------------------------------------
  // ProgressMonitor.epoch_end

  /** A checkpoint of this rank: its file name starts with `'{rank}-'`. */
  predicate IsRankCheckpoint(path: string, rank: int)
  {
    StartsWith(LastPart(path, '/'), IntToString(rank) + "-")
  }

  /** The history after visiting the discovered checkpoints in order. */
  function RecordCheckpoints(history: seq<string>, ckpts: seq<string>, rank: int): seq<string>
  {
    Record(history, ckpts, c => IsRankCheckpoint(c, rank))
  }

  /** The history after visiting `ckpts`, appending each new one that passes `keep`. */
  function Record(history: seq<string>, ckpts: seq<string>, keep: string -> bool): seq<string>
  {
    if |ckpts| == 0 then history
    else
      var h := Record(history, ckpts[..|ckpts| - 1], keep);
      var c := ckpts[|ckpts| - 1];
      if keep(c) && c !in h then h + [c] else h
  }

  /**
   * The history only grows; what it gains are this rank's checkpoints of
   * the listing that it did not hold, and afterwards it holds every one of
   * this rank's checkpoints in the listing.
   */
  lemma RecordCheckpointsContents(history: seq<string>, ckpts: seq<string>, rank: int)
    ensures var r := RecordCheckpoints(history, ckpts, rank); |r| >= |history| && r[..|history|] == history
    ensures var r := RecordCheckpoints(history, ckpts, rank);
      forall c | c in r[|history|..] :: c in ckpts && IsRankCheckpoint(c, rank) && c !in history
    ensures forall c | c in ckpts && IsRankCheckpoint(c, rank) :: c in RecordCheckpoints(history, ckpts, rank)
  {
    RecordContents(history, ckpts, c => IsRankCheckpoint(c, rank));
  }

  lemma {:induction false} RecordContents(history: seq<string>, ckpts: seq<string>, keep: string -> bool)
    ensures var r := Record(history, ckpts, keep); |r| >= |history| && r[..|history|] == history
    ensures var r := Record(history, ckpts, keep); forall c | c in r[|history|..] :: c in ckpts && keep(c) && c !in history
    ensures forall c | c in ckpts && keep(c) :: c in Record(history, ckpts, keep)
  {
    if |ckpts| > 0 {
      var init := ckpts[..|ckpts| - 1];
      RecordContents(history, init, keep);
      var h := Record(history, init, keep);
      var c := ckpts[|ckpts| - 1];
      assert forall d | d in init :: d in ckpts;
      assert forall d | d in ckpts :: d in init || d == c;
      var r := Record(history, ckpts, keep);
      if keep(c) && c !in h {
        assert r[|history|..] == h[|history|..] + [c];
      } else {
        assert r == h;
      }
    }
  }

  predicate NoDuplicates(xs: seq<string>)
  {
    forall i, j | 0 <= i < j < |xs| :: xs[i] != xs[j]
  }

  /** The history never holds a checkpoint twice. */
  lemma RecordCheckpointsNoDuplicates(history: seq<string>, ckpts: seq<string>, rank: int)
    requires NoDuplicates(history)
    ensures NoDuplicates(RecordCheckpoints(history, ckpts, rank))
  {
    RecordNoDuplicates(history, ckpts, c => IsRankCheckpoint(c, rank));
  }

  lemma {:induction false} RecordNoDuplicates(history: seq<string>, ckpts: seq<string>, keep: string -> bool)
    requires NoDuplicates(history)
    ensures NoDuplicates(Record(history, ckpts, keep))
  {
    if |ckpts| > 0 {
      RecordNoDuplicates(history, ckpts[..|ckpts| - 1], keep);
    }
  }

  /** Recording the same listing again adds nothing. */
  lemma RecordCheckpointsIdempotent(history: seq<string>, ckpts: seq<string>, rank: int)
    ensures var h := RecordCheckpoints(history, ckpts, rank);
      RecordCheckpoints(h, ckpts, rank) == h
  {
    var keep := c => IsRankCheckpoint(c, rank);
    RecordContents(history, ckpts, keep);
    var h := Record(history, ckpts, keep);
    RecordNothingNew(h, ckpts, keep);
  }

  /** A listing whose kept checkpoints are all recorded leaves the history as it is. */
  lemma {:induction false} RecordNothingNew(history: seq<string>, ckpts: seq<string>, keep: string -> bool)
    requires forall c | c in ckpts && keep(c) :: c in history
    ensures Record(history, ckpts, keep) == history
  {
    if |ckpts| > 0 {
      assert forall d | d in ckpts[..|ckpts| - 1] :: d in ckpts;
      RecordNothingNew(history, ckpts[..|ckpts| - 1], keep);
      assert ckpts[|ckpts| - 1] in ckpts;
    }
  }

  /** The callback's state: the step the current epoch started at and the checkpoints reported so far. */
  class ProgressMonitor {
    var epochStartStepNum: int
    var ckptHistory: seq<string>

    constructor ()
      ensures epochStartStepNum == 0 && ckptHistory == []
    {
      epochStartStepNum := 0;
      ckptHistory := [];
    }

    /**
     * `epoch_end` at step `curStepNum`: reports epoch
     * `(curStepNum - 1) // stepsPerEpoch` (a zero `stepsPerEpoch` raises
     * before anything changes), records this rank's new checkpoints from
     * the listing `ckpts` when the rank saves, and starts the next epoch at
     * `curStepNum - 1`.
     */
    method EpochEnd(curStepNum: int, stepsPerEpoch: int, rank: int, rankSaveCkptFlag: int, ckpts: seq<string>)
      returns (realEpoch: Result<int>)
      modifies this
      ensures stepsPerEpoch == 0 ==> realEpoch == Err(ZeroDivisionError) && unchanged(this)
      ensures stepsPerEpoch != 0 ==> realEpoch == Ok(FloorDiv(curStepNum - 1, stepsPerEpoch))
      ensures stepsPerEpoch != 0 ==> epochStartStepNum == curStepNum - 1
      ensures stepsPerEpoch != 0 ==>
        ckptHistory == if rankSaveCkptFlag != 0 then RecordCheckpoints(old(ckptHistory), ckpts, rank) else old(ckptHistory)
    {
      var meStep := curStepNum - 1;
      if stepsPerEpoch == 0 {
        return Err(ZeroDivisionError);
      }
      realEpoch := Ok(FloorDiv(meStep, stepsPerEpoch));
      if rankSaveCkptFlag != 0 {
        var history := ckptHistory;
        var prefix := IntToString(rank) + "-";
        ghost var keep := c => IsRankCheckpoint(c, rank);
        for i := 0 to |ckpts|
          invariant history == Record(ckptHistory, ckpts[..i], keep)
        {
          assert ckpts[..i + 1][..i] == ckpts[..i];
          var ckpt := ckpts[i];
          var ckptFn := LastPart(ckpt, '/');
          assert keep(ckpt) == StartsWith(ckptFn, prefix);
          if !StartsWith(ckptFn, prefix) {
            continue;
          }
          if ckpt in history {
            continue;
          }
          history := history + [ckpt];
        }
        assert ckpts[..|ckpts|] == ckpts;
        ckptHistory := history;
      }
      epochStartStepNum := meStep;
    }
  }

  /** The reported epoch counts whole epochs: it is the same for every step of an epoch. */
  lemma ReportedEpochWithinEpoch(epoch: int, stepsPerEpoch: int, k: int)
    requires stepsPerEpoch > 0 && 0 <= k < stepsPerEpoch
    ensures FloorDiv(epoch * stepsPerEpoch + k, stepsPerEpoch) == epoch
  {
    var q := FloorDiv(epoch * stepsPerEpoch + k, stepsPerEpoch);
    if q < epoch {
      MulLeq(q + 1, epoch, stepsPerEpoch);
    } else if q > epoch {
      MulLeq(epoch + 1, q, stepsPerEpoch);
    }
  }

  lemma MulLeq(a: int, b: int, s: int)
    requires s > 0 && a <= b
    ensures a * s <= b * s
  {
  }
}
