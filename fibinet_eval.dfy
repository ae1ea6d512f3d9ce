/**
 * The checkpoint loading of FiBiNET's evaluation
 * (research/recommend/fibinet/eval.py, `eval_fibinet_only`): the dataset
 * type dispatch and the gathering of sliced checkpoints, key by key, in
 * slice order. Reading a checkpoint and merging the slices of one
 * parameter are framework calls and are parameters here.
 */
module FibinetEval {
  import opened Wrappers
  import opened Strings

  datatype DataType = TfRecord | MindRecord | H5

  /** `tfrecord` and `mindrecord` select their readers; anything else is H5. */
  function DatasetType(name: string): (t: DataType)
    ensures t == TfRecord <==> name == "tfrecord"
    ensures t == MindRecord <==> name == "mindrecord"
    ensures t == H5 <==> name != "tfrecord" && name != "mindrecord"
  {
    if name == "tfrecord" then TfRecord
    else if name == "mindrecord" then MindRecord
    else H5
  }

  /** Where the parameters come from. */
  datatype Source = Sliced(paths: seq<string>) | Single(file: string)

  /**
   * A `ckpt_path` with `;` lists the slices; without one, the configured
   * `ckpt_file` (not `ckpt_path`) is loaded.
   */
  function CheckpointSource(ckptPath: string, ckptFile: string): (s: Source)
    ensures s.Sliced? <==> ';' in ckptPath
    ensures s.Sliced? ==> s.paths == Split(ckptPath, ';') && Join(s.paths, ';') == ckptPath
    ensures s.Single? ==> s.file == ckptFile
  {
    if ';' in ckptPath then
      JoinSplit(ckptPath, ';');
      Sliced(Split(ckptPath, ';'))
    else Single(ckptFile)
  }

  /** Optimizer state is not gathered. */
  predicate Skipped(key: string)
  {
    Contains(key, "optimizer")
  }

  /** `param_list_dict` after adding `entries` to `lists`. */
  function ListsAfter<V>(lists: map<string, seq<V>>, entries: seq<(string, V)>): map<string, seq<V>>
  {
    if |entries| == 0 then lists
    else
      var m := ListsAfter(lists, entries[..|entries| - 1]);
      var (key, value) := entries[|entries| - 1];
      if Skipped(key) then m
      else if key in m then m[key := m[key] + [value]]
      else m[key := [value]]
  }

  /** Adding two runs of entries is adding their concatenation. */
  lemma {:induction false} ListsAfterAppend<V>(lists: map<string, seq<V>>, a: seq<(string, V)>, b: seq<(string, V)>)
    ensures ListsAfter(lists, a + b) == ListsAfter(ListsAfter(lists, a), b)
  {
    if |b| > 0 {
      assert (a + b)[..|a + b| - 1] == a + b[..|b| - 1];
      assert (a + b)[|a + b| - 1] == b[|b| - 1];
      ListsAfterAppend(lists, a, b[..|b| - 1]);
    } else {
      assert a + b == a;
    }
  }

  /** The values stored under `key` in the entries, in order. */
  function ValuesOf<V>(entries: seq<(string, V)>, key: string): seq<V>
  {
    if |entries| == 0 then []
    else ValuesOf(entries[..|entries| - 1], key) + (if entries[|entries| - 1].0 == key then [entries[|entries| - 1].1] else [])
  }

  /**
   * A key is gathered exactly when it is not optimizer state and some
   * slice holds it, and its list holds its values in slice order.
   */
  lemma {:induction false} ListsContents<V>(entries: seq<(string, V)>, key: string)
    ensures key in ListsAfter(map[], entries) <==> !Skipped(key) && exists i | 0 <= i < |entries| :: entries[i].0 == key
    ensures key in ListsAfter(map[], entries) ==> ListsAfter(map[], entries)[key] == ValuesOf(entries, key)
  {
    if |entries| > 0 {
      var init := entries[..|entries| - 1];
      ListsContents(init, key);
      assert forall i | 0 <= i < |init| :: init[i] == entries[i];
      if key !in ListsAfter(map[], init) && !Skipped(key) {
        ValuesOfAbsent(init, key);
      }
    }
  }

  lemma {:induction false} ValuesOfAbsent<V>(entries: seq<(string, V)>, key: string)
    requires forall i | 0 <= i < |entries| :: entries[i].0 != key
    ensures ValuesOf(entries, key) == []
  {
    if |entries| > 0 {
      ValuesOfAbsent(entries[..|entries| - 1], key);
    }
  }

  /** All entries of the slices, slice after slice. */
  function Flat<V>(slices: seq<seq<(string, V)>>): seq<(string, V)>
  {
    if |slices| == 0 then [] else Flat(slices[..|slices| - 1]) + slices[|slices| - 1]
  }

  /** The inner loop: one slice's entries added to the lists. */
  method AddSlice<V>(lists: map<string, seq<V>>, slice: seq<(string, V)>) returns (r: map<string, seq<V>>)
    ensures r == ListsAfter(lists, slice)
  {
    r := lists;
    for j := 0 to |slice|
      invariant r == ListsAfter(lists, slice[..j])
    {
      assert slice[..j + 1][..j] == slice[..j];
      var (key, value) := slice[j];
      if Skipped(key) {
        continue;
      }
      if key !in r {
        r := r[key := []];
        assert [] + [value] == [value];
      }
      r := r[key := r[key] + [value]];
    }
    assert slice[..|slice|] == slice;
  }

  /** The nested loop that fills `param_list_dict` from the loaded slices. */
  method GatherSlices<V>(slices: seq<seq<(string, V)>>) returns (paramListDict: map<string, seq<V>>)
    ensures paramListDict == ListsAfter(map[], Flat(slices))
  {
    paramListDict := map[];
    for s := 0 to |slices|
      invariant paramListDict == ListsAfter(map[], Flat(slices[..s]))
    {
      assert slices[..s + 1][..s] == slices[..s];
      paramListDict := AddSlice(paramListDict, slices[s]);
      ListsAfterAppend(map[], Flat(slices[..s]), slices[s]);
    }
    assert slices[..|slices|] == slices;
  }

  /** The merge loop: a key known to the strategy is merged with it. */
  method MergeAll<V, P>(paramListDict: map<string, seq<V>>, strategy: set<string>,
                        merge: (seq<V>, bool) -> P) returns (paramDict: map<string, P>)
    ensures paramDict.Keys == paramListDict.Keys
    ensures forall k | k in paramListDict :: paramDict[k] == merge(paramListDict[k], k in strategy)
  {
    paramDict := map[];
    var rest := paramListDict.Keys;
    while rest != {}
      invariant rest <= paramListDict.Keys
      invariant paramDict.Keys == paramListDict.Keys - rest
      invariant forall k | k in paramDict :: paramDict[k] == merge(paramListDict[k], k in strategy)
      decreases rest
    {
      var key :| key in rest;
      paramDict := paramDict[key := merge(paramListDict[key], key in strategy)];
      rest := rest - {key};
    }
  }

  /** `load_checkpoint` of each slice path, in order. */
  function Loaded<V>(paths: seq<string>, load: string -> seq<(string, V)>): (slices: seq<seq<(string, V)>>)
    ensures |slices| == |paths| && forall i | 0 <= i < |paths| :: slices[i] == load(paths[i])
  {
    seq(|paths|, i requires 0 <= i < |paths| => load(paths[i]))
  }

  /**
   * The parameters `eval_fibinet_only` loads into the network: merged
   * slices when `ckpt_path` lists several, else the single checkpoint file.
   */
  method LoadParams<V, P>(ckptPath: string, ckptFile: string, load: string -> seq<(string, V)>,
                          loadSingle: string -> map<string, P>, strategy: set<string>,
                          merge: (seq<V>, bool) -> P) returns (paramDict: map<string, P>)
    ensures ';' !in ckptPath ==> paramDict == loadSingle(ckptFile)
    ensures ';' in ckptPath ==>
      var lists := ListsAfter(map[], Flat(Loaded(Split(ckptPath, ';'), load)));
      paramDict.Keys == lists.Keys && forall k | k in lists :: paramDict[k] == merge(lists[k], k in strategy)
  {
    var source := CheckpointSource(ckptPath, ckptFile);
    match source {
      case Single(file) =>
        paramDict := loadSingle(file);
      case Sliced(paths) =>
        var lists := GatherSlices(Loaded(paths, load));
        paramDict := MergeAll(lists, strategy, merge);
    }
  }
}
