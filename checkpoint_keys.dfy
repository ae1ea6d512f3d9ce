/**
 * Checkpoint key remapping, shared by the training and evaluation drivers.
 *
 * A loaded checkpoint is a dictionary from parameter names to values whose
 * iteration order is the order in the file; it is modelled as a sequence of
 * (name, value) entries. The drivers walk it once and store each value under
 * a rewritten name (or skip it) in a fresh dictionary, so a name produced
 * twice keeps the value of the later entry.
 */
module CheckpointKeys {
  import opened Strings

  /** What a driver does with one entry: skip it, or store it under `key`. */
  datatype Rename = Drop | Keep(key: string)

  /** The dictionary the loop has built after processing `entries` in order. */
  function Remapped<V>(entries: seq<(string, V)>, rename: string -> Rename): map<string, V>
  {
    if |entries| == 0 then map[]
    else
      var m := Remapped(entries[..|entries| - 1], rename);
      var e := entries[|entries| - 1];
      match rename(e.0)
      case Drop => m
      case Keep(k) => m[k := e.1]
  }

  /** The loop of the drivers: one pass over the entries, writing into a new dictionary. */
  method RemapKeys<V>(entries: seq<(string, V)>, rename: string -> Rename) returns (m: map<string, V>)
    ensures m == Remapped(entries, rename)
  {
    m := map[];
    for i := 0 to |entries|
      invariant m == Remapped(entries[..i], rename)
    {
      assert entries[..i + 1][..i] == entries[..i];
      match rename(entries[i].0)
      case Drop =>
      case Keep(k) => m := m[k := entries[i].1];
    }
    assert entries[..|entries|] == entries;
  }

  /** A name is present exactly when some entry is renamed to it. */
  lemma {:induction false} RemappedDomain<V>(entries: seq<(string, V)>, rename: string -> Rename, k: string)
    ensures k in Remapped(entries, rename) <==>
            exists i | 0 <= i < |entries| :: rename(entries[i].0) == Keep(k)
  {
    if |entries| > 0 {
      var init := entries[..|entries| - 1];
      RemappedDomain(init, rename, k);
      assert forall i | 0 <= i < |init| :: init[i] == entries[i];
    }
  }

  /** A present name holds the value of the LAST entry renamed to it. */
  lemma {:induction false} RemappedLastWins<V>(entries: seq<(string, V)>, rename: string -> Rename, i: nat)
    requires i < |entries| && rename(entries[i].0).Keep?
    requires forall j | i < j < |entries| :: rename(entries[j].0) != rename(entries[i].0)
    ensures rename(entries[i].0).key in Remapped(entries, rename)
    ensures Remapped(entries, rename)[rename(entries[i].0).key] == entries[i].1
  {
    var init := entries[..|entries| - 1];
    if i < |entries| - 1 {
      assert init[i] == entries[i];
      RemappedLastWins(init, rename, i);
      var k := rename(entries[i].0).key;
      assert rename(entries[|entries| - 1].0) != Keep(k);
    }
  }

  /** Each kept entry contributes exactly one name, so there are never more names than entries. */
  lemma {:induction false} RemappedSize<V>(entries: seq<(string, V)>, rename: string -> Rename)
    ensures |Remapped(entries, rename)| <= |entries|
  {
    if |entries| > 0 {
      RemappedSize(entries[..|entries| - 1], rename);
    }
  }

  /**
   * The rename rule shared by several drivers: optimizer state
   * (`moments.`) is skipped, a wrapper prefix is stripped, and every other
   * name is kept as it is. The drivers write the prefix length as a literal
   * (13 for `yolo_network.`, 8 for `network.`, 6 for `model.`), which is the
   * length of the prefix they test for.
   */
  function StripPrefixRename(prefix: string, key: string): (r: Rename)
    ensures StartsWith(key, "moments.") <==> r == Drop
    ensures r.Keep? && StartsWith(key, prefix) ==> prefix + r.key == key
    ensures r.Keep? && !StartsWith(key, prefix) ==> r.key == key
  {
    if StartsWith(key, "moments.") then Drop
    else if StartsWith(key, prefix) then Keep(key[|prefix|..])
    else Keep(key)
  }

  /**
   * `k` is the name of a checkpoint entry that is not optimizer state, with
   * `prefix` in front or, lacking the prefix, as it stands.
   */
  predicate StrippedFrom<V>(prefix: string, entries: seq<(string, V)>, k: string)
  {
    exists i | 0 <= i < |entries| ::
      !StartsWith(entries[i].0, "moments.") &&
      (entries[i].0 == prefix + k || (entries[i].0 == k && !StartsWith(k, prefix)))
  }

  /** Every name of the remapped dictionary comes from such an entry. */
  lemma StripPrefixOrigin<V>(prefix: string, entries: seq<(string, V)>, k: string)
    requires k in Remapped(entries, key => StripPrefixRename(prefix, key))
    ensures StrippedFrom(prefix, entries, k)
  {
    var rename := key => StripPrefixRename(prefix, key);
    RemappedDomain(entries, rename, k);
    var i :| 0 <= i < |entries| && rename(entries[i].0) == Keep(k);
    assert StripPrefixRename(prefix, entries[i].0) == Keep(k);
  }

  /**
   * The remapping loop of the evaluation and fine-tuning drivers: skip
   * optimizer state, strip `prefix`, keep the rest.
   */
  method RemapStripping<V>(prefix: string, entries: seq<(string, V)>) returns (m: map<string, V>)
    ensures m == Remapped(entries, key => StripPrefixRename(prefix, key))
    ensures forall k | k in m :: StrippedFrom(prefix, entries, k)
    ensures |m| <= |entries|
  {
    m := RemapKeys(entries, key => StripPrefixRename(prefix, key));
    forall k | k in m ensures StrippedFrom(prefix, entries, k) {
      StripPrefixOrigin(prefix, entries, k);
    }
    RemappedSize(entries, key => StripPrefixRename(prefix, key));
  }

  /**
   * Conversely, a prefixed entry that no later entry overwrites is found
   * under its stripped name with its own value.
   */
  lemma StripPrefixKeeps<V>(prefix: string, entries: seq<(string, V)>, i: nat)
    requires i < |entries| && !StartsWith(entries[i].0, "moments.") && StartsWith(entries[i].0, prefix)
    requires forall j | i < j < |entries| ::
      StripPrefixRename(prefix, entries[j].0) != StripPrefixRename(prefix, entries[i].0)
    ensures entries[i].0[|prefix|..] in Remapped(entries, key => StripPrefixRename(prefix, key))
    ensures Remapped(entries, key => StripPrefixRename(prefix, key))[entries[i].0[|prefix|..]] == entries[i].1
  {
    var rename := key => StripPrefixRename(prefix, key);
    RemappedLastWins(entries, rename, i);
  }
}
