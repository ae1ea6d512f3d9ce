/**
 * `create_label` of the AlexNet preprocessing script
 * (research/cv/Alexnet/preprocess.py): the class directories under the
 * ImageNet root are sorted by name and numbered from 0, and every image in
 * directory `i` is mapped to label `i`; `total` counts the images listed.
 * The file system is a parameter: the root's listing in the order the
 * operating system returns it, and each class directory's listing. Writing
 * the JSON file and printing are left out; the label map and the count are
 * the result.
 */
module AlexnetPreprocess {
  import opened Wrappers
  import opened StringOrder

  /** The listing of every directory under the root; a listed name without an entry is not a directory. */
  type Tree = map<string, seq<string>>

  /** What `create_label` writes (`img_label`) and reports (`total`). */
  datatype LabelFile = LabelFile(imgLabel: map<string, int>, total: int)

  /** `img_label` after the inner loop has set each of `files` to label `i`, in order. */
  function Assigned(m: map<string, int>, files: seq<string>, i: int): map<string, int>
    decreases |files|
  {
    if |files| == 0 then m else Assigned(m, files[..|files| - 1], i)[files[|files| - 1] := i]
  }

  /** The inner loop overrides exactly the listed files' labels with `i`. */
  lemma {:induction false} AssignedOverrides(m: map<string, int>, files: seq<string>, i: int)
    ensures Assigned(m, files, i) == m + map f | f in files :: i
  {
    if |files| > 0 {
      var init := files[..|files| - 1];
      AssignedOverrides(m, init, i);
      assert files == init + [files[|files| - 1]];
    }
  }

  /** The result after the class directories `dirs`, labelled by their position. */
  function Labelled(dirs: seq<string>, tree: Tree): Result<LabelFile>
    decreases |dirs|
  {
    if |dirs| == 0 then Ok(LabelFile(map[], 0))
    else
      var prev :- Labelled(dirs[..|dirs| - 1], tree);
      var d := dirs[|dirs| - 1];
      if d !in tree then Err(NotADirectoryError)
      else Ok(LabelFile(Assigned(prev.imgLabel, tree[d], |dirs| - 1), prev.total + |tree[d]|))
  }

  /** `create_label`: list, sort, and label every file of every class directory. */
  method CreateLabel(listing: seq<string>, tree: Tree) returns (r: Result<LabelFile>)
    ensures r == Labelled(Sort(listing), tree)
  {
    var fileList := CopyListing(listing);
    fileList := Sort(fileList);
    r := LabelDirectories(fileList, tree);
  }

  /** The loop copying `os.listdir(dir_path)` into `file_list`. */
  method CopyListing(dirs: seq<string>) returns (fileList: seq<string>)
    ensures fileList == dirs
  {
    fileList := [];
    for k := 0 to |dirs|
      invariant fileList == dirs[..k]
    {
      fileList := fileList + [dirs[k]];
    }
    assert dirs[..|dirs|] == dirs;
  }

  /** The outer loop over the sorted class directories. */
  method LabelDirectories(fileList: seq<string>, tree: Tree) returns (r: Result<LabelFile>)
    ensures r == Labelled(fileList, tree)
  {
    var total := 0;
    var imgLabel: map<string, int> := map[];
    for i := 0 to |fileList|
      invariant Labelled(fileList[..i], tree) == Ok(LabelFile(imgLabel, total))
    {
      assert fileList[..i + 1][..i] == fileList[..i];
      var fileDir := fileList[i];
      if fileDir !in tree {
        LabelledStaysFailed(fileList, i + 1, tree);
        return Err(NotADirectoryError);
      }
      var files := tree[fileDir];
      imgLabel := AssignLabel(imgLabel, files, i);
      total := total + |files|;
    }
    assert fileList[..|fileList|] == fileList;
    r := Ok(LabelFile(imgLabel, total));
  }

  /** The inner loop: `img_label[f] = i` for each file `f` of the directory. */
  method AssignLabel(imgLabel: map<string, int>, files: seq<string>, i: int) returns (m: map<string, int>)
    ensures m == Assigned(imgLabel, files, i)
  {
    m := imgLabel;
    for j := 0 to |files|
      invariant m == Assigned(imgLabel, files[..j], i)
    {
      assert files[..j + 1][..j] == files[..j];
      m := m[files[j] := i];
    }
    assert files[..|files|] == files;
  }

  /** Once a listed name is not a directory, the whole call fails with that error. */
  lemma {:induction false} LabelledStaysFailed(dirs: seq<string>, n: nat, tree: Tree)
    requires n <= |dirs|
    requires Labelled(dirs[..n], tree).Err?
    ensures Labelled(dirs, tree) == Labelled(dirs[..n], tree)
  {
    if n < |dirs| {
      assert dirs[..|dirs| - 1][..n] == dirs[..n];
      LabelledStaysFailed(dirs[..|dirs| - 1], n, tree);
      assert dirs[..|dirs| - 1] == dirs[..|dirs|][..|dirs| - 1];
    } else {
      assert dirs[..n] == dirs;
    }
  }

  /** The call fails exactly when some listed name is not a directory, and then with NotADirectoryError. */
  lemma {:induction false} LabelledFails(dirs: seq<string>, tree: Tree)
    ensures Labelled(dirs, tree).Err? <==> exists d | d in dirs :: d !in tree
    ensures Labelled(dirs, tree).Err? ==> Labelled(dirs, tree).error == NotADirectoryError
  {
    if |dirs| > 0 {
      var init := dirs[..|dirs| - 1];
      LabelledFails(init, tree);
      assert dirs == init + [dirs[|dirs| - 1]];
      assert forall d :: d in dirs <==> d in init || d == dirs[|dirs| - 1];
    }
  }

  /**
   * The label of a file is the position of the last class directory listing
   * it: every labelled file is listed in its label's directory and in no
   * later one, and every listed file is labelled.
   */
  lemma {:induction false} LabelIsLastDirectory(dirs: seq<string>, tree: Tree, f: string)
    requires Labelled(dirs, tree).Ok?
    ensures forall d | d in dirs :: d in tree
    ensures var m := Labelled(dirs, tree).value.imgLabel;
      f in m <==> exists i | 0 <= i < |dirs| :: f in tree[dirs[i]]
    ensures var m := Labelled(dirs, tree).value.imgLabel;
      f in m ==>
        0 <= m[f] < |dirs| && f in tree[dirs[m[f]]] && (forall j | m[f] < j < |dirs| :: f !in tree[dirs[j]])
  {
    if |dirs| > 0 {
      var init := dirs[..|dirs| - 1];
      var last := dirs[|dirs| - 1];
      LabelIsLastDirectory(init, tree, f);
      assert dirs == init + [last];
      var prev := Labelled(init, tree).value.imgLabel;
      AssignedOverrides(prev, tree[last], |dirs| - 1);
      var m := Labelled(dirs, tree).value.imgLabel;
      if f in tree[last] {
        assert m[f] == |dirs| - 1;
      } else if f in prev {
        assert m[f] == prev[f];
      }
    }
  }

  /** The number of files listed across the class directories. */
  function FileCount(dirs: seq<string>, tree: Tree): int
    requires forall d | d in dirs :: d in tree
    decreases |dirs|
  {
    if |dirs| == 0 then 0 else FileCount(dirs[..|dirs| - 1], tree) + |tree[dirs[|dirs| - 1]]|
  }

  /** Labelling `files` adds at most that many keys. */
  lemma {:induction false} AssignedKeys(m: map<string, int>, files: seq<string>, i: int)
    ensures |Assigned(m, files, i).Keys| <= |m.Keys| + |files|
  {
    if |files| > 0 {
      var init := files[..|files| - 1];
      AssignedKeys(m, init, i);
      var a := Assigned(m, init, i);
      assert a[files[|files| - 1] := i].Keys == a.Keys + {files[|files| - 1]};
    }
  }

  /**
   * `total` is the number of files listed across the class directories, so
   * it counts a file named in several directories once per directory and
   * is never below the number of labelled names.
   */
  lemma {:induction false} TotalCountsListings(dirs: seq<string>, tree: Tree)
    requires Labelled(dirs, tree).Ok?
    ensures forall d | d in dirs :: d in tree
    ensures Labelled(dirs, tree).value.total == FileCount(dirs, tree)
    ensures |Labelled(dirs, tree).value.imgLabel.Keys| <= Labelled(dirs, tree).value.total
  {
    if |dirs| > 0 {
      var init := dirs[..|dirs| - 1];
      TotalCountsListings(init, tree);
      assert dirs == init + [dirs[|dirs| - 1]];
      var prev := Labelled(init, tree).value;
      AssignedKeys(prev.imgLabel, tree[dirs[|dirs| - 1]], |dirs| - 1);
    }
  }

  /**
   * The result does not depend on the order in which the operating system
   * lists the class directories: two listings of the same names give the
   * same labels and total.
   */
  lemma ListingOrderIrrelevant(listing1: seq<string>, listing2: seq<string>, tree: Tree)
    requires multiset(listing1) == multiset(listing2)
    ensures Labelled(Sort(listing1), tree) == Labelled(Sort(listing2), tree)
  {
    SortedUnique(Sort(listing1), Sort(listing2));
  }
}
