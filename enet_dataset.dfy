/**
 * The file handling of the ENet Cityscapes dataset (research/cv/E-NET/src/dataset.py):
 * which files are images and labels, how image paths are built and taken
 * apart, the resize rule, the checks of `MyCoTransform`, the remap of the
 * ignore label and the pairing of sorted images with sorted labels.
 * Pixel data, random augmentation and file reading are left out.
 */
module EnetDataset {
  import opened Wrappers
  import opened Strings
  import opened StringOrder

  // ---------------------------------------------------------------------
  // File names

  const Extensions: seq<string> := [".jpg", ".png"]

  /** `any(filename.endswith(ext) for ext in exts)`. */
  function AnyEndsWith(filename: string, exts: seq<string>): (b: bool)
    ensures b <==> exists k | 0 <= k < |exts| :: EndsWith(filename, exts[k])
  {
    if |exts| == 0 then false
    else EndsWith(filename, exts[0]) || AnyEndsWith(filename, exts[1..])
  }

  /** `is_image`: the name ends with one of the image extensions. */
  function IsImage(filename: string): (b: bool)
    ensures b <==> EndsWith(filename, ".jpg") || EndsWith(filename, ".png")
  {
    var b := AnyEndsWith(filename, Extensions);
    assert Extensions[0] == ".jpg" && Extensions[1] == ".png";
    b
  }

  /** `is_label`: the name ends with `_labelTrainIds.png`. */
  predicate IsLabel(filename: string)
  {
    EndsWith(filename, "_labelTrainIds.png")
  }

  /** Every label file also passes as an image file. */
  lemma LabelIsImage(filename: string)
    requires IsLabel(filename)
    ensures IsImage(filename)
  {
    var n := |filename|;
    var suffix := "_labelTrainIds.png";
    assert filename[n - 18..] == suffix;
    assert filename[n - 4..] == filename[n - 18..][14..] == ".png";
  }

  /** `image_path`: the root joined with `basename + extension`. */
  function ImagePath(root: string, basename: string, extension: string): (p: string)
    ensures StartsWith(basename + extension, "/") ==> p == basename + extension
    ensures EndsWith(p, basename + extension)
  {
    PathJoinEndsWith(root, basename + extension);
    PathJoin(root, basename + extension)
  }

  /** `image_path_city`: the root joined with the name. */
  function ImagePathCity(root: string, name: string): (p: string)
    ensures EndsWith(p, name)
    ensures !StartsWith(name, "/") ==> StartsWith(p, root)
  {
    PathJoinEndsWith(root, name);
    PathJoin(root, name)
  }

  /** Whether `p[from..to]` holds a character other than `.`. */
  predicate HasNonDot(p: string, from: int, to: int)
    requires 0 <= from && to <= |p|
  {
    exists k | from <= k < to :: p[k] != '.'
  }

  /**
   * `os.path.splitext(p)[0]`: the last `.` of the last component starts the
   * extension, unless only dots precede it in that component.
   */
  function SplitextRoot(p: string): (r: string)
    ensures StartsWith(p, r)
    ensures r == p || (p[|r|] == '.' && '.' !in p[|r| + 1..] && '/' !in p[|r|..])
  {
    var sepIndex := LastIndexOf(p, '/');
    var dotIndex := LastIndexOf(p, '.');
    if dotIndex > sepIndex && HasNonDot(p, sepIndex + 1, dotIndex) then p[..dotIndex] else p
  }

  /** `image_basename`: the last component of the path without its extension. */
  function ImageBasename(filename: string): (r: string)
    ensures '/' !in r
  {
    LastPart(SplitextRoot(filename), '/')
  }

  /** The position of the last `c` in a concatenation. */
  lemma {:induction false} LastIndexOfAppend(x: string, y: string, c: char)
    ensures c in y ==> LastIndexOf(x + y, c) == |x| + LastIndexOf(y, c)
    ensures c !in y ==> LastIndexOf(x + y, c) == LastIndexOf(x, c)
  {
    if |y| > 0 {
      var y' := y[..|y| - 1];
      assert (x + y)[..|x + y| - 1] == x + y';
      LastIndexOfAppend(x, y', c);
    } else {
      assert x + y == x;
    }
  }

  /**
   * `image_basename` undoes `image_path`: a base name without `/` or `.`,
   * given an extension of one `.` and a non-`/` tail, comes back whatever
   * the root.
   */
  lemma ImageBasenameOfImagePath(root: string, basename: string, extension: string)
    requires basename != [] && '/' !in basename && '.' !in basename
    requires |extension| > 0 && extension[0] == '.' && '/' !in extension && '.' !in extension[1..]
    ensures ImageBasename(ImagePath(root, basename, extension)) == basename
  {
    var dir := if root == "" || EndsWith(root, "/") then root else root + "/";
    assert !StartsWith(basename + extension, "/") by { assert (basename + extension)[0] == basename[0]; }
    assert ImagePath(root, basename, extension) == dir + (basename + extension);
    assert dir + (basename + extension) == (dir + basename) + extension;
    SplitextRootDropsExtension(dir, basename, extension);
    LastPartAfterDirectory(dir, basename);
  }

  /** A directory ending in `/` (or none) followed by a base name and its extension loses just the extension. */
  lemma SplitextRootDropsExtension(dir: string, basename: string, extension: string)
    requires dir == "" || dir[|dir| - 1] == '/'
    requires basename != [] && '/' !in basename && '.' !in basename
    requires |extension| > 0 && extension[0] == '.' && '/' !in extension && '.' !in extension[1..]
    ensures SplitextRoot((dir + basename) + extension) == dir + basename
  {
    var p := (dir + basename) + extension;
    var dotIndex := |dir| + |basename|;
    SeparatorOfPath(dir, basename, extension);
    DotOfPath(dir, basename, extension);
    assert p[|dir|] == basename[0];
    assert HasNonDot(p, |dir|, dotIndex);
    assert p[..dotIndex] == dir + basename;
  }

  /** In such a path the last `/` ends the directory. */
  lemma SeparatorOfPath(dir: string, basename: string, extension: string)
    requires dir == "" || dir[|dir| - 1] == '/'
    requires '/' !in basename && '/' !in extension
    ensures LastIndexOf((dir + basename) + extension, '/') == |dir| - 1
  {
    var name := basename + extension;
    assert (dir + basename) + extension == dir + name;
    assert '/' !in name;
    LastIndexOfAppend(dir, name, '/');
    LastIndexOfEnd(dir, '/');
  }

  /** In such a path the last `.` starts the extension. */
  lemma DotOfPath(dir: string, basename: string, extension: string)
    requires '.' !in basename
    requires |extension| > 0 && extension[0] == '.' && '.' !in extension[1..]
    ensures LastIndexOf((dir + basename) + extension, '.') == |dir| + |basename|
  {
    assert LastIndexOf(extension, '.') == 0 by {
      assert extension == [extension[0]] + extension[1..];
      LastIndexOfAppend([extension[0]], extension[1..], '.');
    }
    LastIndexOfAppend(dir + basename, extension, '.');
  }

  /** The last `/` of a directory ending in `/` is its final character. */
  lemma LastIndexOfEnd(dir: string, c: char)
    requires dir == "" || dir[|dir| - 1] == c
    ensures LastIndexOf(dir, c) == |dir| - 1
  {
  }

  /** The last component after a directory ending in `/` is the base name. */
  lemma LastPartAfterDirectory(dir: string, basename: string)
    requires dir == "" || dir[|dir| - 1] == '/'
    requires '/' !in basename
    ensures LastPart(dir + basename, '/') == basename
  {
    LastIndexOfAppend(dir, basename, '/');
    LastIndexOfEnd(dir, '/');
    assert (dir + basename)[|dir|..] == basename;
  }

  // ---------------------------------------------------------------------
  // Resize

  /** A PIL size: `img.size` is `(width, height)`. */
  datatype Size = Size(width: int, height: int)

  /** C-style `int(a / b)` for exact quotients: truncation toward zero. */
  function TruncDiv(a: int, b: int): (q: int)
    requires b != 0
    ensures a >= 0 && b > 0 ==> q * b <= a < q * b + b
  {
    var q := (if a >= 0 then a else -a) / (if b > 0 then b else -b);
    if (a >= 0) == (b > 0) then q else -q
  }

  /**
   * `resize`: the requested height and the width that keeps the aspect
   * ratio, `int(height * width / height)` with the original sizes.
   */
  function Resize(size: Size, height: int): (r: Result<Size>)
    ensures r.Err? <==> size.height == 0
    ensures r.Err? ==> r.error == ZeroDivisionError
    ensures r.Ok? ==> r.value.height == height
    ensures r.Ok? && height >= 0 && size.width >= 0 && size.height > 0 ==>
      r.value.width * size.height <= height * size.width < (r.value.width + 1) * size.height
  {
    if size.height == 0 then Err(ZeroDivisionError)
    else
      var width := TruncDiv(height * size.width, size.height);
      Ok(Size(width, height))
  }

  // ---------------------------------------------------------------------
  // MyCoTransform

  class CoTransform {
    const enc: bool
    const augment: bool
    const height: int
    const ifFromMindrecord: bool
    const stage: int
    const ratio: real

    /** The fields of a transform whose stage has been checked. */
    constructor (stage: int, enc: bool, augment: bool, height: int, ifFromMindrecord: bool)
      requires 1 <= stage <= 3
      ensures this.stage == stage && this.enc == enc && this.augment == augment
      ensures this.height == height && this.ifFromMindrecord == ifFromMindrecord
      ensures ratio == if stage == 1 then 1.2 else 1.3
    {
      this.enc := enc;
      this.augment := augment;
      this.height := height;
      this.ifFromMindrecord := ifFromMindrecord;
      this.stage := stage;
      this.ratio := if stage == 1 then 1.2 else 1.3;
    }
  }

  /** `MyCoTransform(...)`: a stage other than 1, 2 or 3 raises RuntimeError. */
  method NewCoTransform(stage: int, enc: bool, augment: bool, height: int, ifFromMindrecord: bool)
    returns (r: Result<CoTransform>)
    ensures r.Err? <==> !(1 <= stage <= 3)
    ensures r.Err? ==> r.error == RuntimeError
    ensures r.Ok? ==> fresh(r.value) && r.value.stage == stage && r.value.enc == enc
    ensures r.Ok? ==> r.value.augment == augment && r.value.height == height
    ensures r.Ok? ==> r.value.ifFromMindrecord == ifFromMindrecord
    ensures r.Ok? ==> r.value.ratio == if stage == 1 then 1.2 else 1.3
  {
    if !(1 <= stage <= 3) {
      return Err(RuntimeError);
    }
    var t := new CoTransform(stage, enc, augment, height, ifFromMindrecord);
    r := Ok(t);
  }

  // ---------------------------------------------------------------------
  // Label remap

  const IgnoreLabel: nat := 255
  const IgnoreClass: nat := 19

  /** The ignore value 255 becomes class 19; every other label is kept. */
  function RemapLabel(v: nat): (r: nat)
    ensures r != IgnoreLabel
    ensures v != IgnoreLabel ==> r == v
    ensures v == IgnoreLabel ==> r == IgnoreClass
  {
    if v == IgnoreLabel then IgnoreClass else v
  }

  /** `target[target == 255] = 19`, in place. */
  method RemapIgnore(target: array<nat>)
    modifies target
    ensures forall i | 0 <= i < target.Length :: target[i] == RemapLabel(old(target[i]))
  {
    for i := 0 to target.Length
      invariant forall j | 0 <= j < i :: target[j] == RemapLabel(old(target[j]))
      invariant forall j | i <= j < target.Length :: target[j] == old(target[j])
    {
      if target[i] == IgnoreLabel {
        target[i] := IgnoreClass;
      }
    }
  }

  /** Remapping twice changes nothing more: the result holds no 255 and its other values stay. */
  lemma RemapIdempotent(v: nat)
    ensures RemapLabel(RemapLabel(v)) == RemapLabel(v)
  {
  }

  // ---------------------------------------------------------------------
  // cityscapes

  /**
   * The paths `os.path.join(dp, f)` of the walked files `(dp, f)` whose
   * name passes `keep`, in walk order.
   */
  function Listed(walk: seq<(string, string)>, keep: string -> bool): (paths: seq<string>)
    ensures |paths| <= |walk|
    ensures forall p | p in paths :: exists k | 0 <= k < |walk| :: keep(walk[k].1) && p == PathJoin(walk[k].0, walk[k].1)
  {
    if |walk| == 0 then []
    else
      var rest := Listed(walk[..|walk| - 1], keep);
      var (dp, f) := walk[|walk| - 1];
      assert forall k | 0 <= k < |walk| - 1 :: walk[..|walk| - 1][k] == walk[k];
      rest + (if keep(f) then [PathJoin(dp, f)] else [])
  }

  /** Listing a concatenated walk lists each part in turn. */
  lemma {:induction false} ListedAppend(a: seq<(string, string)>, b: seq<(string, string)>, keep: string -> bool)
    ensures Listed(a + b, keep) == Listed(a, keep) + Listed(b, keep)
  {
    if |b| > 0 {
      assert (a + b)[..|a + b| - 1] == a + b[..|b| - 1];
      assert (a + b)[|a + b| - 1] == b[|b| - 1];
      ListedAppend(a, b[..|b| - 1], keep);
    } else {
      assert a + b == a;
    }
  }

  /** Walks holding the same entries, in any order, list the same paths as often. */
  lemma {:induction false} ListedMultiset(walk: seq<(string, string)>, other: seq<(string, string)>, keep: string -> bool)
    requires multiset(walk) == multiset(other)
    ensures multiset(Listed(walk, keep)) == multiset(Listed(other, keep))
  {
    if |walk| > 0 {
      var init := walk[..|walk| - 1];
      var e := walk[|walk| - 1];
      assert walk == init + [e];
      assert e in multiset(other);
      var k :| 0 <= k < |other| && other[k] == e;
      var o1, o2 := other[..k], other[k + 1..];
      assert other == o1 + [e] + o2;
      RemoveOne(init, e, o1, o2);
      ListedMultiset(init, o1 + o2, keep);
      ListedAppend(init, [e], keep);
      ListedMiddle(o1, e, o2, keep);
    } else {
      assert |other| == |multiset(other)| == 0;
    }
  }

  /** Taking the same entry out of two walks with the same entries leaves walks with the same entries. */
  lemma RemoveOne(init: seq<(string, string)>, e: (string, string), o1: seq<(string, string)>, o2: seq<(string, string)>)
    requires multiset(init + [e]) == multiset(o1 + [e] + o2)
    ensures multiset(init) == multiset(o1 + o2)
  {
    var m := multiset(init + [e]);
    assert m == multiset(init) + multiset{e};
    assert m == multiset(o1 + o2) + multiset{e} by {
      assert multiset(o1 + [e] + o2) == multiset(o1) + multiset{e} + multiset(o2);
      assert multiset(o1 + o2) == multiset(o1) + multiset(o2);
    }
    assert multiset(init) == m - multiset{e} == multiset(o1 + o2);
  }

  /** Listing a walk with an entry in the middle lists that entry beside the rest. */
  lemma ListedMiddle(o1: seq<(string, string)>, e: (string, string), o2: seq<(string, string)>, keep: string -> bool)
    ensures multiset(Listed(o1 + [e] + o2, keep)) == multiset(Listed(o1 + o2, keep)) + multiset(Listed([e], keep))
  {
    ListedAppend(o1, o2, keep);
    ListedAppend(o1 + [e], o2, keep);
    ListedAppend(o1, [e], keep);
    var l1, le, l2 := Listed(o1, keep), Listed([e], keep), Listed(o2, keep);
    assert multiset(l1 + le + l2) == multiset(l1) + multiset(le) + multiset(l2);
    assert multiset(l1 + l2) == multiset(l1) + multiset(l2);
  }

  class Cityscapes {
    const imagesRoot: string
    const labelsRoot: string
    const filenames: seq<string>
    const filenamesGt: seq<string>

    /**
     * `cityscapes.__init__`: the images under `leftImg8bit/` + subset and
     * the labels under `gtFine/` + subset, each list sorted. `imageWalk`
     * and `labelWalk` are the `(dirpath, filename)` pairs `os.walk` yields.
     */
    constructor (root: string, subset: string, imageWalk: seq<(string, string)>, labelWalk: seq<(string, string)>)
      ensures imagesRoot == PathJoin(root, "leftImg8bit/") + subset
      ensures labelsRoot == PathJoin(root, "gtFine/") + subset
      ensures filenames == Sort(Listed(imageWalk, IsImage))
      ensures filenamesGt == Sort(Listed(labelWalk, IsLabel))
    {
      imagesRoot := PathJoin(root, "leftImg8bit/") + subset;
      labelsRoot := PathJoin(root, "gtFine/") + subset;
      filenames := Sort(Listed(imageWalk, IsImage));
      filenamesGt := Sort(Listed(labelWalk, IsLabel));
    }

    /** `__len__`: the number of images. */
    function Length(): nat
    {
      |filenames|
    }

    /**
     * The pair `__getitem__` opens: the `index`-th image and the
     * `index`-th label, with Python indexing on both lists.
     */
    function GetItem(index: int): (r: Result<(string, string)>)
      ensures r.Ok? <==> -|filenames| <= index < |filenames| && -|filenamesGt| <= index < |filenamesGt|
      ensures r.Ok? && index >= 0 ==> r.value == (filenames[index], filenamesGt[index])
      ensures r.Err? ==> r.error == IndexError
    {
      var filename :- PyIndex(filenames, index);
      var filenameGt :- PyIndex(filenamesGt, index);
      Ok((filename, filenameGt))
    }
  }

  /**
   * The order in which the directory walk yields files does not matter:
   * the same files walked in any order give the same sorted list.
   */
  lemma ListingIndependentOfWalkOrder(walk: seq<(string, string)>, other: seq<(string, string)>,
                                      keep: string -> bool)
    requires multiset(walk) == multiset(other)
    ensures Sort(Listed(walk, keep)) == Sort(Listed(other, keep))
  {
    ListedMultiset(walk, other, keep);
    SortedUnique(Sort(Listed(walk, keep)), Sort(Listed(other, keep)));
  }

  /**
   * Every index below the number of images yields a pair as long as there
   * are at least as many labels, and the pair is the `i`-th smallest image
   * path with the `i`-th smallest label path.
   */
  lemma PairingBySortedPosition(c: Cityscapes, imageWalk: seq<(string, string)>, labelWalk: seq<(string, string)>,
                                 i: nat)
    requires c.filenames == Sort(Listed(imageWalk, IsImage)) && c.filenamesGt == Sort(Listed(labelWalk, IsLabel))
    requires i < c.Length()
    ensures c.GetItem(i).Ok? <==> i < |c.filenamesGt|
    ensures c.GetItem(i).Ok? ==> c.GetItem(i).value == (c.filenames[i], c.filenamesGt[i])
    ensures forall j | 0 <= j < i :: LessEq(c.filenames[j], c.filenames[i])
    ensures i < |c.filenamesGt| ==> forall j | 0 <= j < i :: LessEq(c.filenamesGt[j], c.filenamesGt[i])
  {
    assert Sorted(c.filenames) && Sorted(c.filenamesGt);
  }
}
