/**
 * The batch driver of the SKNet inference program
 * (research/cv/sknet/infer/mxbase/src/main.cpp): it lists an image
 * directory, feeds the files to the classifier in batches of 32 and stops
 * at the first failing batch. The directory listing, the classifier's
 * `Init` and `Process` results are inputs; the classifier itself, logging
 * and timing are not part of this model.
 */
module SknetMain {

  const ClassNum: nat := 10
  const BatchSize: nat := 32

  /** `size_t` arithmetic wraps modulo 2^64. */
  const SizeModulus: nat := 0x1_0000_0000_0000_0000

  /** The result codes the program returns. */
  datatype AppError = AppErrOk | AppErrInternalError | AppErrCode(code: int)

  // ---------------------------------------------------------------------
  // ScanImages

  /** `opendir` either fails or yields the directory's entries in `readdir` order. */
  datatype Listing = OpenFailed | Entries(names: seq<string>)

  predicate IsDotEntry(name: string)
  {
    name == "." || name == ".."
  }

  /** The paths `ScanImages` collects from a listing of `path`. */
  function ScannedPaths(path: string, names: seq<string>): (paths: seq<string>)
    ensures |paths| <= |names|
    ensures forall p | p in paths :: exists name | name in names :: !IsDotEntry(name) && p == path + "/" + name
    ensures forall name | name in names && !IsDotEntry(name) :: path + "/" + name in paths
  {
    if |names| == 0 then []
    else
      var rest := ScannedPaths(path, names[..|names| - 1]);
      var name := names[|names| - 1];
      assert forall n | n in names[..|names| - 1] :: n in names;
      assert forall n | n in names :: n in names[..|names| - 1] || n == name;
      if IsDotEntry(name) then rest else rest + [path + "/" + name]
  }

  /** Dot entries aside, the listing order is kept: dropping them first gives the same paths. */
  lemma {:induction false} ScannedPathsOfPlainNames(path: string, names: seq<string>)
    requires forall i | 0 <= i < |names| :: !IsDotEntry(names[i])
    ensures ScannedPaths(path, names) == seq(|names|, i requires 0 <= i < |names| => path + "/" + names[i])
  {
    var n := |names|;
    if n > 0 {
      var init := names[..n - 1];
      ScannedPathsOfPlainNames(path, init);
      assert !IsDotEntry(names[n - 1]);
      var full := seq(n, i requires 0 <= i < n => path + "/" + names[i]);
      var part := seq(n - 1, i requires 0 <= i < n - 1 => path + "/" + init[i]);
      assert full == part + [path + "/" + names[n - 1]];
    }
  }

  /** `ScanImages`: the `readdir` loop, skipping `.` and `..`. */
  method ScanImages(path: string, listing: Listing) returns (ret: AppError, imgFiles: seq<string>)
    ensures listing.OpenFailed? ==> ret == AppErrInternalError && imgFiles == []
    ensures listing.Entries? ==> ret == AppErrOk && imgFiles == ScannedPaths(path, listing.names)
  {
    imgFiles := [];
    if listing.OpenFailed? {
      return AppErrInternalError, imgFiles;
    }
    var names := listing.names;
    var k := 0;
    while k < |names|
      invariant 0 <= k <= |names|
      invariant imgFiles == ScannedPaths(path, names[..k])
    {
      assert names[..k + 1][..k] == names[..k];
      var fileName := names[k];
      k := k + 1;
      if fileName == "." || fileName == ".." {
        continue;
      }
      imgFiles := imgFiles + [path + "/" + fileName];
    }
    assert names[..k] == names;
    ret := AppErrOk;
  }

  // ---------------------------------------------------------------------
  // The batch loop

  /** The `j`-th batch: paths `32j` up to but excluding `32j + 32`. */
  function Batch(paths: seq<string>, j: nat): (b: seq<string>)
    requires BatchSize * j + BatchSize <= |paths|
    ensures |b| == BatchSize
    ensures forall t | 0 <= t < BatchSize :: b[t] == paths[BatchSize * j + t]
  {
    paths[BatchSize * j..BatchSize * j + BatchSize]
  }

  /** The loop's variables: the last result, the batches handed to `Process`, and `inferImgsCount`. */
  datatype Progress = Progress(ret: AppError, attempted: seq<seq<string>>, count: int)

  /**
   * The loop after its first `k` iterations: a failing batch ends it with
   * that batch's code; each successful one adds 32 to the count.
   */
  function Processed(paths: seq<string>, process: seq<string> -> AppError, k: nat): (p: Progress)
    requires BatchSize * k <= |paths|
    ensures |p.attempted| <= k
    ensures forall j | 0 <= j < |p.attempted| :: BatchSize * j + BatchSize <= |paths| && p.attempted[j] == Batch(paths, j)
    ensures p.ret == AppErrOk ==> |p.attempted| == k && p.count == BatchSize * k
    ensures forall j | 0 <= j < |p.attempted| && (p.ret == AppErrOk || j < |p.attempted| - 1) :: process(p.attempted[j]) == AppErrOk
    ensures p.ret != AppErrOk ==> |p.attempted| >= 1 && process(p.attempted[|p.attempted| - 1]) == p.ret
    ensures p.ret != AppErrOk ==> p.count == BatchSize * (|p.attempted| - 1)
  {
    if k == 0 then Progress(AppErrOk, [], 0)
    else
      var p := Processed(paths, process, k - 1);
      if p.ret != AppErrOk then p
      else
        var b := Batch(paths, k - 1);
        if process(b) == AppErrOk then Progress(AppErrOk, p.attempted + [b], p.count + BatchSize)
        else Progress(process(b), p.attempted + [b], p.count)
  }

  /** Once a batch has failed, later iterations are never reached. */
  lemma {:induction false} ProcessedStaysFailed(paths: seq<string>, process: seq<string> -> AppError, k: nat, m: nat)
    requires k <= m && BatchSize * m <= |paths|
    requires Processed(paths, process, k).ret != AppErrOk
    ensures Processed(paths, process, m) == Processed(paths, process, k)
  {
    if m > k {
      ProcessedStaysFailed(paths, process, k, m - 1);
    }
  }

  /** The number of full batches among `n` paths. */
  function FullBatches(n: nat): (k: nat)
    ensures BatchSize * k <= n < BatchSize * k + BatchSize
  {
    n / BatchSize
  }

  /** What the program does: the code it returns, the batches it sent, and whether it called `DeInit`. */
  datatype Outcome = Outcome(ret: AppError, attempted: seq<seq<string>>, deInit: bool, inferImgsCount: int)

  /**
   * `main`: without a path argument it only warns; a failing `Init` or
   * directory scan returns before the loop (without `DeInit`); otherwise
   * the full batches run in order until one fails, and `DeInit` follows
   * either way.
   */
  function Inference(argc: int, imgPath: string, initRet: AppError, listing: Listing,
                     process: seq<string> -> AppError): Outcome
  {
    if argc <= 1 then Outcome(AppErrOk, [], false, 0)
    else if initRet != AppErrOk then Outcome(initRet, [], false, 0)
    else if listing.OpenFailed? then Outcome(AppErrInternalError, [], false, 0)
    else
      var paths := ScannedPaths(imgPath, listing.names);
      var p := Processed(paths, process, FullBatches(|paths|));
      Outcome(p.ret, p.attempted, true, p.count)
  }

  /** `main`, with the loop guard written as `i + BATCH_SIZE <= size()` (see `AsWrittenGuard`). */
  method RunInference(argc: int, imgPath: string, initRet: AppError, listing: Listing,
                      process: seq<string> -> AppError) returns (out: Outcome)
    ensures out == Inference(argc, imgPath, initRet, listing, process)
  {
    if argc <= 1 {
      return Outcome(AppErrOk, [], false, 0);
    }
    if initRet != AppErrOk {
      return Outcome(initRet, [], false, 0);
    }
    var ret, imgFilePaths := ScanImages(imgPath, listing);
    if ret != AppErrOk {
      return Outcome(ret, [], false, 0);
    }
    var p := InferBatches(imgFilePaths, process);
    out := Outcome(p.ret, p.attempted, true, p.count);
  }

  /** The batch loop of `main`: full batches in order until one fails. */
  method InferBatches(imgFilePaths: seq<string>, process: seq<string> -> AppError) returns (p: Progress)
    ensures p == Processed(imgFilePaths, process, FullBatches(|imgFilePaths|))
  {
    var inferImgsCount := 0;
    var attempted: seq<seq<string>> := [];
    var i := 0;
    ghost var j := 0;
    while i + BatchSize <= |imgFilePaths|
      invariant i == BatchSize * j && i <= |imgFilePaths|
      invariant Processed(imgFilePaths, process, j) == Progress(AppErrOk, attempted, inferImgsCount)
      decreases |imgFilePaths| - i
    {
      var batchImgFilePaths := imgFilePaths[i..i + BatchSize];
      assert batchImgFilePaths == Batch(imgFilePaths, j);
      var ret := process(batchImgFilePaths);
      attempted := attempted + [batchImgFilePaths];
      if ret != AppErrOk {
        ProcessedStaysFailed(imgFilePaths, process, j + 1, FullBatches(|imgFilePaths|));
        return Progress(ret, attempted, inferImgsCount);
      }
      inferImgsCount := inferImgsCount + BatchSize;
      i := i + BatchSize;
      j := j + 1;
    }
    assert j == FullBatches(|imgFilePaths|);
    p := Progress(AppErrOk, attempted, inferImgsCount);
  }

  /** Without a path argument the program succeeds without touching the classifier. */
  lemma NoArgumentSucceeds(argc: int, imgPath: string, initRet: AppError, listing: Listing, process: seq<string> -> AppError)
    requires argc <= 1
    ensures Inference(argc, imgPath, initRet, listing, process) == Outcome(AppErrOk, [], false, 0)
  {
  }

  /**
   * A successful run sends the full batches, consecutive and disjoint, in
   * order; the paths after the last full batch are never sent, and the
   * count is 32 × (n / 32).
   */
  lemma {:induction false} SuccessProcessesFullBatches(argc: int, imgPath: string, initRet: AppError, names: seq<string>,
                                                       process: seq<string> -> AppError)
    requires Inference(argc, imgPath, initRet, Entries(names), process).ret == AppErrOk && argc > 1
    ensures var paths := ScannedPaths(imgPath, names);
      var out := Inference(argc, imgPath, initRet, Entries(names), process);
      |out.attempted| == |paths| / BatchSize && out.inferImgsCount == BatchSize * (|paths| / BatchSize) &&
      Flatten(out.attempted) == paths[..BatchSize * (|paths| / BatchSize)] && out.deInit
  {
    var paths := ScannedPaths(imgPath, names);
    var p := Processed(paths, process, FullBatches(|paths|));
    FlattenBatches(paths, p.attempted);
  }

  /** A failing batch stops the loop: `DeInit` is called and that batch's code is returned. */
  lemma FailureDeInits(argc: int, imgPath: string, initRet: AppError, names: seq<string>, process: seq<string> -> AppError)
    requires argc > 1 && initRet == AppErrOk
    requires Inference(argc, imgPath, initRet, Entries(names), process).ret != AppErrOk
    ensures var out := Inference(argc, imgPath, initRet, Entries(names), process);
      out.deInit && |out.attempted| >= 1 && process(out.attempted[|out.attempted| - 1]) == out.ret &&
      out.inferImgsCount == BatchSize * (|out.attempted| - 1)
  {
  }

  function Flatten(bs: seq<seq<string>>): seq<string>
  {
    if |bs| == 0 then [] else Flatten(bs[..|bs| - 1]) + bs[|bs| - 1]
  }

  /** The first `k` batches, laid end to end, are the first `32k` paths. */
  lemma {:induction false} FlattenBatches(paths: seq<string>, bs: seq<seq<string>>)
    requires BatchSize * |bs| <= |paths|
    requires forall j | 0 <= j < |bs| :: BatchSize * j + BatchSize <= |paths| && bs[j] == Batch(paths, j)
    ensures Flatten(bs) == paths[..BatchSize * |bs|]
  {
    if |bs| > 0 {
      var k := |bs| - 1;
      FlattenBatches(paths, bs[..k]);
      assert paths[..BatchSize * k] + paths[BatchSize * k..BatchSize * k + BatchSize] == paths[..BatchSize * (k + 1)];
    }
  }

  // ---------------------------------------------------------------------
  // The loop guard as written

  /**
   * `i <= imgFilePaths.size() - BATCH_SIZE`: the subtraction is done in
   * `size_t` and wraps when fewer than 32 paths were found.
   */
  predicate AsWrittenGuard(i: nat, n: nat)
    requires n < SizeModulus
  {
    i <= (n - BatchSize) % SizeModulus
  }

  /** With at least 32 paths the guard as written is the intended one. */
  lemma AsWrittenGuardAgrees(i: nat, n: nat)
    requires BatchSize <= n < SizeModulus
    ensures AsWrittenGuard(i, n) <==> i + BatchSize <= n
  {
  }

  /**
   * With fewer than 32 paths the guard as written still admits the first
   * iteration, whose batch `[begin, begin + 32)` runs past the end of the
   * vector; five images show it.
   */
  lemma AsWrittenGuardEntersWithFewImages(n: nat)
    requires n < BatchSize
    ensures AsWrittenGuard(0, n) && 0 + BatchSize > n
  {
  }

  /** With the intended guard, fewer than 32 images give no batch and a successful run. */
  lemma FewImagesProcessNothing(argc: int, imgPath: string, names: seq<string>, process: seq<string> -> AppError)
    requires argc > 1 && |ScannedPaths(imgPath, names)| < BatchSize
    ensures Inference(argc, imgPath, AppErrOk, Entries(names), process) == Outcome(AppErrOk, [], true, 0)
  {
  }
}
