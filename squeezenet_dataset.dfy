/**
 * The worker and rank helpers of the SqueezeNet dataset
 * (research/cv/squeezenet/src/dataset.py). The CPU count and the
 * communication group's rank and size are inputs.
 */
module SqueezenetDataset {

  /** The `num_parallel_workers` argument: an `int`, or anything else. */
  datatype WorkerRequest = IntRequest(n: int) | OtherRequest

  function Min(a: int, b: int): (m: int)
    ensures m <= a && m <= b && (m == a || m == b)
  {
    if a <= b then a else b
  }

  /**
   * `get_num_parallel_workers`: an int request is lowered to the CPU count
   * when it exceeds it and kept otherwise; anything else becomes
   * `min(cores, 8)`.
   */
  function GetNumParallelWorkers(request: WorkerRequest, cores: nat): (workers: int)
    ensures request.IntRequest? && request.n <= cores ==> workers == request.n
    ensures request.IntRequest? && request.n > cores ==> workers == cores
    ensures request.OtherRequest? ==> workers == Min(cores, 8)
    ensures workers <= cores
  {
    match request
    case IntRequest(n) => if cores < n then cores else n
    case OtherRequest => Min(cores, 8)
  }

  /** Asking again with the answer gives the answer: the clamp is idempotent. */
  lemma GetNumParallelWorkersIdempotent(request: WorkerRequest, cores: nat)
    ensures var w := GetNumParallelWorkers(request, cores);
      GetNumParallelWorkers(IntRequest(w), cores) == w
  {
  }

  /** A positive request on a machine with cores yields at least one worker. */
  lemma GetNumParallelWorkersPositive(request: WorkerRequest, cores: nat)
    requires cores > 0
    requires request.IntRequest? ==> request.n > 0
    ensures GetNumParallelWorkers(request, cores) > 0
  {
  }

  /**
   * `_get_rank_info`: `(device_num, rank_id)`, the group's size and this
   * device's rank when distributed, `(1, 0)` otherwise.
   */
  function GetRankInfo(distribute: bool, groupRank: nat, groupSize: nat): (info: (nat, nat))
    ensures !distribute ==> info == (1, 0)
    ensures distribute ==> info.0 == groupSize && info.1 == groupRank
  {
    if distribute then (groupSize, groupRank) else (1, 0)
  }
}
