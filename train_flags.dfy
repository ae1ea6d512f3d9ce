/**
 * Rules that several training drivers repeat word for word when they fill
 * in their configuration.
 */
module TrainFlags {

  /**
   * `rank_save_ckpt_flag`: with `is_save_on_master` only rank 0 saves
   * checkpoints, otherwise every rank does.
   */
  function RankSaveCkptFlag(isSaveOnMaster: bool, rank: int): (flag: int)
    ensures flag == 0 || flag == 1
    ensures flag == 1 <==> !isSaveOnMaster || rank == 0
  {
    if isSaveOnMaster then (if rank == 0 then 1 else 0) else 1
  }

  /** Under a saving master, exactly one rank of a group saves. */
  lemma OneSaverOnMaster(groupSize: nat)
    requires groupSize > 0
    ensures |set r | 0 <= r < groupSize && RankSaveCkptFlag(true, r) == 1| == 1
  {
    var savers := set r | 0 <= r < groupSize && RankSaveCkptFlag(true, r) == 1;
    assert savers == {0} by {
      forall r | r in savers ensures r == 0 {}
      assert 0 in savers;
    }
  }

  /** A dynamic loss scale forces the static `loss_scale` to 1. */
  function LossScale(isDynamicLossScale: bool, lossScale: real): (s: real)
    ensures isDynamicLossScale ==> s == 1.0
    ensures !isDynamicLossScale ==> s == lossScale
  {
    if isDynamicLossScale then 1.0 else lossScale
  }
}
