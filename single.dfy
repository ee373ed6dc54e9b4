/**
 * The split used when there are fewer iterations than executors: executor
 * `id` runs iteration `id`, and an executor without an iteration gets a
 * range that starts one increment past the end.
 */
module SingleSplit {
  import opened Domains
  import opened Sched
  import opened Iterations

  /**
   * Lines 269-275 (and 456-463, 526-531): executor `id` runs iteration `j`
   * (counted from `lower`) exactly when `j` is `id` and there are more than
   * `id` iterations, and only the executor of iteration `trip - 1` is
   * flagged.  This needs iteration `id` to fit the type when it exists, and
   * `upper + incr` to fit it when it does not; `upper` itself may lie beyond
   * the `trip` iterations, as at the thread level of a distribute loop.
   */
  lemma Partition(k: Kind, lower: int, upper: int, incr: int, trip: int, id: int, j: int)
    requires LoopArgs(k, lower, upper, incr, 0) && incr != 0 && id >= 0
    requires id < trip ==> InRange(MaxMin(k), Iter(lower, incr, id))
    requires id >= trip ==> InRange(MaxMin(k), upper + incr)
    ensures var p := SingleIteration(k, lower, upper, incr, trip, id);
      && (Within(p.lo, p.up, incr, Iter(lower, incr, j)) <==> j == id < trip)
      && (p.last <==> id == trip - 1)
  {
    if id < trip {
      WithinIters(lower, incr, id, id, j);
    }
  }

  /**
   * When `upper + incr` overflows, the executor without an iteration gets a
   * range that is not empty: an unsigned 32-bit loop over `0xFFFFFFFE` and
   * `0xFFFFFFFF` run by 4 threads gives thread 3 the whole domain.
   */
  lemma PastTheEndWraps()
    ensures Count(0xFFFF_FFFE, 0xFFFF_FFFF, 1) == 2
    ensures SingleIteration(UInt32, 0xFFFF_FFFE, 0xFFFF_FFFF, 1, 2, 3) == Piece(0, 0xFFFF_FFFF, false)
  {
  }
}
