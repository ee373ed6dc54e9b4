/**
 * What `__kmp_for_static_init` promises its callers, stated over the
 * loop's iterations: on every path, which thread runs which iteration and
 * which thread is told that it runs the last one.
 */
module StaticInit {
  import opened Domains
  import opened Sched
  import opened Iterations
  import BalancedSplit
  import GreedySplit
  import ChunkedSplit
  import SingleSplit

  /**
   * The trip count of lines 240-250 is exact: the bounds' difference fits
   * the loop type, the increment can be negated, and the count fits the
   * unsigned counter.
   */
  predicate CountFits(k: Kind, lower: int, upper: int, incr: int)
    requires incr != 0
  {
    && incr != SignedOf(k).mn
    && InRange(MaxMin(k), if incr > 0 then upper - lower else lower - upper)
    && Count(lower, upper, incr) < Modulus(k)
  }

  /**
   * The bounds handed to a thread that has no iteration fit the type: one
   * increment past `upper` when there are fewer iterations than threads, and
   * the start of the thread's greedy chunk otherwise.
   */
  predicate EdgeFits(k: Kind, flavour: StaticFlavour, lower: int, upper: int, incr: int, nth: int, tid: int)
    requires incr != 0 && nth >= 1
  {
    var trip := Count(lower, upper, incr);
    if trip < nth then tid < trip || InRange(MaxMin(k), upper + incr)
    else
      var a := tid * GreedySplit.Quota(trip, nth);
      flavour == Balanced || a < trip || InRange(MaxMin(k), Iter(lower, incr, a))
  }

  /** The thread that runs iteration `j` of a static (unchunked) loop of `trip` iterations. */
  function Owner(flavour: StaticFlavour, trip: int, nth: int, j: int): int
    requires nth >= 1 && trip >= 1 && 0 <= j
  {
    if trip < nth then j
    else if flavour == Balanced then BalancedSplit.Owner(trip, nth, j)
    else j / GreedySplit.Quota(trip, nth)
  }

  /** Every iteration has an owner in the team. */
  lemma OwnerInTeam(flavour: StaticFlavour, trip: int, nth: int, j: int)
    requires nth >= 1 && 0 <= j < trip
    ensures 0 <= Owner(flavour, trip, nth, j) < nth
  {
    if trip >= nth {
      if flavour == Balanced {
        BalancedSplit.OwnerHolds(trip, nth, j);
      } else {
        GreedySplit.OwnerInTeam(trip, nth, j);
      }
    }
  }

  /**
   * Lines 262-309: in a team of `nth > 1` threads that is not serialized,
   * thread `tid` runs iteration `j` exactly when `j` is an iteration of the
   * loop that `tid` owns, and its flag is set exactly when it owns the last
   * iteration; the stride is left as the caller passed it.  With
   * `OwnerInTeam`, every iteration is run by exactly one thread and exactly
   * one thread is flagged.
   */
  lemma StaticPartition(k: Kind, flavour: StaticFlavour, nth: int, tid: int, check: bool,
                        lower: int, upper: int, stride: int, incr: int, chunk: int, j: int)
    requires LoopArgs(k, lower, upper, incr, chunk) && InRange(SignedOf(k), stride) && Executors(nth, tid)
    requires incr != 0 && !ZeroTrip(lower, upper, incr) && nth > 1
    requires CountFits(k, lower, upper, incr) && EdgeFits(k, flavour, lower, upper, incr, nth, tid)
    ensures var r := ForStaticInit(k, flavour, Static, false, nth, tid, check, lower, upper, stride, incr, chunk);
      var trip := Count(lower, upper, incr);
      && r.Ok? && r.value.stride == stride
      && (Within(r.value.lower, r.value.upper, incr, Iter(lower, incr, j)) <==>
          0 <= j < trip && Owner(flavour, trip, nth, j) == tid)
      && (r.value.last <==> Owner(flavour, trip, nth, trip - 1) == tid)
  {
    CountCounts(lower, upper, incr, 0);
    TripCountIsCount(k, lower, upper, incr);
    StaticResult(k, flavour, nth, tid, check, lower, upper, stride, incr, chunk);
    PiecePartition(k, flavour, nth, tid, lower, upper, incr, j);
  }

  /** The partition of `StaticPartition`, for the piece the static schedule selects. */
  lemma PiecePartition(k: Kind, flavour: StaticFlavour, nth: int, tid: int,
                       lower: int, upper: int, incr: int, j: int)
    requires LoopArgs(k, lower, upper, incr, 0) && Executors(nth, tid)
    requires incr != 0 && !ZeroTrip(lower, upper, incr) && nth > 1
    requires Count(lower, upper, incr) < Modulus(k) && EdgeFits(k, flavour, lower, upper, incr, nth, tid)
    ensures var trip := Count(lower, upper, incr);
      var p := StaticPiece(k, flavour, lower, upper, incr, trip, nth, tid);
      && (Within(p.lo, p.up, incr, Iter(lower, incr, j)) <==> 0 <= j < trip && Owner(flavour, trip, nth, j) == tid)
      && (p.last <==> Owner(flavour, trip, nth, trip - 1) == tid)
  {
    var trip := Count(lower, upper, incr);
    CountCounts(lower, upper, incr, 0);
    if trip < nth {
      if tid < trip {
        IterInRange(k, lower, upper, incr, tid);
      }
      SingleSplit.Partition(k, lower, upper, incr, trip, tid, j);
    } else if flavour == Balanced {
      BalancedSplit.Partition(k, lower, upper, incr, trip, nth, tid, j);
    } else {
      GreedySplit.Partition(k, lower, upper, incr, trip, nth, tid, j);
    }
  }

  /** Past the early returns, the static schedule stores the selected piece and keeps the stride. */
  lemma StaticResult(k: Kind, flavour: StaticFlavour, nth: int, tid: int, check: bool,
                     lower: int, upper: int, stride: int, incr: int, chunk: int)
    requires LoopArgs(k, lower, upper, incr, chunk) && InRange(SignedOf(k), stride) && Executors(nth, tid)
    requires incr != 0 && !ZeroTrip(lower, upper, incr) && nth > 1 && TripCount(k, lower, upper, incr) >= 1
    ensures var p := StaticPiece(k, flavour, lower, upper, incr, TripCount(k, lower, upper, incr), nth, tid);
      ForStaticInit(k, flavour, Static, false, nth, tid, check, lower, upper, stride, incr, chunk)
        == Ok(Bounds(p.lo, p.up, stride, p.last))
  {
  }

  /** Past the early returns, the chunked schedule stores the executor's first block. */
  lemma ChunkedResult(k: Kind, flavour: StaticFlavour, nth: int, tid: int, check: bool,
                      lower: int, upper: int, stride: int, incr: int, chunk: int)
    requires LoopArgs(k, lower, upper, incr, chunk) && InRange(SignedOf(k), stride) && Executors(nth, tid)
    requires incr != 0 && !ZeroTrip(lower, upper, incr) && nth > 1 && TripCount(k, lower, upper, incr) >= 1
    ensures ForStaticInit(k, flavour, StaticChunked, false, nth, tid, check, lower, upper, stride, incr, chunk)
      == Ok(ChunkedChunk(k, lower, incr, chunk, TripCount(k, lower, upper, incr), nth, tid))
  {
  }

  /**
   * Lines 311-324: with the chunked schedule, thread `tid` in round `r`
   * (its bounds advanced by `r` strides) runs iteration `j` exactly when it
   * owns `j` and `r` is `j`'s round, and its flag is set exactly when it
   * owns the last iteration.
   */
  lemma ChunkedRounds(k: Kind, flavour: StaticFlavour, nth: int, tid: int, check: bool,
                      lower: int, upper: int, stride: int, incr: int, chunk: int, r: int, j: int)
    requires LoopArgs(k, lower, upper, incr, chunk) && InRange(SignedOf(k), stride) && Executors(nth, tid)
    requires incr != 0 && !ZeroTrip(lower, upper, incr) && nth > 1
    requires CountFits(k, lower, upper, incr) && ChunkedSplit.NoWrap(k, lower, incr, chunk, nth, tid) && r >= 0
    ensures var res := ForStaticInit(k, flavour, StaticChunked, false, nth, tid, check, lower, upper, stride, incr, chunk);
      var b := res.value;
      && res.Ok?
      && (Within(b.lower + r * b.stride, b.upper + r * b.stride, incr, Iter(lower, incr, j)) <==>
          ChunkedSplit.Owner(chunk, nth, j) == tid && ChunkedSplit.Round(chunk, nth, j) == r)
      && (b.last <==> ChunkedSplit.Owner(chunk, nth, Count(lower, upper, incr) - 1) == tid)
  {
    var trip := Count(lower, upper, incr);
    CountCounts(lower, upper, incr, 0);
    TripCountIsCount(k, lower, upper, incr);
    ChunkedResult(k, flavour, nth, tid, check, lower, upper, stride, incr, chunk);
    ChunkedSplit.Rounds(k, lower, incr, chunk, trip, nth, tid, r, j);
    ChunkedSplit.Flag(k, lower, incr, chunk, trip, nth, tid);
  }

  /**
   * Lines 181-230: a thread of a serialized team, or the only thread of its
   * team, runs the whole loop and is flagged; when the bounds' extent fits
   * the signed type, the stride moves the next round's lower bound one
   * past the upper bound.
   */
  lemma Serial(k: Kind, flavour: StaticFlavour, schedule: Schedule, serialized: bool, nth: int, tid: int,
               check: bool, lower: int, upper: int, stride: int, incr: int, chunk: int, j: int)
    requires LoopArgs(k, lower, upper, incr, chunk) && InRange(SignedOf(k), stride) && Executors(nth, tid)
    requires !ZeroTrip(lower, upper, incr) && (serialized || nth == 1) && !(check && incr == 0)
    ensures var r := ForStaticInit(k, flavour, schedule, serialized, nth, tid, check, lower, upper, stride, incr, chunk);
      && r.Ok? && r.value.lower == lower && r.value.upper == upper && r.value.last
      && (incr != 0 && j >= 0 ==>
           (Within(r.value.lower, r.value.upper, incr, Iter(lower, incr, j)) <==> j < Count(lower, upper, incr)))
      && (incr > 0 && InRange(SignedOf(k), upper - lower + 1) ==> lower + r.value.stride == upper + 1)
      && (incr < 0 && InRange(SignedOf(k), lower - upper + 1) ==> lower + r.value.stride == upper - 1)
  {
    if incr != 0 && j >= 0 {
      CountCounts(lower, upper, incr, j);
    }
  }

  /**
   * Lines 134-165: a loop with no iterations leaves the bounds as they were,
   * so the thread's range is empty, and no thread is flagged.
   */
  lemma ZeroTripRunsNothing(k: Kind, flavour: StaticFlavour, schedule: Schedule, serialized: bool, nth: int,
                            tid: int, check: bool, lower: int, upper: int, stride: int, incr: int, chunk: int, v: int)
    requires LoopArgs(k, lower, upper, incr, chunk) && InRange(SignedOf(k), stride) && Executors(nth, tid)
    requires ZeroTrip(lower, upper, incr) && !(check && incr == 0)
    ensures var r := ForStaticInit(k, flavour, schedule, serialized, nth, tid, check, lower, upper, stride, incr, chunk);
      r.Ok? && !r.value.last && !Within(r.value.lower, r.value.upper, incr, v)
  {
  }

  /**
   * Outside `CountFits` the count can wrap silently, even with checking on:
   * a signed 32-bit loop over the whole domain stepped by 2 has 2^31
   * iterations, but line 246 divides the wrapped difference `-1` and gets
   * a trip count of 1.  Thread 0 of 4 is then handed the single iteration
   * `INT_MIN` with the last flag set.
   */
  lemma HalfDomainWraps()
    ensures Count(-0x8000_0000, 0x7FFF_FFFF, 2) == 0x8000_0000
    ensures TripCount(Int32, -0x8000_0000, 0x7FFF_FFFF, 2) == 1
    ensures ForStaticInit(Int32, Balanced, Static, false, 4, 0, true, -0x8000_0000, 0x7FFF_FFFF, 8, 2, 0)
      == Ok(Bounds(-0x8000_0000, -0x8000_0000, 8, true))
  {
  }
}
