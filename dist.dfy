/**
 * What `__kmp_dist_for_static_init` promises a thread of a team inside a
 * `teams` construct: the loop is first split among the teams, then each
 * team's chunk among its threads.  Iterations are counted from the loop's
 * `lower`; team `t`'s chunk holds the iterations with index in
 * `[TeamStart, TeamStart + TeamSize)`, and a thread's own iterations are
 * named by their index within that chunk.
 */
module DistInit {
  import opened Domains
  import opened Sched
  import opened Iterations
  import BalancedSplit
  import GreedySplit
  import ChunkedSplit
  import SingleSplit
  import StaticInit

  /**
   * The trip counts of lines 443-449 and 510-516 are exact: the bounds'
   * difference fits the signed type and the count fits the unsigned one.
   */
  predicate DistCountFits(k: Kind, lower: int, upper: int, incr: int)
    requires incr != 0
  {
    InRange(SignedOf(k), upper - lower) && Count(lower, upper, incr) < Modulus(k)
  }

  /** Index of the first iteration of team `t`'s chunk. */
  function TeamStart(flavour: StaticFlavour, trip: int, nteams: int, t: int): int
    requires nteams >= 1
  {
    if flavour == Balanced then BalancedSplit.Start(trip, nteams, t)
    else t * GreedySplit.Quota(trip, nteams)
  }

  /** The number of iterations in team `t`'s chunk, when it starts inside the loop. */
  function TeamSize(flavour: StaticFlavour, trip: int, nteams: int, t: int): int
    requires nteams >= 1
  {
    if flavour == Balanced then BalancedSplit.Start(trip, nteams, t + 1) - BalancedSplit.Start(trip, nteams, t)
    else
      var q := GreedySplit.Quota(trip, nteams);
      if trip - t * q < q then trip - t * q else q
  }

  /**
   * The thread that runs the `i`-th iteration of a team chunk of `m`
   * iterations: unlike `__kmp_for_static_init`, the distribute routine gives
   * one iteration per thread already when `m` equals the team size.
   */
  function ThreadOwner(flavour: StaticFlavour, m: int, nth: int, i: int): int
    requires nth >= 1 && i >= 0
  {
    if m <= nth then i else StaticInit.Owner(flavour, m, nth, i)
  }

  /**
   * The bounds handed to a thread without an iteration fit the type: one
   * increment past the loop's `upper` (lines 528-529), or the start of its
   * greedy chunk (line 546), here for a team chunk starting at `lo`.
   */
  predicate ThreadEdgeFits(k: Kind, flavour: StaticFlavour, lo: int, upper: int, incr: int,
                           m: int, nth: int, tid: int)
    requires nth >= 1
  {
    if m <= nth then tid < m || InRange(MaxMin(k), upper + incr)
    else
      var q := GreedySplit.Quota(m, nth);
      flavour == Balanced || tid * q < m || InRange(MaxMin(k), Iter(lo, incr, tid * q))
  }

  /** Every iteration of a team's chunk has an owner in the team. */
  lemma ThreadOwnerInTeam(flavour: StaticFlavour, m: int, nth: int, i: int)
    requires nth >= 1 && 0 <= i < m
    ensures 0 <= ThreadOwner(flavour, m, nth, i) < nth
  {
    if m > nth {
      StaticInit.OwnerInTeam(flavour, m, nth, i);
    }
  }

  /**
   * Lines 467-507, in index space: team `t`'s chunk is a non-empty run of
   * the loop's iterations, and those are exactly the iterations team `t`
   * owns.
   */
  lemma TeamOwnership(flavour: StaticFlavour, trip: int, nteams: int, t: int, j: int)
    requires trip > nteams && 0 <= t < nteams && TeamStart(flavour, trip, nteams, t) < trip
    ensures var a, m := TeamStart(flavour, trip, nteams, t), TeamSize(flavour, trip, nteams, t);
      && 0 <= a && 1 <= m && a + m <= trip
      && (a <= j < a + m <==> 0 <= j < trip && StaticInit.Owner(flavour, trip, nteams, j) == t)
  {
    if flavour == Balanced {
      BalancedSplit.BlockInLoop(trip, nteams, t);
      if TeamStart(flavour, trip, nteams, t) <= j < BalancedSplit.Start(trip, nteams, t + 1) {
        BalancedSplit.OwnerUnique(trip, nteams, j, t);
      }
      if 0 <= j < trip && BalancedSplit.Owner(trip, nteams, j) == t {
        BalancedSplit.OwnerHolds(trip, nteams, j);
      }
    } else {
      var q := GreedySplit.Quota(trip, nteams);
      GreedySplit.QuotaFacts(trip, nteams);
      MulLe(0, t, q);
      OwnedIff(q, t, j);
    }
  }

  /**
   * Lines 467-474: a balanced team chunk starts with iteration
   * `TeamStart`, lies inside the loop and holds `TeamSize` iterations.
   */
  lemma BalancedTeam(k: Kind, lower: int, upper: int, incr: int, trip: int, nteams: int, t: int)
    requires LoopArgs(k, lower, upper, incr, 0) && incr != 0 && !ZeroTrip(lower, upper, incr)
    requires trip == Count(lower, upper, incr) && Executors(nteams, t) && trip > nteams
    ensures var team := TeamPiece(k, Balanced, lower, upper, incr, trip, nteams, t);
      && team.lo == Iter(lower, incr, TeamStart(Balanced, trip, nteams, t))
      && Within(lower, upper, incr, team.lo) && Within(lower, upper, incr, team.up)
      && !ZeroTrip(team.lo, team.up, incr)
      && Count(team.lo, team.up, incr) == TeamSize(Balanced, trip, nteams, t)
  {
    var a, b := BalancedSplit.Start(trip, nteams, t), BalancedSplit.Start(trip, nteams, t + 1);
    BalancedSplit.ChunkIsBlock(k, lower, upper, incr, trip, nteams, t);
    BalancedSplit.BlockInLoop(trip, nteams, t);
    CountCounts(lower, upper, incr, a);
    CountCounts(lower, upper, incr, b - 1);
    WithinIters(lower, incr, a, b - 1, b - 1);
    WithinIters(lower, incr, a, b - 1, b);
    CountOfRun(lower, incr, Iter(lower, incr, a), Iter(lower, incr, b - 1), a, b - a);
  }

  /**
   * Lines 476-507: a greedy team chunk that starts inside the loop starts
   * with iteration `TeamStart`, lies inside the loop (its end clamped to
   * `upper`) and holds `TeamSize` iterations.
   */
  lemma GreedyTeam(k: Kind, lower: int, upper: int, incr: int, trip: int, nteams: int, t: int)
    requires LoopArgs(k, lower, upper, incr, 0) && incr != 0 && !ZeroTrip(lower, upper, incr)
    requires trip == Count(lower, upper, incr) && Executors(nteams, t) && trip > nteams
    requires TeamStart(Greedy, trip, nteams, t) < trip
    ensures var team := TeamPiece(k, Greedy, lower, upper, incr, trip, nteams, t);
      && team.lo == Iter(lower, incr, TeamStart(Greedy, trip, nteams, t))
      && Within(lower, upper, incr, team.lo) && Within(lower, upper, incr, team.up)
      && !ZeroTrip(team.lo, team.up, incr)
      && Count(team.lo, team.up, incr) == TeamSize(Greedy, trip, nteams, t)
  {
    var q := GreedySplit.Quota(trip, nteams);
    var a := t * q;
    var m := TeamSize(Greedy, trip, nteams, t);
    var team := TeamPiece(k, Greedy, lower, upper, incr, trip, nteams, t);
    var u := Iter(lower, incr, a + q - 1);
    GreedySplit.Shape(k, lower, upper, incr, trip, nteams, t);
    CountCounts(lower, upper, incr, a);
    IterOrder(lower, incr, a, a + q - 1);
    GreedyRun(lower, upper, incr, trip, q, a, m, team.lo, u, team.up);
    CountOfRun(lower, incr, team.lo, team.up, a, m);
  }

  /** The end of the greedy team chunk of `GreedyTeam`, from its shape. */
  lemma GreedyRun(lower: int, upper: int, incr: int, trip: int, q: int, a: int, m: int,
                  lo: int, u: int, up: int)
    requires incr != 0 && !ZeroTrip(lower, upper, incr) && trip == Count(lower, upper, incr)
    requires q >= 1 && 0 <= a < trip && m == (if trip - a < q then trip - a else q)
    requires lo == Iter(lower, incr, a) && u == Iter(lower, incr, a + q - 1)
    requires Within(lower, upper, incr, lo) && Within(lo, u, incr, u)
    requires incr > 0 ==> up == (if u <= upper then u else upper)
    requires incr < 0 ==> up == (if u >= upper then u else upper)
    ensures Within(lower, upper, incr, up)
    ensures Within(lo, up, incr, Iter(lower, incr, a + m - 1))
    ensures !Within(lo, up, incr, Iter(lower, incr, a + m))
  {
    GreedySplit.Clamped(lower, upper, incr, lo, u, up, Iter(lower, incr, a + m - 1));
    GreedySplit.Clamped(lower, upper, incr, lo, u, up, Iter(lower, incr, a + m));
    WithinIters(lower, incr, a, a + q - 1, a + m - 1);
    WithinIters(lower, incr, a, a + q - 1, a + m);
    CountCounts(lower, upper, incr, a + m - 1);
    CountCounts(lower, upper, incr, a + m);
  }

  /** Team chunks that start inside the loop, of either flavour. */
  lemma TeamBlock(k: Kind, flavour: StaticFlavour, lower: int, upper: int, incr: int, trip: int, nteams: int, t: int)
    requires LoopArgs(k, lower, upper, incr, 0) && incr != 0 && !ZeroTrip(lower, upper, incr)
    requires trip == Count(lower, upper, incr) && Executors(nteams, t) && trip > nteams
    requires TeamStart(flavour, trip, nteams, t) < trip
    ensures var team := TeamPiece(k, flavour, lower, upper, incr, trip, nteams, t);
      && team.lo == Iter(lower, incr, TeamStart(flavour, trip, nteams, t))
      && Within(lower, upper, incr, team.lo) && Within(lower, upper, incr, team.up)
      && !ZeroTrip(team.lo, team.up, incr)
      && Count(team.lo, team.up, incr) == TeamSize(flavour, trip, nteams, t)
      && (team.last <==> StaticInit.Owner(flavour, trip, nteams, trip - 1) == t)
  {
    if flavour == Balanced {
      BalancedTeam(k, lower, upper, incr, trip, nteams, t);
      BalancedSplit.Flag(trip, nteams);
    } else {
      GreedyTeam(k, lower, upper, incr, trip, nteams, t);
      GreedySplit.Flag(k, lower, upper, incr, trip, nteams, t);
    }
  }

  /**
   * Lines 443-516 at the team level: the team's trip count and its chunk's
   * are exact, the chunk `[lo, upperDist]` holds the run of iterations the
   * team owns, and the team flag marks the owner of the last iteration.
   */
  lemma TeamParts(k: Kind, flavour: StaticFlavour, lower: int, upper: int, incr: int, nteams: int, teamId: int, j: int)
    requires LoopArgs(k, lower, upper, incr, 0) && Executors(nteams, teamId)
    requires incr != 0 && !ZeroTrip(lower, upper, incr) && DistCountFits(k, lower, upper, incr)
    requires Count(lower, upper, incr) > nteams
    requires TeamStart(flavour, Count(lower, upper, incr), nteams, teamId) < Count(lower, upper, incr)
    ensures var trip := Count(lower, upper, incr);
      var a, m := TeamStart(flavour, trip, nteams, teamId), TeamSize(flavour, trip, nteams, teamId);
      var team := TeamPiece(k, flavour, lower, upper, incr, trip, nteams, teamId);
      && DistTripCount(k, lower, upper, incr) == trip
      && 1 <= m && team.lo == Iter(lower, incr, a) && !ZeroTrip(team.lo, team.up, incr)
      && Count(team.lo, team.up, incr) == m && DistTripCount(k, team.lo, team.up, incr) == m
      && (a <= j < a + m <==> 0 <= j < trip && StaticInit.Owner(flavour, trip, nteams, j) == teamId)
      && (Within(team.lo, team.up, incr, Iter(lower, incr, j)) <==> a <= j < a + m)
      && (team.last <==> StaticInit.Owner(flavour, trip, nteams, trip - 1) == teamId)
  {
    var trip := Count(lower, upper, incr);
    var a := TeamStart(flavour, trip, nteams, teamId);
    TeamOwnership(flavour, trip, nteams, teamId, j);
    DistTripCountIsCount(k, lower, upper, incr);
    TeamBlock(k, flavour, lower, upper, incr, trip, nteams, teamId);
    var team := TeamPiece(k, flavour, lower, upper, incr, trip, nteams, teamId);
    SubRangeFits(k, lower, upper, incr, team.lo, team.up);
    DistTripCountIsCount(k, team.lo, team.up, incr);
    Rebase(lower, incr, a, j);
    RangeIsRun(team.lo, team.up, incr, j - a);
  }

  /** A sub-range of a loop whose bounds' difference fits the signed type has the same property. */
  lemma SubRangeFits(k: Kind, lower: int, upper: int, incr: int, lo: int, up: int)
    requires incr != 0 && InRange(SignedOf(k), upper - lower)
    requires Within(lower, upper, incr, lo) && Within(lower, upper, incr, up) && !ZeroTrip(lo, up, incr)
    ensures InRange(SignedOf(k), up - lo)
  {
  }

  /**
   * Lines 522-569, for a team chunk `[lo, up]` of `m` iterations: thread
   * `tid` runs the `i`-th iteration of the chunk exactly when it owns it,
   * and its own flag marks the owner of the chunk's last iteration.
   */
  lemma ThreadBlock(k: Kind, flavour: StaticFlavour, lo: int, up: int, upper: int, incr: int,
                    m: int, nth: int, tid: int, i: int, v: int)
    requires v == Iter(lo, incr, i)
    requires LoopArgs(k, lo, up, incr, 0) && InRange(MaxMin(k), upper) && incr != 0 && !ZeroTrip(lo, up, incr)
    requires m == Count(lo, up, incr) && Executors(nth, tid)
    requires ThreadEdgeFits(k, flavour, lo, upper, incr, m, nth, tid)
    ensures var p := ThreadPiece(k, flavour, lo, up, upper, incr, m, nth, tid);
      && (Within(p.lo, p.up, incr, v) <==> 0 <= i < m && ThreadOwner(flavour, m, nth, i) == tid)
      && (p.last <==> ThreadOwner(flavour, m, nth, m - 1) == tid)
  {
    if m <= nth {
      if tid < m {
        IterInRange(k, lo, up, incr, tid);
      }
      SingleSplit.Partition(k, lo, upper, incr, m, tid, i);
    } else if flavour == Balanced {
      BalancedSplit.Partition(k, lo, up, incr, m, nth, tid, i);
    } else {
      GreedySplit.Partition(k, lo, up, incr, m, nth, tid, i);
    }
  }

  /** Past the fast path, a team whose greedy chunk is empty leaves with that chunk. */
  lemma EarlyExitResult(k: Kind, schedule: Schedule, nteams: int, teamId: int, nth: int, tid: int, check: bool,
                        lower: int, upper: int, incr: int, chunk: int)
    requires LoopArgs(k, lower, upper, incr, chunk) && Executors(nteams, teamId) && Executors(nth, tid)
    requires incr != 0 && !ZeroTrip(lower, upper, incr) && DistTripCount(k, lower, upper, incr) > nteams
    requires var team := TeamPiece(k, Greedy, lower, upper, incr, DistTripCount(k, lower, upper, incr), nteams, teamId);
      if incr > 0 then team.lo > team.up else team.lo < team.up
    ensures var team := TeamPiece(k, Greedy, lower, upper, incr, DistTripCount(k, lower, upper, incr), nteams, teamId);
      DistForStaticInit(k, Greedy, schedule, nteams, teamId, nth, tid, check, lower, upper, incr, chunk)
        == Ok(DistBounds(team.lo, team.up, team.up, Wrap(SignedOf(k), upper - lower), team.last))
  {
  }

  /** Past the fast path and the early exit, the static schedule stores the thread's part of the team chunk. */
  lemma StaticResult(k: Kind, flavour: StaticFlavour, nteams: int, teamId: int, nth: int, tid: int, check: bool,
                     lower: int, upper: int, incr: int, chunk: int, trip: int, m: int)
    requires LoopArgs(k, lower, upper, incr, chunk) && Executors(nteams, teamId) && Executors(nth, tid)
    requires incr != 0 && !ZeroTrip(lower, upper, incr)
    requires trip == DistTripCount(k, lower, upper, incr) && trip > nteams
    requires var team := TeamPiece(k, flavour, lower, upper, incr, trip, nteams, teamId);
      !ZeroTrip(team.lo, team.up, incr) && m == DistTripCount(k, team.lo, team.up, incr)
    ensures var team := TeamPiece(k, flavour, lower, upper, incr, trip, nteams, teamId);
      var p := ThreadPiece(k, flavour, team.lo, team.up, upper, incr, m, nth, tid);
      DistForStaticInit(k, flavour, Static, nteams, teamId, nth, tid, check, lower, upper, incr, chunk)
        == Ok(DistBounds(p.lo, p.up, team.up, Wrap(SignedOf(k), upper - lower), team.last && p.last))
  {
  }

  /** Past the fast path and the early exit, the chunked schedule stores the thread's first block of the team chunk. */
  lemma ChunkedResult(k: Kind, flavour: StaticFlavour, nteams: int, teamId: int, nth: int, tid: int, check: bool,
                      lower: int, upper: int, incr: int, chunk: int, trip: int, m: int)
    requires LoopArgs(k, lower, upper, incr, chunk) && Executors(nteams, teamId) && Executors(nth, tid)
    requires incr != 0 && !ZeroTrip(lower, upper, incr)
    requires trip == DistTripCount(k, lower, upper, incr) && trip > nteams
    requires var team := TeamPiece(k, flavour, lower, upper, incr, trip, nteams, teamId);
      !ZeroTrip(team.lo, team.up, incr) && m == DistTripCount(k, team.lo, team.up, incr)
    ensures var team := TeamPiece(k, flavour, lower, upper, incr, trip, nteams, teamId);
      var b := ChunkedChunk(k, team.lo, incr, chunk, m, nth, tid);
      DistForStaticInit(k, flavour, StaticChunked, nteams, teamId, nth, tid, check, lower, upper, incr, chunk)
        == Ok(DistBounds(b.lower, b.upper, team.up, b.stride, team.last && b.last))
  {
  }

  /**
   * Lines 451-465: with no more iterations than teams, the master of team
   * `t` runs iteration `t` when there is one, every other thread runs
   * nothing, and only the master of the team of the last iteration is
   * flagged.
   */
  lemma FewIterations(k: Kind, flavour: StaticFlavour, schedule: Schedule, nteams: int, teamId: int,
                      nth: int, tid: int, check: bool, lower: int, upper: int, incr: int, chunk: int, j: int)
    requires LoopArgs(k, lower, upper, incr, chunk) && Executors(nteams, teamId) && Executors(nth, tid)
    requires incr != 0 && !ZeroTrip(lower, upper, incr) && DistCountFits(k, lower, upper, incr)
    requires Count(lower, upper, incr) <= nteams
    requires (tid == 0 && teamId < Count(lower, upper, incr)) || InRange(MaxMin(k), upper + incr)
    ensures var r := DistForStaticInit(k, flavour, schedule, nteams, teamId, nth, tid, check, lower, upper, incr, chunk);
      var trip := Count(lower, upper, incr);
      && r.Ok?
      && (Within(r.value.lower, r.value.upper, incr, Iter(lower, incr, j)) <==> tid == 0 && j == teamId && j < trip)
      && (r.value.last <==> tid == 0 && teamId == trip - 1)
  {
    var trip := Count(lower, upper, incr);
    DistTripCountIsCount(k, lower, upper, incr);
    if teamId < trip && tid == 0 {
      IterInRange(k, lower, upper, incr, teamId);
      WithinIters(lower, incr, teamId, teamId, j);
    }
  }

  /**
   * Lines 491-506: a greedy team whose chunk starts past the end of the
   * loop (its start still fitting the type) leaves at once with an empty
   * range and without the flag.
   */
  lemma EmptyTeam(k: Kind, schedule: Schedule, nteams: int, teamId: int, nth: int, tid: int, check: bool,
                  lower: int, upper: int, incr: int, chunk: int, v: int)
    requires LoopArgs(k, lower, upper, incr, chunk) && Executors(nteams, teamId) && Executors(nth, tid)
    requires incr != 0 && !ZeroTrip(lower, upper, incr) && DistCountFits(k, lower, upper, incr)
    requires Count(lower, upper, incr) > nteams
    requires TeamStart(Greedy, Count(lower, upper, incr), nteams, teamId) >= Count(lower, upper, incr)
    requires InRange(MaxMin(k), Iter(lower, incr, TeamStart(Greedy, Count(lower, upper, incr), nteams, teamId)))
    ensures var r := DistForStaticInit(k, Greedy, schedule, nteams, teamId, nth, tid, check, lower, upper, incr, chunk);
      && r.Ok? && r.value.upper == r.value.upperDist && !r.value.last
      && !Within(r.value.lower, r.value.upper, incr, v)
  {
    var trip := Count(lower, upper, incr);
    var a := TeamStart(Greedy, trip, nteams, teamId);
    DistTripCountIsCount(k, lower, upper, incr);
    GreedySplit.Shape(k, lower, upper, incr, trip, nteams, teamId);
    RangeIsRun(lower, upper, incr, a);
    IterOrder(lower, incr, 0, a);
    EarlyExitResult(k, schedule, nteams, teamId, nth, tid, check, lower, upper, incr, chunk);
  }

  /**
   * Lines 467-569, read collectively, for the static schedule: team
   * `teamId`'s chunk, up to `upperDist`, is the run of iterations the team
   * owns; thread `tid` runs the iterations of that run that it owns; and its
   * flag is set exactly when its team owns the loop's last iteration and it
   * owns the last iteration of its team's chunk.
   */
  lemma DistStatic(k: Kind, flavour: StaticFlavour, nteams: int, teamId: int, nth: int, tid: int, check: bool,
                   lower: int, upper: int, incr: int, chunk: int, j: int)
    requires LoopArgs(k, lower, upper, incr, chunk) && Executors(nteams, teamId) && Executors(nth, tid)
    requires incr != 0 && !ZeroTrip(lower, upper, incr) && DistCountFits(k, lower, upper, incr)
    requires Count(lower, upper, incr) > nteams
    requires TeamStart(flavour, Count(lower, upper, incr), nteams, teamId) < Count(lower, upper, incr)
    requires ThreadEdgeFits(k, flavour, Iter(lower, incr, TeamStart(flavour, Count(lower, upper, incr), nteams, teamId)),
                            upper, incr, TeamSize(flavour, Count(lower, upper, incr), nteams, teamId), nth, tid)
    ensures var trip := Count(lower, upper, incr);
      var a, m := TeamStart(flavour, trip, nteams, teamId), TeamSize(flavour, trip, nteams, teamId);
      var r := DistForStaticInit(k, flavour, Static, nteams, teamId, nth, tid, check, lower, upper, incr, chunk);
      && r.Ok? && 1 <= m
      && (a <= j < a + m <==> 0 <= j < trip && StaticInit.Owner(flavour, trip, nteams, j) == teamId)
      && (Within(Iter(lower, incr, a), r.value.upperDist, incr, Iter(lower, incr, j)) <==> a <= j < a + m)
      && (Within(r.value.lower, r.value.upper, incr, Iter(lower, incr, j)) <==>
          a <= j < a + m && ThreadOwner(flavour, m, nth, j - a) == tid)
      && (r.value.last <==>
          StaticInit.Owner(flavour, trip, nteams, trip - 1) == teamId && ThreadOwner(flavour, m, nth, m - 1) == tid)
  {
    var trip := Count(lower, upper, incr);
    var a, m := TeamStart(flavour, trip, nteams, teamId), TeamSize(flavour, trip, nteams, teamId);
    TeamParts(k, flavour, lower, upper, incr, nteams, teamId, j);
    var team := TeamPiece(k, flavour, lower, upper, incr, trip, nteams, teamId);
    StaticResult(k, flavour, nteams, teamId, nth, tid, check, lower, upper, incr, chunk, trip, m);
    Rebase(lower, incr, a, j);
    ThreadBlock(k, flavour, team.lo, team.up, upper, incr, m, nth, tid, j - a, Iter(lower, incr, j));
  }

  /**
   * Lines 467-507 and 573-582: with the chunked schedule, team `teamId`'s
   * chunk, up to `upperDist`, is the run of iterations the team owns, and
   * thread `tid` in round `r` (its bounds advanced by `r` strides) runs the
   * `i`-th iteration of that chunk exactly when it owns `i` and `r` is
   * `i`'s round; its flag is set exactly when its team owns the loop's last
   * iteration and it owns the last iteration of its team's chunk.
   */
  lemma DistChunked(k: Kind, flavour: StaticFlavour, nteams: int, teamId: int, nth: int, tid: int, check: bool,
                    lower: int, upper: int, incr: int, chunk: int, r: int, j: int)
    requires LoopArgs(k, lower, upper, incr, chunk) && Executors(nteams, teamId) && Executors(nth, tid)
    requires incr != 0 && !ZeroTrip(lower, upper, incr) && DistCountFits(k, lower, upper, incr)
    requires Count(lower, upper, incr) > nteams
    requires TeamStart(flavour, Count(lower, upper, incr), nteams, teamId) < Count(lower, upper, incr)
    requires ChunkedSplit.NoWrap(k, Iter(lower, incr, TeamStart(flavour, Count(lower, upper, incr), nteams, teamId)),
                                 incr, chunk, nth, tid)
    requires r >= 0
    ensures var trip := Count(lower, upper, incr);
      var a, m := TeamStart(flavour, trip, nteams, teamId), TeamSize(flavour, trip, nteams, teamId);
      var res := DistForStaticInit(k, flavour, StaticChunked, nteams, teamId, nth, tid, check, lower, upper, incr, chunk);
      var b := res.value;
      && res.Ok? && 1 <= m
      && (a <= j < a + m <==> 0 <= j < trip && StaticInit.Owner(flavour, trip, nteams, j) == teamId)
      && (Within(Iter(lower, incr, a), b.upperDist, incr, Iter(lower, incr, j)) <==> a <= j < a + m)
      && (Within(b.lower + r * b.stride, b.upper + r * b.stride, incr, Iter(lower, incr, j)) <==>
          ChunkedSplit.Owner(chunk, nth, j - a) == tid && ChunkedSplit.Round(chunk, nth, j - a) == r)
      && (b.last <==>
          StaticInit.Owner(flavour, trip, nteams, trip - 1) == teamId && ChunkedSplit.Owner(chunk, nth, m - 1) == tid)
  {
    var trip := Count(lower, upper, incr);
    var a, m := TeamStart(flavour, trip, nteams, teamId), TeamSize(flavour, trip, nteams, teamId);
    TeamParts(k, flavour, lower, upper, incr, nteams, teamId, j);
    var team := TeamPiece(k, flavour, lower, upper, incr, trip, nteams, teamId);
    ChunkedResult(k, flavour, nteams, teamId, nth, tid, check, lower, upper, incr, chunk, trip, m);
    Rebase(lower, incr, a, j);
    ChunkedSplit.Rounds(k, team.lo, incr, chunk, m, nth, tid, r, j - a);
    ChunkedSplit.Flag(k, team.lo, incr, chunk, m, nth, tid);
  }
}
