/**
 * The static loop scheduler of the OpenMP runtime (kmp_sched.cpp): given a
 * loop's inclusive bounds, its increment, a chunk size and the caller's
 * place among the executors, each routine computes the caller's own
 * sub-range, the stride for later rounds and the "last iteration" flag.
 *
 * The C++ routines update their out-parameters step by step; here each
 * update is a `var` binding and each store into a variable of the loop type
 * `T`, its signed counterpart `ST` or the unsigned counter type `UT` goes
 * through `Wrap`, the reduction into that type's range.  Blocks of formulas
 * that the source repeats at the team level and at the thread level are
 * written once (`SingleIteration`, `BalancedChunk`, `GreedyChunk`,
 * `ChunkedChunk`) and applied at both levels.
 */
module Sched {
  import opened Domains

  /** The schedule argument, after the distribute remapping done by the caller. */
  datatype Schedule = Static | StaticChunked | OtherSchedule

  /** The runtime-wide choice `__kmp_static` for the unchunked static schedule. */
  datatype StaticFlavour = Greedy | Balanced

  /** The consistency checker's fatal errors, and the unknown-schedule assertion. */
  datatype Error = IncrZeroProhibited | IncrIllegal | IterationRangeTooLarge | UnknownSchedule

  datatype Result<T> = Ok(value: T) | Err(error: Error)

  /** What `__kmp_for_static_init` and `__kmp_team_static_init` store. */
  datatype Bounds = Bounds(lower: int, upper: int, stride: int, last: bool)

  /** What `__kmp_dist_for_static_init` stores. */
  datatype DistBounds = DistBounds(lower: int, upper: int, upperDist: int, stride: int, last: bool)

  /** One executor's sub-range at one level, with that level's own last flag. */
  datatype Piece = Piece(lo: int, up: int, last: bool)

  /** The arguments as the C++ types hold them. */
  predicate LoopArgs(k: Kind, lower: int, upper: int, incr: int, chunk: int) {
    && InRange(MaxMin(k), lower) && InRange(MaxMin(k), upper)
    && InRange(SignedOf(k), incr) && InRange(SignedOf(k), chunk)
  }

  /** An executor count and index as `kmp_uint32` values (a team has at least one member). */
  predicate Executors(n: int, id: int) {
    1 <= n < 0x1_0000_0000 && 0 <= id < n
  }

  /** The zero-trip test of line 134, also the illegal-loop test of lines 418 and 657. */
  predicate ZeroTrip(lower: int, upper: int, incr: int) {
    if incr > 0 then upper < lower else lower < upper
  }

  /** Lines 240-250: the trip count of `__kmp_for_static_init`. */
  function TripCount(k: Kind, lower: int, upper: int, incr: int): (n: int)
    requires LoopArgs(k, lower, upper, incr, 0) && incr != 0
    ensures InRange(UnsignedOf(k), n)
  {
    var T, S, U := MaxMin(k), SignedOf(k), UnsignedOf(k);
    if incr == 1 then Wrap(U, upper - lower + 1)
    else if incr == -1 then Wrap(U, lower - upper + 1)
    else if incr > 1 then Wrap(U, LoopDiv(k, Wrap(T, upper - lower), incr) + 1)
    else Wrap(U, LoopDiv(k, Wrap(T, lower - upper), Wrap(S, -incr)) + 1)
  }

  /**
   * Lines 443-449, 510-516 and 680-686: the trip count of the distribute
   * routines, which divide the difference cast to the signed type.
   */
  function DistTripCount(k: Kind, lower: int, upper: int, incr: int): (n: int)
    requires LoopArgs(k, lower, upper, incr, 0) && incr != 0
    ensures InRange(UnsignedOf(k), n)
  {
    var S, U := SignedOf(k), UnsignedOf(k);
    if incr == 1 then Wrap(U, upper - lower + 1)
    else if incr == -1 then Wrap(U, lower - upper + 1)
    else Wrap(U, TDiv(Wrap(S, upper - lower), incr) + 1)
  }

  /**
   * Lines 269-275 (and 526-531): with fewer iterations than executors,
   * executor `id` takes iteration `id` if there is one and otherwise the
   * empty range that starts one increment past `upper`.
   */
  function SingleIteration(k: Kind, lower: int, upper: int, incr: int, trip: int, id: int): (p: Piece)
    requires LoopArgs(k, lower, upper, incr, 0) && 0 <= id
    ensures InRange(MaxMin(k), p.lo) && InRange(MaxMin(k), p.up)
    ensures id < trip ==> p.lo == p.up
    ensures id >= trip ==> p.up == upper
    ensures p.last <==> id + 1 == trip
  {
    var T := MaxMin(k);
    if id < trip then
      var v := Wrap(T, lower + id * incr);
      Piece(v, v, id == trip - 1)
    else
      Piece(Wrap(T, upper + incr), upper, id == trip - 1)
  }

  /**
   * Lines 277-283 (and 468-474, 534-541): the balanced split, in which the
   * first `trip % n` executors take one iteration more than the others.
   */
  function BalancedChunk(k: Kind, lower: int, incr: int, trip: int, n: int, id: int): (p: Piece)
    requires LoopArgs(k, lower, lower, incr, 0) && Executors(n, id) && trip >= 0
    ensures InRange(MaxMin(k), p.lo) && InRange(MaxMin(k), p.up)
    ensures p.last <==> id == n - 1
  {
    var T := MaxMin(k);
    var small := trip / n;
    var extras := trip % n;
    var lo := Wrap(T, lower + incr * (id * small + (if id < extras then id else extras)));
    var up := Wrap(T, lo + small * incr - (if id < extras then 0 else incr));
    Piece(lo, up, id == n - 1)
  }

  /**
   * Lines 285-306 (and 476-490, 543-566): the greedy split into chunks of
   * `ceil(trip / n)` iterations.  An upper bound that wrapped past the end of
   * the domain is replaced by the domain's sentinel; the flag is taken from
   * the unclamped range; the upper bound is then clamped to `upper`.
   */
  function GreedyChunk(k: Kind, lower: int, upper: int, incr: int, trip: int, n: int, id: int): (p: Piece)
    requires LoopArgs(k, lower, upper, incr, 0) && Executors(n, id) && trip >= 0 && incr != 0
    ensures InRange(MaxMin(k), p.lo) && InRange(MaxMin(k), p.up)
    ensures incr > 0 ==> p.up <= upper
    ensures incr < 0 ==> p.up >= upper
  {
    var T := MaxMin(k);
    var bigChunkIncCount := Wrap(T, (trip / n + (if trip % n != 0 then 1 else 0)) * incr);
    var oldUpper := upper;
    var lo := Wrap(T, lower + id * bigChunkIncCount);
    var up := Wrap(T, lo + bigChunkIncCount - incr);
    if incr > 0 then
      var up' := if up < lo then T.mx else up;
      var last := lo <= oldUpper && up' > Wrap(T, oldUpper - incr);
      Piece(lo, if up' > oldUpper then oldUpper else up', last)
    else
      var up' := if up > lo then T.mn else up;
      var last := lo >= oldUpper && up' < Wrap(T, oldUpper - incr);
      Piece(lo, if up' < oldUpper then oldUpper else up', last)
  }

  /**
   * Lines 311-324 (and 573-582, 687-694): round-robin chunks of `chunk`
   * iterations (at least one); the stride advances an executor to its chunk
   * in the next round.
   */
  function ChunkedChunk(k: Kind, lower: int, incr: int, chunk: int, trip: int, n: int, id: int): (b: Bounds)
    requires LoopArgs(k, lower, lower, incr, chunk) && Executors(n, id) && InRange(UnsignedOf(k), trip)
    ensures InRange(MaxMin(k), b.lower) && InRange(MaxMin(k), b.upper)
    ensures InRange(SignedOf(k), b.stride)
  {
    var T, S, U := MaxMin(k), SignedOf(k), UnsignedOf(k);
    var chunk' := if chunk < 1 then 1 else chunk;
    var span := Wrap(S, chunk' * incr);
    var stride := Wrap(S, span * n);
    var lo := Wrap(T, lower + span * id);
    var up := Wrap(T, lo + span - incr);
    Bounds(lo, up, stride, id == (Wrap(U, trip - 1) / chunk') % n)
  }

  /**
   * Lines 185 and 214: the stride of a thread that runs the whole space, the
   * extent of the bounds.  When that extent fits the signed type, one stride
   * from `lower` lands one past `upper`.
   */
  function SerialStride(k: Kind, lower: int, upper: int, incr: int): (s: int)
    ensures InRange(SignedOf(k), s)
    ensures incr > 0 && InRange(SignedOf(k), upper - lower + 1) ==> lower + s == upper + 1
    ensures incr <= 0 && InRange(SignedOf(k), -(lower - upper + 1)) ==> lower + s == upper - 1
  {
    Wrap(SignedOf(k), if incr > 0 then upper - lower + 1 else -(lower - upper + 1))
  }

  /**
   * Lines 262-309: thread `tid`'s range under the unchunked static
   * schedule, by the split the trip count and the runtime's flavour select.
   */
  function StaticPiece(k: Kind, flavour: StaticFlavour, lower: int, upper: int, incr: int,
                       trip: int, nth: int, tid: int): (p: Piece)
    requires LoopArgs(k, lower, upper, incr, 0) && Executors(nth, tid) && trip >= 0 && incr != 0
    ensures InRange(MaxMin(k), p.lo) && InRange(MaxMin(k), p.up)
    ensures trip < nth ==> (p.last <==> tid + 1 == trip)
    ensures trip >= nth && flavour == Balanced ==> (p.last <==> tid == nth - 1)
  {
    if trip < nth then SingleIteration(k, lower, upper, incr, trip, tid)
    else if flavour == Balanced then BalancedChunk(k, lower, incr, trip, nth, tid)
    else GreedyChunk(k, lower, upper, incr, trip, nth, tid)
  }

  /**
   * `__kmp_for_static_init` (lines 73-369) for thread `tid` of a team of
   * `nth` threads.  `serialized` is the team's serialized bit, `check` the
   * consistency-check setting and `stride` the value `*pstride` held on entry.
   */
  function ForStaticInit(k: Kind, flavour: StaticFlavour, schedule: Schedule, serialized: bool,
                         nth: int, tid: int, check: bool,
                         lower: int, upper: int, stride: int, incr: int, chunk: int): (r: Result<Bounds>)
    requires LoopArgs(k, lower, upper, incr, chunk) && InRange(SignedOf(k), stride)
    requires Executors(nth, tid)
    ensures r.Err? <==>
      || (check && incr == 0)
      || (!ZeroTrip(lower, upper, incr) && !serialized && nth > 1 &&
          (|| incr == 0
           || (check && TripCount(k, lower, upper, incr) == 0 && upper != lower)
           || schedule == OtherSchedule))
    ensures r.Ok? && ZeroTrip(lower, upper, incr) ==> r.value == Bounds(lower, upper, incr, false)
    ensures r.Ok? && !ZeroTrip(lower, upper, incr) && (serialized || nth == 1) ==>
      r.value == Bounds(lower, upper, SerialStride(k, lower, upper, incr), true)
    ensures r.Ok? && schedule == Static ==> r.value.stride == stride || ZeroTrip(lower, upper, incr) || serialized || nth == 1
  {
    if check && incr == 0 then Err(IncrZeroProhibited)
    else if ZeroTrip(lower, upper, incr) then Ok(Bounds(lower, upper, incr, false))
    else if serialized || nth == 1 then
      Ok(Bounds(lower, upper, SerialStride(k, lower, upper, incr), true))
    else if incr == 0 then Err(IncrZeroProhibited)  // the trip count divides by zero
    else
      var trip := TripCount(k, lower, upper, incr);
      if check && trip == 0 && upper != lower then Err(IterationRangeTooLarge)
      else
        match schedule
        case Static =>
          var p := StaticPiece(k, flavour, lower, upper, incr, trip, nth, tid);
          Ok(Bounds(p.lo, p.up, stride, p.last))
        case StaticChunked =>
          Ok(ChunkedChunk(k, lower, incr, chunk, trip, nth, tid))
        case OtherSchedule => Err(UnknownSchedule)
  }

  /**
   * Lines 467-507: team `teamId`'s chunk of the whole space, given more
   * iterations than teams.  The flag is the team-level one.
   */
  function TeamPiece(k: Kind, flavour: StaticFlavour, lower: int, upper: int, incr: int,
                     trip: int, nteams: int, teamId: int): (p: Piece)
    requires LoopArgs(k, lower, upper, incr, 0) && Executors(nteams, teamId) && trip >= 0 && incr != 0
    ensures InRange(MaxMin(k), p.lo) && InRange(MaxMin(k), p.up)
    ensures flavour == Balanced ==> (p.last <==> teamId == nteams - 1)
  {
    if flavour == Balanced then BalancedChunk(k, lower, incr, trip, nteams, teamId)
    else GreedyChunk(k, lower, upper, incr, trip, nteams, teamId)
  }

  /**
   * Lines 522-569: thread `tid`'s part of its team's chunk `[lo, up]` of
   * `trip` iterations.  A thread without an iteration starts one increment
   * past the loop's own `upper`, which the team level leaves in place.
   */
  function ThreadPiece(k: Kind, flavour: StaticFlavour, lo: int, up: int, upper: int, incr: int,
                       trip: int, nth: int, tid: int): (p: Piece)
    requires LoopArgs(k, lo, up, incr, 0) && InRange(MaxMin(k), upper)
    requires Executors(nth, tid) && trip >= 0 && incr != 0
    ensures InRange(MaxMin(k), p.lo) && InRange(MaxMin(k), p.up)
    ensures trip <= nth ==> (p.last <==> tid + 1 == trip)
    ensures trip > nth && flavour == Balanced ==> (p.last <==> tid == nth - 1)
  {
    if trip <= nth then SingleIteration(k, lo, upper, incr, trip, tid)
    else if flavour == Balanced then BalancedChunk(k, lo, incr, trip, nth, tid)
    else GreedyChunk(k, lo, up, incr, trip, nth, tid)
  }

  /**
   * `__kmp_dist_for_static_init` (lines 373-606) for thread `tid` of a team
   * of `nth` threads, that team being team `teamId` of `nteams`.
   */
  function DistForStaticInit(k: Kind, flavour: StaticFlavour, schedule: Schedule,
                             nteams: int, teamId: int, nth: int, tid: int, check: bool,
                             lower: int, upper: int, incr: int, chunk: int): (r: Result<DistBounds>)
    requires LoopArgs(k, lower, upper, incr, chunk)
    requires Executors(nteams, teamId) && Executors(nth, tid)
    ensures incr == 0 ==> r == Err(IncrZeroProhibited)
    ensures check && ZeroTrip(lower, upper, incr) ==> r.Err?
    ensures r.Ok? ==> r.value.stride == Wrap(SignedOf(k), upper - lower) || schedule == StaticChunked
    ensures r.Ok? && DistTripCount(k, lower, upper, incr) <= nteams ==>
      r.value.last == (tid == 0 && teamId + 1 == DistTripCount(k, lower, upper, incr))
    ensures r.Ok? && DistTripCount(k, lower, upper, incr) > nteams && r.value.last ==>
      TeamPiece(k, flavour, lower, upper, incr, DistTripCount(k, lower, upper, incr), nteams, teamId).last
  {
    if check && incr == 0 then Err(IncrZeroProhibited)
    else if check && ZeroTrip(lower, upper, incr) then Err(IncrIllegal)
    else if incr == 0 then Err(IncrZeroProhibited)  // the trip count divides by zero
    else
      var T := MaxMin(k);
      var trip := DistTripCount(k, lower, upper, incr);
      var stride := Wrap(SignedOf(k), upper - lower);
      if trip <= nteams then
        // only the masters of the first `trip` teams get an iteration
        var last := tid == 0 && teamId == trip - 1;
        if teamId < trip && tid == 0 then
          var v := Wrap(T, lower + teamId * incr);
          Ok(DistBounds(v, v, v, stride, last))
        else
          Ok(DistBounds(Wrap(T, upper + incr), upper, upper, stride, last))
      else
        var team := TeamPiece(k, flavour, lower, upper, incr, trip, nteams, teamId);
        if flavour == Greedy && (if incr > 0 then team.lo > team.up else team.lo < team.up) then
          // no iterations are left for this team
          Ok(DistBounds(team.lo, team.up, team.up, stride, team.last))
        else
          var trip' := DistTripCount(k, team.lo, team.up, incr);
          match schedule
          case Static =>
            var p := ThreadPiece(k, flavour, team.lo, team.up, upper, incr, trip', nth, tid);
            Ok(DistBounds(p.lo, p.up, team.up, stride, team.last && p.last))
          case StaticChunked =>
            var b := ChunkedChunk(k, team.lo, incr, chunk, trip', nth, tid);
            Ok(DistBounds(b.lower, b.upper, team.up, b.stride, team.last && b.last))
          case OtherSchedule => Err(UnknownSchedule)
  }

  /**
   * `__kmp_team_static_init` (lines 610-719): team `teamId`'s first chunk of
   * a `dist_schedule(static, chunk)` loop, with the upper bound corrected
   * for overflow and clamped to the loop's upper bound.
   */
  function TeamStaticInit(k: Kind, nteams: int, teamId: int, check: bool,
                          lower: int, upper: int, incr: int, chunk: int): (r: Result<Bounds>)
    requires LoopArgs(k, lower, upper, incr, chunk) && Executors(nteams, teamId)
    ensures r.Err? <==> incr == 0 || (check && ZeroTrip(lower, upper, incr))
    ensures r.Ok? && incr > 0 ==> r.value.upper <= upper
    ensures r.Ok? && incr < 0 ==> r.value.upper >= upper
  {
    if check && incr == 0 then Err(IncrZeroProhibited)
    else if check && ZeroTrip(lower, upper, incr) then Err(IncrIllegal)
    else if incr == 0 then Err(IncrZeroProhibited)  // the trip count divides by zero
    else
      var trip := DistTripCount(k, lower, upper, incr);
      var b := ChunkedChunk(k, lower, incr, chunk, trip, nteams, teamId);
      Ok(Bounds(b.lower, CorrectedEnd(k, incr, b.lower, b.upper, upper), b.stride, b.last))
  }

  /**
   * Lines 695-706: a block end that fell on the wrong side of the block's
   * start overflowed and becomes the type's extreme; the end is then
   * clamped to the loop's `upper`.
   */
  function CorrectedEnd(k: Kind, incr: int, lo: int, up: int, upper: int): (u: int)
    ensures incr > 0 ==> u <= upper && (u == upper || u == up || u == MaxMin(k).mx)
    ensures incr <= 0 ==> u >= upper && (u == upper || u == up || u == MaxMin(k).mn)
  {
    var T := MaxMin(k);
    if incr > 0 then
      var up' := if up < lo then T.mx else up;
      if up' > upper then upper else up'
    else
      var up' := if up > lo then T.mn else up;
      if up' < upper then upper else up'
  }
}
