/**
 * What `__kmp_team_static_init` promises the master of a team inside a
 * `teams` construct with `dist_schedule(static, chunk)`: the loop is cut into
 * blocks of `max(chunk, 1)` iterations dealt round-robin to the teams, the
 * routine returns the team's first block, with its end corrected for
 * overflow and clamped to the loop's end, and the stride to its later
 * blocks.
 */
module TeamInit {
  import opened Domains
  import opened Sched
  import opened Iterations
  import ChunkedSplit

  /**
   * The stored span and stride are exact and the team's first block starts
   * at a value of the loop type; its end may overflow.
   */
  predicate TeamFits(k: Kind, lower: int, incr: int, chunk: int, nteams: int, t: int)
    requires nteams >= 1
  {
    var ch := ChunkedSplit.Effective(chunk);
    && InRange(SignedOf(k), ch * incr)
    && InRange(SignedOf(k), nteams * (ch * incr))
    && InRange(MaxMin(k), Iter(lower, incr, t * ch))
  }

  /** The exact end `u` of a block clamped to `upper`, in the loop's direction. */
  function ClampEnd(incr: int, u: int, upper: int): int {
    if incr > 0 then (if u <= upper then u else upper) else (if u >= upper then u else upper)
  }

  /**
   * Lines 679-706: team `t` gets the block `[Iter(t * ch), Iter(t * ch + ch - 1)]`
   * with its end clamped to `upper`, also when that end overflows the loop
   * type; the stride is `nteams` blocks; and the team is flagged exactly
   * when it owns the loop's last iteration.
   */
  lemma FirstChunk(k: Kind, nteams: int, t: int, check: bool, lower: int, upper: int, incr: int, chunk: int)
    requires LoopArgs(k, lower, upper, incr, chunk) && Executors(nteams, t)
    requires incr != 0 && !ZeroTrip(lower, upper, incr)
    requires InRange(SignedOf(k), upper - lower) && Count(lower, upper, incr) < Modulus(k)
    requires TeamFits(k, lower, incr, chunk, nteams, t)
    ensures var r := TeamStaticInit(k, nteams, t, check, lower, upper, incr, chunk);
      var ch := ChunkedSplit.Effective(chunk);
      && r.Ok?
      && r.value.lower == Iter(lower, incr, t * ch)
      && r.value.upper == ClampEnd(incr, Iter(lower, incr, t * ch + ch - 1), upper)
      && r.value.stride == (nteams * ch) * incr
      && (r.value.last <==> ChunkedSplit.Owner(chunk, nteams, Count(lower, upper, incr) - 1) == t)
  {
    var ch := ChunkedSplit.Effective(chunk);
    var trip := Count(lower, upper, incr);
    DistTripCountIsCount(k, lower, upper, incr);
    TeamResult(k, nteams, t, check, lower, upper, incr, chunk, trip);
    BlockFields(k, lower, incr, chunk, trip, nteams, t);
    ChunkedSplit.Flag(k, lower, incr, chunk, trip, nteams, t);
    CorrectedBlockEnd(k, lower, upper, incr, ch, t);
  }

  /** Lines 695-706 turn the stored end of the first block into its exact end clamped to `upper`. */
  lemma CorrectedBlockEnd(k: Kind, lower: int, upper: int, incr: int, ch: int, t: int)
    requires InRange(SignedOf(k), ch * incr) && ch >= 1 && incr != 0
    requires InRange(MaxMin(k), Iter(lower, incr, t * ch)) && InRange(MaxMin(k), upper)
    ensures var lo, u := Iter(lower, incr, t * ch), Iter(lower, incr, t * ch + ch - 1);
      CorrectedEnd(k, incr, lo, Wrap(MaxMin(k), u), upper) == ClampEnd(incr, u, upper)
  {
    var lo, u := Iter(lower, incr, t * ch), Iter(lower, incr, t * ch + ch - 1);
    BlockEnd(k, lower, incr, ch, t);
    if incr > 0 {
      ClampUp(MaxMin(k), lo, u, incr, upper);
    } else {
      ClampDown(MaxMin(k), lo, u, incr, upper);
    }
  }

  /** Past the error returns, the routine stores the team's chunked block with its end corrected. */
  lemma TeamResult(k: Kind, nteams: int, t: int, check: bool, lower: int, upper: int, incr: int, chunk: int, trip: int)
    requires LoopArgs(k, lower, upper, incr, chunk) && Executors(nteams, t)
    requires incr != 0 && !ZeroTrip(lower, upper, incr) && trip == DistTripCount(k, lower, upper, incr)
    ensures var b := ChunkedChunk(k, lower, incr, chunk, trip, nteams, t);
      TeamStaticInit(k, nteams, t, check, lower, upper, incr, chunk)
        == Ok(Bounds(b.lower, CorrectedEnd(k, incr, b.lower, b.upper, upper), b.stride, b.last))
  {
  }

  /** When the span, the stride and the block's start fit, the stored fields are exact. */
  lemma BlockFields(k: Kind, lower: int, incr: int, chunk: int, trip: int, n: int, id: int)
    requires LoopArgs(k, lower, lower, incr, chunk) && Executors(n, id) && InRange(UnsignedOf(k), trip)
    requires TeamFits(k, lower, incr, chunk, n, id)
    ensures var b := ChunkedChunk(k, lower, incr, chunk, trip, n, id);
      var ch := ChunkedSplit.Effective(chunk);
      && b.lower == Iter(lower, incr, id * ch)
      && b.upper == Wrap(MaxMin(k), Iter(lower, incr, id * ch + ch - 1))
      && b.stride == (n * ch) * incr
  {
    var ch := ChunkedSplit.Effective(chunk);
    ChunkedSplit.Fields(k, lower, incr, chunk, trip, n, id);
    ChunkedSplit.Products(ch, incr, n, id);
    StepFrom(lower, incr, id * ch, ch - 1);
  }

  /** The exact end of the first block lies less than a type's width past its start. */
  lemma BlockEnd(k: Kind, lower: int, incr: int, ch: int, t: int)
    requires InRange(SignedOf(k), ch * incr) && ch >= 1 && incr != 0
    ensures var lo, u := Iter(lower, incr, t * ch), Iter(lower, incr, t * ch + ch - 1);
      && (incr > 0 ==> lo <= u <= lo + (MaxMin(k).mx - MaxMin(k).mn))
      && (incr < 0 ==> lo - (MaxMin(k).mx - MaxMin(k).mn) <= u <= lo)
  {
    StepFrom(lower, incr, t * ch, ch - 1);
    if incr > 0 {
      MulLe(0, ch - 1, incr);
      MulLe(ch - 1, ch, incr);
    } else {
      MulLe(0, ch - 1, -incr);
      MulLe(ch - 1, ch, -incr);
    }
  }

  /**
   * Lines 679-706, read with the caller's rounds: team `t`'s first block
   * holds exactly the loop's iterations that `t` owns in round 0.
   */
  lemma FirstRound(k: Kind, nteams: int, t: int, check: bool, lower: int, upper: int, incr: int, chunk: int, j: int)
    requires LoopArgs(k, lower, upper, incr, chunk) && Executors(nteams, t)
    requires incr != 0 && !ZeroTrip(lower, upper, incr)
    requires InRange(SignedOf(k), upper - lower) && Count(lower, upper, incr) < Modulus(k)
    requires TeamFits(k, lower, incr, chunk, nteams, t)
    ensures var r := TeamStaticInit(k, nteams, t, check, lower, upper, incr, chunk);
      && r.Ok?
      && (Within(r.value.lower, r.value.upper, incr, Iter(lower, incr, j)) <==>
          0 <= j < Count(lower, upper, incr)
          && ChunkedSplit.Owner(chunk, nteams, j) == t && ChunkedSplit.Round(chunk, nteams, j) == 0)
  {
    FirstChunk(k, nteams, t, check, lower, upper, incr, chunk);
    BlockRun(lower, upper, incr, ChunkedSplit.Effective(chunk), nteams, t, j);
  }

  /** Block `t` of `ch` iterations, clamped to `upper`, holds the iterations of round 0 that `t` owns. */
  lemma BlockRun(lower: int, upper: int, incr: int, ch: int, n: int, t: int, j: int)
    requires incr != 0 && !ZeroTrip(lower, upper, incr) && ch >= 1 && 0 <= t < n
    ensures Within(Iter(lower, incr, t * ch), ClampEnd(incr, Iter(lower, incr, t * ch + ch - 1), upper), incr,
                   Iter(lower, incr, j)) <==>
            0 <= j < Count(lower, upper, incr) && (j / ch) % n == t && (j / ch) / n == 0
  {
    var lo, u, v := Iter(lower, incr, t * ch), Iter(lower, incr, t * ch + ch - 1), Iter(lower, incr, j);
    MulLe(0, t, ch);
    IterOrder(lower, incr, 0, t * ch);
    ClampedBlock(lower, upper, incr, lo, u, v);
    WithinIters(lower, incr, t * ch, t * ch + ch - 1, j);
    RangeIsRun(lower, upper, incr, j);
    OwnedIff(ch, t, j);
    ChunkedSplit.BlockSplit(j / ch, n, 0, t);
  }

  /** A block starting inside the loop's direction and clamped to `upper` holds what the block and the loop both hold. */
  lemma ClampedBlock(lower: int, upper: int, incr: int, lo: int, u: int, v: int)
    requires incr != 0 && (if incr > 0 then lower <= lo else lo <= lower)
    ensures Within(lo, ClampEnd(incr, u, upper), incr, v) <==> Within(lo, u, incr, v) && Within(lower, upper, incr, v)
  {
  }

  /** Lines 690-691: round `r` of team `t` starts with the first iteration of block `r * nteams + t`. */
  lemma RoundStart(k: Kind, nteams: int, t: int, check: bool, lower: int, upper: int, incr: int, chunk: int, r: int)
    requires LoopArgs(k, lower, upper, incr, chunk) && Executors(nteams, t)
    requires incr != 0 && !ZeroTrip(lower, upper, incr)
    requires InRange(SignedOf(k), upper - lower) && Count(lower, upper, incr) < Modulus(k)
    requires TeamFits(k, lower, incr, chunk, nteams, t)
    ensures var res := TeamStaticInit(k, nteams, t, check, lower, upper, incr, chunk);
      var ch := ChunkedSplit.Effective(chunk);
      && res.Ok?
      && res.value.lower + r * res.value.stride == Iter(lower, incr, (r * nteams + t) * ch)
  {
    var ch := ChunkedSplit.Effective(chunk);
    FirstChunk(k, nteams, t, check, lower, upper, incr, chunk);
    ChunkedSplit.RoundShift(lower, incr, ch, nteams, t, r);
  }
}
