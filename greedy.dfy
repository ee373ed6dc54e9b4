/**
 * The greedy static split (`kmp_sch_static_greedy`) in index space: with
 * `q = ceil(trip / n)`, thread `t` takes the iterations with index in
 * `[t * q, (t + 1) * q)` that the loop has, so iteration `j` belongs to
 * thread `j / q`.
 */
module GreedySplit {
  import opened Domains
  import opened Sched
  import opened Iterations

  /** Lines 286-287: the number of iterations in a full greedy chunk. */
  function Quota(trip: int, n: int): int
    requires n >= 1
  {
    trip / n + (if trip % n != 0 then 1 else 0)
  }

  /** The chunk holds at least one iteration, and `n` chunks hold them all. */
  lemma QuotaFacts(trip: int, n: int)
    requires trip >= n >= 1
    ensures 1 <= Quota(trip, n) <= trip
    ensures trip <= n * Quota(trip, n)
  {
    var small, r := trip / n, trip % n;
    assert trip == n * small + r;
    MulAtLeast(n, small);
    if r != 0 {
      assert n * (small + 1) == n * small + n;
    }
  }

  /** The iterations thread `t` keeps of a full chunk of `q`: all, the remainder, or none. */
  function Share(trip: int, q: int, t: int): int {
    if trip - t * q >= q then q else if trip - t * q > 0 then trip - t * q else 0
  }

  /** The iterations handed out to threads `0 .. t - 1`, one chunk after another. */
  function Handed(trip: int, q: int, t: int): int
    requires t >= 0
    decreases t
  {
    if t == 0 then 0 else Handed(trip, q, t - 1) + Share(trip, q, t - 1)
  }

  /** The first `t` threads hold `t` full chunks, or the whole loop once it has run out. */
  lemma {:induction false} HandedIsPrefix(trip: int, q: int, t: int)
    requires trip >= 0 && q >= 1 && t >= 0
    ensures Handed(trip, q, t) == if t * q <= trip then t * q else trip
  {
    if t > 0 {
      HandedIsPrefix(trip, q, t - 1);
      assert t * q == (t - 1) * q + q;
    }
  }

  /** The `n` chunks of line 286's size together hold exactly the `trip` iterations. */
  lemma HandedAll(trip: int, n: int)
    requires trip >= n >= 1
    ensures Handed(trip, Quota(trip, n), n) == trip
  {
    QuotaFacts(trip, n);
    HandedIsPrefix(trip, Quota(trip, n), n);
  }

  /** Every iteration's chunk is one of the `n` threads. */
  lemma OwnerInTeam(trip: int, n: int, j: int)
    requires trip >= n >= 1 && 0 <= j < trip
    ensures 0 <= j / Quota(trip, n) < n
  {
    QuotaFacts(trip, n);
    QuotientBelow(j, Quota(trip, n), n);
  }

  lemma QuotientBelow(j: int, q: int, n: int)
    requires 0 <= j < n * q && q >= 1
    ensures 0 <= j / q < n
  {
    assert j == (j / q) * q + j % q;
    if j / q >= n {
      MulLe(n, j / q, q);
    }
  }

  /** Line 292: the stored lower bound is the first iteration of the chunk. */
  lemma StoredLower(l: Limits, lower: int, incr: int, q: int, id: int)
    requires l.mn < l.mx && InRange(l, Iter(lower, incr, id * q))
    ensures Wrap(l, lower + id * Wrap(l, q * incr)) == Iter(lower, incr, id * q)
  {
    WrapOfScaled(l, lower, id, q * incr);
    Regroup(id, q, incr);
  }

  lemma Regroup(a: int, b: int, c: int)
    ensures a * (b * c) == (a * b) * c
  {
  }

  /** Line 293: the stored upper bound is iteration `a + q - 1`, reduced. */
  lemma StoredUpper(l: Limits, lower: int, incr: int, a: int, q: int)
    requires l.mn < l.mx
    ensures Wrap(l, Iter(lower, incr, a) + Wrap(l, q * incr) - incr) == Wrap(l, Iter(lower, incr, a + q - 1))
  {
    WrapOfSum(l, q * incr, Iter(lower, incr, a) - incr);
    assert q * incr + (Iter(lower, incr, a) - incr) == Iter(lower, incr, a + q - 1) by {
      Steps(lower, incr, a, q);
    }
  }

  lemma Steps(lower: int, incr: int, a: int, q: int)
    ensures q * incr + (Iter(lower, incr, a) - incr) == Iter(lower, incr, a + q - 1)
  {
  }

  /**
   * The `q - 1` steps of one chunk, taken from the chunk's first iteration
   * `a >= 0`, move in the loop's direction by less than the width of the type.
   */
  lemma ChunkSpan(k: Kind, lower: int, upper: int, incr: int, trip: int, q: int, a: int)
    requires LoopArgs(k, lower, upper, incr, 0) && incr != 0 && !ZeroTrip(lower, upper, incr)
    requires trip == Count(lower, upper, incr) && 1 <= q <= trip
    ensures var L, u := Iter(lower, incr, a), Iter(lower, incr, a + q - 1);
      0 <= (if incr > 0 then u - L else L - u) <= MaxMin(k).mx - MaxMin(k).mn
  {
    var w := Iter(lower, incr, trip - 1);
    IterInRange(k, lower, upper, incr, trip - 1);
    var s := if incr > 0 then incr else -incr;
    var d, e := (q - 1) * s, (trip - 1) * s;
    assert 0 <= d <= e by {
      MulLe(0, q - 1, s);
      MulLe(q - 1, trip - 1, s);
    }
    assert e == (if incr > 0 then w - lower else lower - w) by {
      SpanSteps(lower, incr, 0, trip);
    }
    assert d == (if incr > 0 then Iter(lower, incr, a + q - 1) - Iter(lower, incr, a)
                 else Iter(lower, incr, a) - Iter(lower, incr, a + q - 1)) by {
      SpanSteps(lower, incr, a, q);
    }
  }

  lemma SpanSteps(lower: int, incr: int, a: int, q: int)
    ensures var d := Iter(lower, incr, a + q - 1) - Iter(lower, incr, a);
      (q - 1) * (if incr > 0 then incr else -incr) == (if incr > 0 then d else -d)
  {
  }

  /** With two iterations or more, `upper - incr` does not leave the type (line 297). */
  lemma UpperLessIncr(k: Kind, lower: int, upper: int, incr: int)
    requires LoopArgs(k, lower, upper, incr, 0) && incr != 0 && !ZeroTrip(lower, upper, incr)
    requires Count(lower, upper, incr) >= 2
    ensures Wrap(MaxMin(k), upper - incr) == upper - incr
    ensures Within(lower, upper, incr, upper - incr)
  {
    CountCounts(lower, upper, incr, 1);
  }

  /** The body of `GreedyChunk` for a positive increment, with the stored values named. */
  lemma FieldsUp(k: Kind, lower: int, upper: int, incr: int, trip: int, n: int, id: int)
    requires LoopArgs(k, lower, upper, incr, 0) && Executors(n, id) && trip >= 0 && incr > 0
    ensures var T := MaxMin(k);
      var p := GreedyChunk(k, lower, upper, incr, trip, n, id);
      var c := Wrap(T, Quota(trip, n) * incr);
      var up := Wrap(T, p.lo + c - incr);
      var up' := if up < p.lo then T.mx else up;
      && p.lo == Wrap(T, lower + id * c)
      && p.up == (if up' > upper then upper else up')
      && (p.last <==> p.lo <= upper && up' > Wrap(T, upper - incr))
  {
  }

  /** The body of `GreedyChunk` for a negative increment, with the stored values named. */
  lemma FieldsDown(k: Kind, lower: int, upper: int, incr: int, trip: int, n: int, id: int)
    requires LoopArgs(k, lower, upper, incr, 0) && Executors(n, id) && trip >= 0 && incr < 0
    ensures var T := MaxMin(k);
      var p := GreedyChunk(k, lower, upper, incr, trip, n, id);
      var c := Wrap(T, Quota(trip, n) * incr);
      var up := Wrap(T, p.lo + c - incr);
      var up' := if up > p.lo then T.mn else up;
      && p.lo == Wrap(T, lower + id * c)
      && p.up == (if up' < upper then upper else up')
      && (p.last <==> p.lo >= upper && up' < Wrap(T, upper - incr))
  {
  }

  /**
   * Lines 292-299 for a positive increment: thread `id` of a team whose
   * first chunk index `a = id * q` fits the type gets
   * `[Iter(a), min(Iter(a + q - 1), upper)]`, also when the chunk's end
   * overflows the type, and the flag says that the chunk is not past the end
   * while the next one would be.
   */
  lemma ShapeUp(k: Kind, lower: int, upper: int, incr: int, trip: int, n: int, id: int)
    requires LoopArgs(k, lower, upper, incr, 0) && incr > 0 && lower <= upper
    requires trip == Count(lower, upper, incr) && Executors(n, id) && trip >= n && trip >= 2
    requires InRange(MaxMin(k), Iter(lower, incr, id * Quota(trip, n)))
    ensures var p := GreedyChunk(k, lower, upper, incr, trip, n, id);
      var a := id * Quota(trip, n);
      var u := Iter(lower, incr, a + Quota(trip, n) - 1);
      && p.lo == Iter(lower, incr, a)
      && p.up == (if u <= upper then u else upper)
      && (p.last <==> Iter(lower, incr, a) <= upper && u + incr > upper)
  {
    var T, q := MaxMin(k), Quota(trip, n);
    var p := GreedyChunk(k, lower, upper, incr, trip, n, id);
    FieldsUp(k, lower, upper, incr, trip, n, id);
    StoredLower(T, lower, incr, q, id);
    QuotaFacts(trip, n);
    EndUp(k, lower, upper, incr, trip, q, id * q, p.lo);
  }

  /** The end of the chunk of `ShapeUp`, from its stored start `Iter(a)`. */
  lemma EndUp(k: Kind, lower: int, upper: int, incr: int, trip: int, q: int, a: int, lo: int)
    requires LoopArgs(k, lower, upper, incr, 0) && incr > 0 && lower <= upper
    requires trip == Count(lower, upper, incr) && 1 <= q <= trip && trip >= 2
    requires lo == Iter(lower, incr, a) && InRange(MaxMin(k), lo)
    ensures var T := MaxMin(k);
      var u := Iter(lower, incr, a + q - 1);
      var up := Wrap(T, lo + Wrap(T, q * incr) - incr);
      var up' := if up < lo then T.mx else up;
      && (if up' > upper then upper else up') == (if u <= upper then u else upper)
      && (up' > Wrap(T, upper - incr) <==> u + incr > upper)
  {
    var T := MaxMin(k);
    StoredUpper(T, lower, incr, a, q);
    ChunkSpan(k, lower, upper, incr, trip, q, a);
    UpperLessIncr(k, lower, upper, incr);
    ClampUp(T, lo, Iter(lower, incr, a + q - 1), incr, upper);
  }

  /** Lines 300-305: the mirror image of `ShapeUp` for a negative increment. */
  lemma ShapeDown(k: Kind, lower: int, upper: int, incr: int, trip: int, n: int, id: int)
    requires LoopArgs(k, lower, upper, incr, 0) && incr < 0 && upper <= lower
    requires trip == Count(lower, upper, incr) && Executors(n, id) && trip >= n && trip >= 2
    requires InRange(MaxMin(k), Iter(lower, incr, id * Quota(trip, n)))
    ensures var p := GreedyChunk(k, lower, upper, incr, trip, n, id);
      var a := id * Quota(trip, n);
      var u := Iter(lower, incr, a + Quota(trip, n) - 1);
      && p.lo == Iter(lower, incr, a)
      && p.up == (if u >= upper then u else upper)
      && (p.last <==> Iter(lower, incr, a) >= upper && u + incr < upper)
  {
    var T, q := MaxMin(k), Quota(trip, n);
    var p := GreedyChunk(k, lower, upper, incr, trip, n, id);
    FieldsDown(k, lower, upper, incr, trip, n, id);
    StoredLower(T, lower, incr, q, id);
    QuotaFacts(trip, n);
    EndDown(k, lower, upper, incr, trip, q, id * q, p.lo);
  }

  /** The end of the chunk of `ShapeDown`, from its stored start `Iter(a)`. */
  lemma EndDown(k: Kind, lower: int, upper: int, incr: int, trip: int, q: int, a: int, lo: int)
    requires LoopArgs(k, lower, upper, incr, 0) && incr < 0 && upper <= lower
    requires trip == Count(lower, upper, incr) && 1 <= q <= trip && trip >= 2
    requires lo == Iter(lower, incr, a) && InRange(MaxMin(k), lo)
    ensures var T := MaxMin(k);
      var u := Iter(lower, incr, a + q - 1);
      var up := Wrap(T, lo + Wrap(T, q * incr) - incr);
      var up' := if up > lo then T.mn else up;
      && (if up' < upper then upper else up') == (if u >= upper then u else upper)
      && (up' < Wrap(T, upper - incr) <==> u + incr < upper)
  {
    var T := MaxMin(k);
    StoredUpper(T, lower, incr, a, q);
    ChunkSpan(k, lower, upper, incr, trip, q, a);
    UpperLessIncr(k, lower, upper, incr);
    ClampDown(T, lo, Iter(lower, incr, a + q - 1), incr, upper);
  }

  /** A thread's first chunk index lies in the loop's range exactly when it is below the trip count. */
  lemma FirstInRange(k: Kind, lower: int, upper: int, incr: int, trip: int, n: int, id: int)
    requires LoopArgs(k, lower, upper, incr, 0) && incr != 0 && !ZeroTrip(lower, upper, incr)
    requires trip == Count(lower, upper, incr) && Executors(n, id) && trip >= n
    requires id * Quota(trip, n) < trip
    ensures InRange(MaxMin(k), Iter(lower, incr, id * Quota(trip, n)))
  {
    QuotaFacts(trip, n);
    MulLe(0, id, Quota(trip, n));
    IterInRange(k, lower, upper, incr, id * Quota(trip, n));
  }

  /**
   * Lines 285-306, read collectively: on a range of `trip >= 2` iterations,
   * at least one per thread, thread `id` runs iteration `j` exactly when `j`
   * is an iteration of the loop in chunk `id`, and its flag marks the chunk
   * of the last iteration.  A thread whose chunk starts past the end is
   * covered when that start still fits the type.
   */
  lemma Partition(k: Kind, lower: int, upper: int, incr: int, trip: int, n: int, id: int, j: int)
    requires LoopArgs(k, lower, upper, incr, 0) && incr != 0 && !ZeroTrip(lower, upper, incr)
    requires trip == Count(lower, upper, incr) && Executors(n, id) && trip >= n && trip >= 2
    requires id * Quota(trip, n) < trip || InRange(MaxMin(k), Iter(lower, incr, id * Quota(trip, n)))
    ensures var p := GreedyChunk(k, lower, upper, incr, trip, n, id);
      && (Within(p.lo, p.up, incr, Iter(lower, incr, j)) <==> 0 <= j < trip && j / Quota(trip, n) == id)
      && (p.last <==> (trip - 1) / Quota(trip, n) == id)
  {
    Runs(k, lower, upper, incr, trip, n, id, j);
    Flag(k, lower, upper, incr, trip, n, id);
  }

  /** The chunk's shape, whichever the direction. */
  lemma Shape(k: Kind, lower: int, upper: int, incr: int, trip: int, n: int, id: int)
    requires LoopArgs(k, lower, upper, incr, 0) && incr != 0 && !ZeroTrip(lower, upper, incr)
    requires trip == Count(lower, upper, incr) && Executors(n, id) && trip >= n && trip >= 2
    requires id * Quota(trip, n) < trip || InRange(MaxMin(k), Iter(lower, incr, id * Quota(trip, n)))
    ensures 0 <= id * Quota(trip, n) && Quota(trip, n) >= 1
    ensures var p := GreedyChunk(k, lower, upper, incr, trip, n, id);
      var a := id * Quota(trip, n);
      var u := Iter(lower, incr, a + Quota(trip, n) - 1);
      && p.lo == Iter(lower, incr, a)
      && (incr > 0 ==> p.up == (if u <= upper then u else upper))
      && (incr < 0 ==> p.up == (if u >= upper then u else upper))
      && (p.last <==> Within(lower, upper, incr, p.lo) && !Within(lower, upper, incr, u + incr))
  {
    QuotaFacts(trip, n);
    MulLe(0, id, Quota(trip, n));
    if id * Quota(trip, n) < trip {
      FirstInRange(k, lower, upper, incr, trip, n, id);
    }
    var a := id * Quota(trip, n);
    IterOrder(lower, incr, 0, a);
    if incr > 0 {
      ShapeUp(k, lower, upper, incr, trip, n, id);
    } else {
      ShapeDown(k, lower, upper, incr, trip, n, id);
    }
  }

  /**
   * The share of the running total is what the routine hands out: a thread
   * whose chunk starts inside the loop gets a range of exactly
   * `Share(trip, q, id)` iterations.
   */
  lemma ShareIsChunk(k: Kind, lower: int, upper: int, incr: int, trip: int, n: int, id: int)
    requires LoopArgs(k, lower, upper, incr, 0) && incr != 0 && !ZeroTrip(lower, upper, incr)
    requires trip == Count(lower, upper, incr) && Executors(n, id) && trip >= n && trip >= 2
    requires id * Quota(trip, n) < trip
    ensures var p := GreedyChunk(k, lower, upper, incr, trip, n, id);
      !ZeroTrip(p.lo, p.up, incr) && Count(p.lo, p.up, incr) == Share(trip, Quota(trip, n), id)
  {
    var q := Quota(trip, n);
    QuotaFacts(trip, n);
    Shape(k, lower, upper, incr, trip, n, id);
    var a := id * q;
    var m := Share(trip, q, id);
    var p := GreedyChunk(k, lower, upper, incr, trip, n, id);
    Runs(k, lower, upper, incr, trip, n, id, a + m - 1);
    Runs(k, lower, upper, incr, trip, n, id, a + m);
    OwnedIff(q, id, a + m - 1);
    OwnedIff(q, id, a + m);
    CountOfRun(lower, incr, p.lo, p.up, a, m);
  }

  /** Thread `id` runs iteration `j` exactly when `j` is in the loop and in chunk `id`. */
  lemma Runs(k: Kind, lower: int, upper: int, incr: int, trip: int, n: int, id: int, j: int)
    requires LoopArgs(k, lower, upper, incr, 0) && incr != 0 && !ZeroTrip(lower, upper, incr)
    requires trip == Count(lower, upper, incr) && Executors(n, id) && trip >= n && trip >= 2
    requires id * Quota(trip, n) < trip || InRange(MaxMin(k), Iter(lower, incr, id * Quota(trip, n)))
    ensures var p := GreedyChunk(k, lower, upper, incr, trip, n, id);
      Within(p.lo, p.up, incr, Iter(lower, incr, j)) <==> 0 <= j < trip && j / Quota(trip, n) == id
  {
    var q := Quota(trip, n);
    Shape(k, lower, upper, incr, trip, n, id);
    var a := id * q;
    var p := GreedyChunk(k, lower, upper, incr, trip, n, id);
    var v := Iter(lower, incr, j);
    IterOrder(lower, incr, 0, a);
    Clamped(lower, upper, incr, p.lo, Iter(lower, incr, a + q - 1), p.up, v);
    WithinIters(lower, incr, a, a + q - 1, j);
    OwnedIff(q, id, j);
    if j >= 0 {
      CountCounts(lower, upper, incr, j);
    }
  }

  /** A range clamped to `upper` holds what the unclamped range and the loop both hold. */
  lemma Clamped(lower: int, upper: int, incr: int, lo: int, u: int, up: int, v: int)
    requires incr > 0 ==> lower <= lo && up == (if u <= upper then u else upper)
    requires incr < 0 ==> lower >= lo && up == (if u >= upper then u else upper)
    requires incr != 0
    ensures Within(lo, up, incr, v) <==> Within(lo, u, incr, v) && Within(lower, upper, incr, v)
  {
  }

  /** Thread `id`'s flag is set exactly when the last iteration is in chunk `id`. */
  lemma Flag(k: Kind, lower: int, upper: int, incr: int, trip: int, n: int, id: int)
    requires LoopArgs(k, lower, upper, incr, 0) && incr != 0 && !ZeroTrip(lower, upper, incr)
    requires trip == Count(lower, upper, incr) && Executors(n, id) && trip >= n && trip >= 2
    requires id * Quota(trip, n) < trip || InRange(MaxMin(k), Iter(lower, incr, id * Quota(trip, n)))
    ensures GreedyChunk(k, lower, upper, incr, trip, n, id).last <==> (trip - 1) / Quota(trip, n) == id
  {
    var q := Quota(trip, n);
    Shape(k, lower, upper, incr, trip, n, id);
    var a := id * q;
    var b := a + q - 1;
    CountCounts(lower, upper, incr, a);
    CountCounts(lower, upper, incr, b + 1);
    StepFrom(lower, incr, b, 1);
    OwnedIff(q, id, trip - 1);
  }

  /**
   * A thread whose chunk starts past the end of a range that ends near the
   * type's maximum gets wrapped bounds: an unsigned 32-bit loop over
   * `0xFFFFFFFB..0xFFFFFFFF` run by 4 threads (chunks of 2) gives thread 3
   * the range `[1, 2]`, which is not part of the loop.
   */
  lemma PastTheEndWraps()
    ensures Count(0xFFFF_FFFB, 0xFFFF_FFFF, 1) == 5 && Quota(5, 4) == 2
    ensures GreedyChunk(UInt32, 0xFFFF_FFFB, 0xFFFF_FFFF, 1, 5, 4, 3) == Piece(1, 2, false)
  {
  }
}
