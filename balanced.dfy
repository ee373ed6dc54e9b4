/**
 * The balanced static split (`kmp_sch_static_balanced`) in index space:
 * executor `t` of `n` takes the iterations `[Start(t), Start(t + 1))`,
 * the first `trip % n` executors one more than the others.  `Owner` is an
 * independent description of who runs iteration `j`.
 */
module BalancedSplit {
  import opened Domains
  import opened Sched
  import opened Iterations

  /** Index of executor `t`'s first iteration (line 280). */
  function Start(trip: int, n: int, t: int): int
    requires n >= 1
  {
    var small, extras := trip / n, trip % n;
    t * small + (if t < extras then t else extras)
  }

  /** The executor that runs iteration `j`: blocks of `small + 1`, then blocks of `small`. */
  function Owner(trip: int, n: int, j: int): int
    requires trip >= n >= 1 && j >= 0
  {
    var small, extras := trip / n, trip % n;
    var big := extras * (small + 1);
    if j < big then j / (small + 1) else extras + (j - big) / small
  }

  lemma StartStep(trip: int, n: int, t: int)
    requires trip >= 0 && n >= 1 && t >= 0
    ensures Start(trip, n, t + 1) == Start(trip, n, t) + trip / n + (if t < trip % n then 1 else 0)
  {
    var small := trip / n;
    assert (t + 1) * small == t * small + small;
  }

  lemma {:induction false} StartMonotone(trip: int, n: int, a: int, b: int)
    requires trip >= 0 && n >= 1 && 0 <= a <= b
    ensures Start(trip, n, a) <= Start(trip, n, b)
    ensures a < b && trip >= n ==> Start(trip, n, a) < Start(trip, n, b)
    decreases b - a
  {
    if a < b {
      StartStep(trip, n, a);
      assert trip >= n ==> trip / n >= 1;
      StartMonotone(trip, n, a + 1, b);
    }
  }

  /** The executors' blocks start at the first iteration and end at the last. */
  lemma StartEnds(trip: int, n: int)
    requires trip >= 0 && n >= 1
    ensures Start(trip, n, 0) == 0
    ensures Start(trip, n, n) == trip
  {
    assert trip == n * (trip / n) + trip % n;
  }

  /** Line 281: executor `t`'s block holds `trip / n` iterations, one more for the first `trip % n` executors. */
  function BlockSize(trip: int, n: int, t: int): int
    requires n >= 1
  {
    trip / n + (if t < trip % n then 1 else 0)
  }

  /** The iterations handed out to executors `0 .. t - 1`, one block after another. */
  function Handed(trip: int, n: int, t: int): int
    requires n >= 1 && t >= 0
    decreases t
  {
    if t == 0 then 0 else Handed(trip, n, t - 1) + BlockSize(trip, n, t - 1)
  }

  /** Line 280's closed form for the first index is the running total of the block sizes. */
  lemma {:induction false} HandedIsStart(trip: int, n: int, t: int)
    requires trip >= 0 && n >= 1 && t >= 0
    ensures Handed(trip, n, t) == Start(trip, n, t)
  {
    if t > 0 {
      HandedIsStart(trip, n, t - 1);
      StartStep(trip, n, t - 1);
    }
  }

  /** The `n` blocks together hold exactly the `trip` iterations. */
  lemma HandedAll(trip: int, n: int)
    requires trip >= 0 && n >= 1
    ensures Handed(trip, n, n) == trip
  {
    HandedIsStart(trip, n, n);
    StartEnds(trip, n);
  }

  /** In the leading blocks of `s + 1` iterations, `j` lies in block `j / (s + 1)`. */
  lemma InBigBlock(s: int, e: int, j: int)
    requires s >= 1 && e >= 0 && 0 <= j < e * (s + 1)
    ensures var o := j / (s + 1); 0 <= o < e && o * (s + 1) <= j < (o + 1) * (s + 1)
  {
    var o, r := j / (s + 1), j % (s + 1);
    assert j == o * (s + 1) + r;
    assert (o + 1) * (s + 1) == o * (s + 1) + s + 1;
    if o >= e { MulLe(e, o, s + 1); }
  }

  /** In the trailing blocks of `s` iterations, `j` lies in block `(j - big) / s` after them. */
  lemma InSmallBlock(s: int, e: int, n: int, j: int)
    requires s >= 1 && 0 <= e < n && e * (s + 1) <= j < n * s + e
    ensures var m := (j - e * (s + 1)) / s;
      && 0 <= m && e + m < n
      && e * (s + 1) + m * s <= j < e * (s + 1) + (m + 1) * s
  {
    var big := e * (s + 1);
    var m, r := (j - big) / s, (j - big) % s;
    assert j - big == m * s + r;
    assert (m + 1) * s == m * s + s;
    if e + m >= n {
      MulLe(n - e, m, s);
    }
  }

  /** The quotient is at least one when every executor gets an iteration. */
  lemma SmallPositive(trip: int, n: int)
    requires trip >= n >= 1
    ensures trip / n >= 1 && trip == n * (trip / n) + trip % n
  {
  }

  /** `Owner(j)` is an executor whose block holds `j`. */
  lemma OwnerHolds(trip: int, n: int, j: int)
    requires trip >= n >= 1 && 0 <= j < trip
    ensures 0 <= Owner(trip, n, j) < n
    ensures Start(trip, n, Owner(trip, n, j)) <= j < Start(trip, n, Owner(trip, n, j) + 1)
  {
    SmallPositive(trip, n);
    if j < (trip % n) * (trip / n + 1) {
      OwnerHoldsBig(trip, n, j);
    } else {
      OwnerHoldsSmall(trip, n, j);
    }
  }

  lemma OwnerHoldsBig(trip: int, n: int, j: int)
    requires trip >= n >= 1 && 0 <= j < (trip % n) * (trip / n + 1)
    ensures 0 <= Owner(trip, n, j) < n
    ensures Start(trip, n, Owner(trip, n, j)) <= j < Start(trip, n, Owner(trip, n, j) + 1)
  {
    var small, extras := trip / n, trip % n;
    SmallPositive(trip, n);
    InBigBlock(small, extras, j);
    var o := j / (small + 1);
    assert Owner(trip, n, j) == o;
    assert Start(trip, n, o) == o * small + o;
    assert Start(trip, n, o + 1) == (o + 1) * small + (o + 1);
  }

  lemma OwnerHoldsSmall(trip: int, n: int, j: int)
    requires trip >= n >= 1 && (trip % n) * (trip / n + 1) <= j < trip
    ensures 0 <= Owner(trip, n, j) < n
    ensures Start(trip, n, Owner(trip, n, j)) <= j < Start(trip, n, Owner(trip, n, j) + 1)
  {
    var small, extras := trip / n, trip % n;
    SmallPositive(trip, n);
    var big := extras * (small + 1);
    InSmallBlock(small, extras, n, j);
    var m := (j - big) / small;
    var o := extras + m;
    assert Owner(trip, n, j) == o;
    StartPastExtras(small, extras, m);
    assert Start(trip, n, o) == big + m * small;
    assert Start(trip, n, o + 1) == big + (m + 1) * small;
  }

  lemma StartPastExtras(s: int, e: int, m: int)
    requires m >= 0
    ensures (e + m) * s + e == e * (s + 1) + m * s
    ensures (e + m + 1) * s + e == e * (s + 1) + (m + 1) * s
  {
  }

  /** No other executor's block holds `j`. */
  lemma OwnerUnique(trip: int, n: int, j: int, t: int)
    requires trip >= n >= 1 && 0 <= t < n
    requires Start(trip, n, t) <= j < Start(trip, n, t + 1)
    ensures 0 <= j < trip && Owner(trip, n, j) == t
  {
    StartEnds(trip, n);
    StartMonotone(trip, n, 0, t);
    StartMonotone(trip, n, t + 1, n);
    OwnerHolds(trip, n, j);
    var o := Owner(trip, n, j);
    if o < t {
      StartMonotone(trip, n, o + 1, t);
    } else if o > t {
      StartMonotone(trip, n, t + 1, o);
    }
  }

  /**
   * Lines 277-283: on a range of `trip` iterations (at least one per
   * executor), executor `t` gets exactly the iterations with index in
   * `[Start(t), Start(t + 1))`, and only the last executor is flagged.
   */
  lemma ChunkIsBlock(k: Kind, lower: int, upper: int, incr: int, trip: int, n: int, t: int)
    requires LoopArgs(k, lower, upper, incr, 0) && incr != 0 && !ZeroTrip(lower, upper, incr)
    requires trip == Count(lower, upper, incr) && Executors(n, t) && trip >= n
    ensures BalancedChunk(k, lower, incr, trip, n, t) ==
      Piece(Iter(lower, incr, Start(trip, n, t)), Iter(lower, incr, Start(trip, n, t + 1) - 1), t == n - 1)
  {
    var a, b := Start(trip, n, t), Start(trip, n, t + 1);
    BlockInLoop(trip, n, t);
    IterInRange(k, lower, upper, incr, a);
    IterInRange(k, lower, upper, incr, b - 1);
    BalancedFields(k, lower, incr, trip, n, t);
  }

  /**
   * Lines 280-281 in index space: executor `t`'s stored bounds are its
   * first iteration `Start(t)` and its last iteration `Start(t + 1) - 1`,
   * each reduced into the loop type.
   */
  lemma BalancedFields(k: Kind, lower: int, incr: int, trip: int, n: int, t: int)
    requires LoopArgs(k, lower, lower, incr, 0) && Executors(n, t) && trip >= 0
    ensures var p := BalancedChunk(k, lower, incr, trip, n, t);
      && p.lo == Wrap(MaxMin(k), Iter(lower, incr, Start(trip, n, t)))
      && p.up == Wrap(MaxMin(k), Iter(lower, incr, Start(trip, n, t + 1) - 1))
  {
    var a := Start(trip, n, t);
    assert incr * a == a * incr;
    assert lower + incr * a == Iter(lower, incr, a);
    StartStep(trip, n, t);
    StoredStep(MaxMin(k), lower, incr, a, trip / n, t < trip % n);
  }

  /** Storing the iteration `s` (or `s - 1`) steps on from a stored iteration `a`, as line 281 does. */
  lemma StoredStep(l: Limits, lower: int, incr: int, a: int, s: int, extra: bool)
    requires l.mn < l.mx
    ensures Wrap(l, Wrap(l, Iter(lower, incr, a)) + s * incr - (if extra then 0 else incr))
      == Wrap(l, Iter(lower, incr, a + s - (if extra then 0 else 1)))
  {
    StepFrom(lower, incr, a, s - (if extra then 0 else 1));
    WrapOfSum(l, Iter(lower, incr, a), s * incr - (if extra then 0 else incr));
  }

  /** Executor `t`'s block is a non-empty part of the loop. */
  lemma BlockInLoop(trip: int, n: int, t: int)
    requires trip >= n >= 1 && 0 <= t < n
    ensures 0 <= Start(trip, n, t) < Start(trip, n, t + 1) <= trip
  {
    StartEnds(trip, n);
    StartMonotone(trip, n, 0, t);
    StartMonotone(trip, n, t, t + 1);
    StartMonotone(trip, n, t + 1, n);
  }

  /**
   * Lines 277-283, read collectively: executor `t` runs iteration `j` (an
   * iteration of its range) exactly when `j` is an iteration of the loop
   * and `t` is its owner, so the executors' ranges are disjoint and cover
   * the loop; the flag marks the owner of the last iteration.
   */
  lemma Partition(k: Kind, lower: int, upper: int, incr: int, trip: int, n: int, t: int, j: int)
    requires LoopArgs(k, lower, upper, incr, 0) && incr != 0 && !ZeroTrip(lower, upper, incr)
    requires trip == Count(lower, upper, incr) && Executors(n, t) && trip >= n
    ensures var p := BalancedChunk(k, lower, incr, trip, n, t);
      && (Within(p.lo, p.up, incr, Iter(lower, incr, j)) <==> 0 <= j < trip && Owner(trip, n, j) == t)
      && (p.last <==> Owner(trip, n, trip - 1) == t)
  {
    ChunkIsBlock(k, lower, upper, incr, trip, n, t);
    var a, b := Start(trip, n, t), Start(trip, n, t + 1);
    WithinIters(lower, incr, a, b - 1, j);
    if a <= j < b {
      OwnerUnique(trip, n, j, t);
    }
    if 0 <= j < trip && Owner(trip, n, j) == t {
      OwnerHolds(trip, n, j);
    }
    Flag(trip, n);
  }

  /** Line 283: the last executor is the owner of the last iteration. */
  lemma Flag(trip: int, n: int)
    requires trip >= n >= 1
    ensures Owner(trip, n, trip - 1) == n - 1
  {
    StartEnds(trip, n);
    StartMonotone(trip, n, n - 1, n);
    StartStep(trip, n, n - 1);
    OwnerUnique(trip, n, trip - 1, n - 1);
  }

  /** Line 281: executor `t` runs `trip / n + 1` iterations when `t < trip % n` and `trip / n` otherwise. */
  lemma Sizes(k: Kind, lower: int, upper: int, incr: int, trip: int, n: int, t: int)
    requires LoopArgs(k, lower, upper, incr, 0) && incr != 0 && !ZeroTrip(lower, upper, incr)
    requires trip == Count(lower, upper, incr) && Executors(n, t) && trip >= n
    ensures var p := BalancedChunk(k, lower, incr, trip, n, t);
      p.up == Iter(p.lo, incr, BlockSize(trip, n, t) - 1)
  {
    ChunkIsBlock(k, lower, upper, incr, trip, n, t);
    StartStep(trip, n, t);
    var a := Start(trip, n, t);
    StepFrom(lower, incr, a, BlockSize(trip, n, t) - 1);
  }

  /** Lines 280-281: executor `t`'s range ends one increment before executor `t + 1`'s starts. */
  lemma Abutting(k: Kind, lower: int, upper: int, incr: int, trip: int, n: int, t: int)
    requires LoopArgs(k, lower, upper, incr, 0) && incr != 0 && !ZeroTrip(lower, upper, incr)
    requires trip == Count(lower, upper, incr) && Executors(n, t) && trip >= n && t + 1 < n
    ensures BalancedChunk(k, lower, incr, trip, n, t).up + incr == BalancedChunk(k, lower, incr, trip, n, t + 1).lo
  {
    ChunkIsBlock(k, lower, upper, incr, trip, n, t);
    ChunkIsBlock(k, lower, upper, incr, trip, n, t + 1);
    StepFrom(lower, incr, Start(trip, n, t + 1) - 1, 1);
  }

  /** The first range starts at `lower`. */
  lemma FirstStart(k: Kind, lower: int, upper: int, incr: int, trip: int, n: int)
    requires LoopArgs(k, lower, upper, incr, 0) && incr != 0 && !ZeroTrip(lower, upper, incr)
    requires trip == Count(lower, upper, incr) && 1 <= n < 0x1_0000_0000 && trip >= n
    ensures BalancedChunk(k, lower, incr, trip, n, 0).lo == lower
  {
    ChunkIsBlock(k, lower, upper, incr, trip, n, 0);
    StartEnds(trip, n);
  }

  /** The last range ends with the loop's last iteration. */
  lemma LastEnd(k: Kind, lower: int, upper: int, incr: int, trip: int, n: int)
    requires LoopArgs(k, lower, upper, incr, 0) && incr != 0 && !ZeroTrip(lower, upper, incr)
    requires trip == Count(lower, upper, incr) && 1 <= n < 0x1_0000_0000 && trip >= n
    ensures BalancedChunk(k, lower, incr, trip, n, n - 1).up == Iter(lower, incr, trip - 1)
  {
    ChunkIsBlock(k, lower, upper, incr, trip, n, n - 1);
    StartEnds(trip, n);
  }
}
