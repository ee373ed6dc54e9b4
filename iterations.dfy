/**
 * The iteration space of a loop `for (i = lower; i <= upper; i += incr)`
 * (`>=` for a negative increment), described independently of the
 * scheduler: its `j`-th iteration is `lower + j * incr`, and the number of
 * iterations is `Count`.  The lemmas connect this description to the trip
 * counts the scheduler computes in its own integer types.
 */
module Iterations {
  import opened Domains
  import opened Sched

  /** The `j`-th iteration of the loop, counting from zero. */
  function Iter(lower: int, incr: int, j: int): int {
    lower + j * incr
  }

  /** `v` lies between `lo` and `up` as seen in the direction of `incr`. */
  predicate Within(lo: int, up: int, incr: int, v: int) {
    if incr > 0 then lo <= v <= up else up <= v <= lo
  }

  /** The number of iterations of a loop whose range is not empty. */
  function Count(lower: int, upper: int, incr: int): (c: int)
    requires incr != 0
    ensures !ZeroTrip(lower, upper, incr) ==> c >= 1
  {
    (if incr > 0 then (upper - lower) / incr else (lower - upper) / (-incr)) + 1
  }

  // ---------------------------------------------------------------------
  // Multiplication facts the solver needs spelled out.

  lemma MulLe(x: int, y: int, c: int)
    requires x <= y && c >= 0
    ensures x * c <= y * c
  {
    var d := y - x;
    assert y * c == x * c + d * c;
  }

  /** Stepping `d` iterations on from iteration `a`. */
  lemma StepFrom(lower: int, incr: int, a: int, d: int)
    ensures Iter(lower, incr, a) + d * incr == Iter(lower, incr, a + d)
  {
  }

  /** Index `j` is in block `id` of `q` indices exactly when it lies in `[id * q, id * q + q)`. */
  lemma OwnedIff(q: int, id: int, j: int)
    requires q >= 1 && id >= 0
    ensures j / q == id <==> id * q <= j <= id * q + q - 1
  {
    if id * q <= j <= id * q + q - 1 {
      DivModUnique(j, q, id, j - id * q);
    }
    assert j == (j / q) * q + j % q;
    if j / q < id {
      MulLe(j / q + 1, id, q);
    } else if j / q > id {
      MulLe(id + 1, j / q, q);
    }
  }

  /** Comparing two iterations compares their indices. */
  lemma IterOrder(lower: int, incr: int, a: int, b: int)
    requires incr != 0
    ensures incr > 0 ==> (Iter(lower, incr, a) <= Iter(lower, incr, b) <==> a <= b)
    ensures incr < 0 ==> (Iter(lower, incr, a) <= Iter(lower, incr, b) <==> b <= a)
  {
    if incr > 0 {
      if a <= b { MulLe(a, b, incr); } else { MulLe(b + 1, a, incr); }
    } else {
      if b <= a { MulLe(b, a, -incr); } else { MulLe(a + 1, b, -incr); }
    }
  }

  /** The iterations between iteration `a` and iteration `b` are those with an index in `[a, b]`. */
  lemma WithinIters(lower: int, incr: int, a: int, b: int, j: int)
    requires incr != 0
    ensures Within(Iter(lower, incr, a), Iter(lower, incr, b), incr, Iter(lower, incr, j)) <==> a <= j <= b
  {
    IterOrder(lower, incr, a, j);
    IterOrder(lower, incr, j, b);
  }

  /**
   * `Count` counts: iteration `j` (for `j >= 0`) lies in the range exactly
   * when `j < Count`.
   */
  lemma {:induction false} CountCounts(lower: int, upper: int, incr: int, j: int)
    requires incr != 0 && !ZeroTrip(lower, upper, incr) && j >= 0
    ensures Count(lower, upper, incr) >= 1
    ensures Within(lower, upper, incr, Iter(lower, incr, j)) <==> j < Count(lower, upper, incr)
  {
    var n := Count(lower, upper, incr);
    var d := if incr > 0 then upper - lower else lower - upper;
    var s := if incr > 0 then incr else -incr;
    assert d == (n - 1) * s + d % s;
    assert j * incr == (if incr > 0 then j * s else -(j * s));
    if j < n {
      MulLe(j, n - 1, s);
    } else {
      MulLe(n, j, s);
    }
  }

  /**
   * The zero-trip test of lines 134, 418 and 657 holds exactly when no
   * iteration of the loop, whatever its index, lies between the bounds.
   */
  lemma ZeroTripIsEmpty(lower: int, upper: int, incr: int)
    requires incr != 0
    ensures ZeroTrip(lower, upper, incr) <==> forall j :: !Within(lower, upper, incr, Iter(lower, incr, j))
  {
    if !ZeroTrip(lower, upper, incr) {
      assert Within(lower, upper, incr, Iter(lower, incr, 0));
    }
  }

  /** Iteration `j` lies in the range exactly when `0 <= j < Count`, negative `j` included. */
  lemma RangeIsRun(lower: int, upper: int, incr: int, j: int)
    requires incr != 0 && !ZeroTrip(lower, upper, incr)
    ensures Within(lower, upper, incr, Iter(lower, incr, j)) <==> 0 <= j < Count(lower, upper, incr)
  {
    if j >= 0 {
      CountCounts(lower, upper, incr, j);
    } else {
      IterOrder(lower, incr, j, 0);
      IterOrder(lower, incr, 0, j);
    }
  }

  /** Counting iterations afresh from iteration `a`. */
  lemma Rebase(lower: int, incr: int, a: int, j: int)
    ensures Iter(Iter(lower, incr, a), incr, j - a) == Iter(lower, incr, j)
  {
    StepFrom(lower, incr, a, j - a);
  }

  /**
   * A range that starts with iteration `a` and holds iteration `a + m - 1`
   * but not iteration `a + m` has `m` iterations.
   */
  lemma CountOfRun(lower: int, incr: int, lo: int, up: int, a: int, m: int)
    requires incr != 0 && m >= 1 && lo == Iter(lower, incr, a)
    requires Within(lo, up, incr, Iter(lower, incr, a + m - 1))
    requires !Within(lo, up, incr, Iter(lower, incr, a + m))
    ensures !ZeroTrip(lo, up, incr) && Count(lo, up, incr) == m
  {
    Rebase(lower, incr, a, a + m - 1);
    Rebase(lower, incr, a, a + m);
    CountCounts(lo, up, incr, m - 1);
    CountCounts(lo, up, incr, m);
  }

  /** The range ends with iteration `Count - 1`, at most one increment short of `upper`. */
  lemma LastIteration(lower: int, upper: int, incr: int)
    requires incr != 0 && !ZeroTrip(lower, upper, incr)
    ensures Within(lower, upper, incr, Iter(lower, incr, Count(lower, upper, incr) - 1))
    ensures !Within(lower, upper, incr, Iter(lower, incr, Count(lower, upper, incr)))
  {
    CountCounts(lower, upper, incr, Count(lower, upper, incr) - 1);
    CountCounts(lower, upper, incr, Count(lower, upper, incr));
  }

  /** Every iteration of the loop is a value of the loop type. */
  lemma IterInRange(k: Kind, lower: int, upper: int, incr: int, j: int)
    requires LoopArgs(k, lower, upper, incr, 0) && incr != 0 && !ZeroTrip(lower, upper, incr)
    requires 0 <= j < Count(lower, upper, incr)
    ensures Within(lower, upper, incr, Iter(lower, incr, j))
    ensures InRange(MaxMin(k), Iter(lower, incr, j))
    ensures Wrap(MaxMin(k), Iter(lower, incr, j)) == Iter(lower, incr, j)
  {
    CountCounts(lower, upper, incr, j);
  }

  /**
   * Lines 240-250 compute the number of iterations, unless that number does
   * not fit the unsigned counter (a loop over the whole domain by one).
   */
  lemma TripCountIsCount(k: Kind, lower: int, upper: int, incr: int)
    requires LoopArgs(k, lower, upper, incr, 0) && incr != 0 && !ZeroTrip(lower, upper, incr)
    requires incr != SignedOf(k).mn
    requires InRange(MaxMin(k), if incr > 0 then upper - lower else lower - upper)
    requires Count(lower, upper, incr) < Modulus(k)
    ensures TripCount(k, lower, upper, incr) == Count(lower, upper, incr)
  {
    var n := Count(lower, upper, incr);
    assert 1 <= n by { CountCounts(lower, upper, incr, 0); }
    var U := UnsignedOf(k);
    assert InRange(U, n);
    var q := n - 1;
    if incr == 1 || incr == -1 {
      assert q == if incr == 1 then upper - lower else lower - upper;
    } else if incr > 1 {
      QuotientUp(k, lower, upper, incr);
    } else {
      QuotientDown(k, lower, upper, incr);
    }
  }

  lemma QuotientUp(k: Kind, lower: int, upper: int, incr: int)
    requires LoopArgs(k, lower, upper, incr, 0) && incr > 1 && lower <= upper
    requires InRange(MaxMin(k), upper - lower)
    ensures LoopDiv(k, Wrap(MaxMin(k), upper - lower), incr) == (upper - lower) / incr
  {
  }

  lemma QuotientDown(k: Kind, lower: int, upper: int, incr: int)
    requires LoopArgs(k, lower, upper, incr, 0) && incr < -1 && upper <= lower
    requires incr != SignedOf(k).mn
    requires InRange(MaxMin(k), lower - upper)
    ensures LoopDiv(k, Wrap(MaxMin(k), lower - upper), Wrap(SignedOf(k), -incr)) == (lower - upper) / (-incr)
  {
    assert Wrap(SignedOf(k), -incr) == -incr;
  }

  /**
   * Lines 443-449 (and 510-516, 680-686) compute the number of iterations
   * when, in addition, the difference of the bounds fits the signed type.
   */
  lemma DistTripCountIsCount(k: Kind, lower: int, upper: int, incr: int)
    requires LoopArgs(k, lower, upper, incr, 0) && incr != 0 && !ZeroTrip(lower, upper, incr)
    requires InRange(SignedOf(k), upper - lower)
    requires Count(lower, upper, incr) < Modulus(k)
    ensures DistTripCount(k, lower, upper, incr) == Count(lower, upper, incr)
  {
    var n := Count(lower, upper, incr);
    assert 1 <= n by { CountCounts(lower, upper, incr, 0); }
    var U := UnsignedOf(k);
    assert InRange(U, n);
    var q := n - 1;
    if incr == 1 || incr == -1 {
      assert q == if incr == 1 then upper - lower else lower - upper;
    } else {
      SignedQuotient(k, lower, upper, incr);
    }
  }

  lemma SignedQuotient(k: Kind, lower: int, upper: int, incr: int)
    requires LoopArgs(k, lower, upper, incr, 0) && incr != 0 && !ZeroTrip(lower, upper, incr)
    requires InRange(SignedOf(k), upper - lower)
    ensures TDiv(Wrap(SignedOf(k), upper - lower), incr) == Count(lower, upper, incr) - 1
  {
  }

  /**
   * A loop whose bounds differ by more than the signed maximum still gets
   * its true count from lines 240-250 when the type is unsigned, whereas the
   * signed cast of line 448 turns the difference negative: here two
   * unsigned 32-bit bounds `0` and `0xFFFFFFFE` stepped by 2.
   */
  lemma DistTripCountSignedCast()
    ensures TripCount(UInt32, 0, 0xFFFF_FFFE, 2) == 0x8000_0000
    ensures DistTripCount(UInt32, 0, 0xFFFF_FFFE, 2) == 0
  {
  }
}
