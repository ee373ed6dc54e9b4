/**
 * The numeric trait layer of the static scheduler: the four loop-variable
 * domains the scheduler is instantiated for, their limits (the `mx`/`mn`
 * sentinels of `i_maxmin`), the signed type used for increments, chunks and
 * strides, and the unsigned type used for trip counts.  All three types of
 * one instantiation have the same width, and every store into one of them
 * is modelled as a reduction of the exact mathematical value into the
 * type's range (`Wrap`).
 */
module Domains {

  /** The loop-variable types of the `_4`, `_4u`, `_8` and `_8u` entry points. */
  datatype Kind = Int32 | UInt32 | Int64 | UInt64

  /** The inclusive range of one C++ integer type. */
  datatype Limits = Limits(mn: int, mx: int)

  predicate IsSigned(k: Kind) {
    k == Int32 || k == Int64
  }

  /** 2 to the width of the kind, the modulus of all its arithmetic. */
  function Modulus(k: Kind): (m: int)
    ensures m == 0x1_0000_0000 || m == 0x1_0000_0000_0000_0000
  {
    if k == Int32 || k == UInt32 then 0x1_0000_0000 else 0x1_0000_0000_0000_0000
  }

  /** `i_maxmin<T>`: the limits of the loop variable type `T`. */
  function MaxMin(k: Kind): (l: Limits)
    ensures l.mx - l.mn + 1 == Modulus(k)
    ensures IsSigned(k) <==> l.mn < 0
    ensures l.mn <= 0 < l.mx
  {
    match k
    case Int32 => Limits(-0x8000_0000, 0x7fff_ffff)
    case UInt32 => Limits(0x0000_0000, 0xffff_ffff)
    case Int64 => Limits(-0x8000_0000_0000_0000, 0x7fff_ffff_ffff_ffff)
    case UInt64 => Limits(0x0000_0000_0000_0000, 0xffff_ffff_ffff_ffff)
  }

  /** `traits_t<T>::signed_t`: the type of `incr`, `chunk` and the stride. */
  function SignedOf(k: Kind): (l: Limits)
    ensures l.mx - l.mn + 1 == Modulus(k)
    ensures l.mn < 0 < l.mx && l.mx == -l.mn - 1
  {
    if k == Int32 || k == UInt32 then Limits(-0x8000_0000, 0x7fff_ffff)
    else Limits(-0x8000_0000_0000_0000, 0x7fff_ffff_ffff_ffff)
  }

  /** `traits_t<T>::unsigned_t`: the type of the trip count. */
  function UnsignedOf(k: Kind): (l: Limits)
    ensures l.mn == 0 && l.mx + 1 == Modulus(k)
  {
    Limits(0, Modulus(k) - 1)
  }

  predicate InRange(l: Limits, x: int) {
    l.mn <= x <= l.mx
  }

  /**
   * The value a C++ variable of range `l` holds after being assigned the
   * exact value `x`: `x` reduced modulo the width into the range.
   */
  function Wrap(l: Limits, x: int): (r: int)
    requires l.mn < l.mx
    ensures InRange(l, r)
    ensures InRange(l, x) ==> r == x
  {
    if InRange(l, x) then x else l.mn + (x - l.mn) % (l.mx - l.mn + 1)
  }

  /** The reduction is the remainder modulo the width, offset by the minimum. */
  lemma WrapIsRemainder(l: Limits, x: int)
    requires l.mn < l.mx
    ensures Wrap(l, x) == l.mn + (x - l.mn) % (l.mx - l.mn + 1)
  {
    if InRange(l, x) {
      DivModUnique(x - l.mn, l.mx - l.mn + 1, 0, x - l.mn);
    }
  }

  /**
   * C and C++ integer division, which truncates toward zero: the remainder
   * `a - q * b` is smaller than the divisor in magnitude and has the sign of
   * the dividend.
   */
  function TDiv(a: int, b: int): (q: int)
    requires b != 0
    ensures a >= 0 && b > 0 ==> q == a / b
    ensures a >= 0 ==> 0 <= a - q * b < (if b > 0 then b else -b)
    ensures a < 0 ==> -(if b > 0 then b else -b) < a - q * b <= 0
  {
    if (a >= 0) == (b > 0) then
      (if a >= 0 then a / b else (-a) / (-b))
    else
      -((if a >= 0 then a else -a) / (if b > 0 then b else -b))
  }

  /**
   * `a / b` for a value `a` of the loop type and a value `b` of the signed
   * type: for an unsigned loop type the usual arithmetic conversions make the
   * division unsigned.
   */
  function LoopDiv(k: Kind, a: int, b: int): (q: int)
    requires b != 0 && InRange(SignedOf(k), b)
    requires InRange(MaxMin(k), a)
    ensures a >= 0 && b > 0 ==> q == a / b
  {
    if IsSigned(k) then TDiv(a, b) else a / Wrap(UnsignedOf(k), b)
  }

  // ---------------------------------------------------------------------
  // Arithmetic facts about the reduction.

  lemma DivModUnique(x: int, m: int, q: int, r: int)
    requires m > 0 && x == q * m + r && 0 <= r < m
    ensures x / m == q && x % m == r
  {
    var q', r' := x / m, x % m;
    assert x == q' * m + r';
    if q' > q {
      MulAtLeast(q' - q, m);
    } else if q' < q {
      MulAtLeast(q - q', m);
    }
  }

  lemma MulAtLeast(a: int, b: int)
    requires a >= 1 && b >= 0
    ensures a * b >= b
  {
  }

  /** Values that differ by a multiple of the width are stored alike. */
  lemma WrapCongruent(l: Limits, x: int, y: int, n: int)
    requires l.mn < l.mx
    requires x == y + n * (l.mx - l.mn + 1)
    ensures Wrap(l, x) == Wrap(l, y)
  {
    var m := l.mx - l.mn + 1;
    var q, r := (y - l.mn) / m, (y - l.mn) % m;
    assert x - l.mn == (q + n) * m + r;
    DivModUnique(x - l.mn, m, q + n, r);
    WrapIsRemainder(l, x);
    WrapIsRemainder(l, y);
  }

  /** Storing a value twice is storing it once. */
  lemma WrapOfSum(l: Limits, a: int, b: int)
    requires l.mn < l.mx
    ensures Wrap(l, Wrap(l, a) + b) == Wrap(l, a + b)
  {
    var m := l.mx - l.mn + 1;
    var n := (a - l.mn) / m;
    WrapIsRemainder(l, a);
    assert Wrap(l, a) == a - n * m;
    WrapCongruent(l, a + b, Wrap(l, a) + b, n);
  }

  /** `k * Wrap(c)` and `k * c` are stored alike. */
  lemma WrapOfScaled(l: Limits, a: int, k: int, c: int)
    requires l.mn < l.mx
    ensures Wrap(l, a + k * Wrap(l, c)) == Wrap(l, a + k * c)
  {
    var m := l.mx - l.mn + 1;
    var n := (c - l.mn) / m;
    WrapIsRemainder(l, c);
    assert Wrap(l, c) == c - n * m;
    assert k * Wrap(l, c) == k * c - (k * n) * m;
    WrapCongruent(l, a + k * c, a + k * Wrap(l, c), k * n);
  }

  /**
   * Overflow detection as the scheduler does it: adding a non-negative amount
   * smaller than the width to an in-range value wraps exactly when the stored
   * sum compares below the start (mirrored for subtraction).
   */
  lemma WrapDetectsOverflowUp(l: Limits, x: int, d: int)
    requires l.mn < l.mx && InRange(l, x)
    requires 0 <= d <= l.mx - l.mn
    ensures Wrap(l, x + d) < x <==> x + d > l.mx
    ensures x + d > l.mx ==> Wrap(l, x + d) == x + d - (l.mx - l.mn + 1)
  {
    if x + d > l.mx {
      var m := l.mx - l.mn + 1;
      DivModUnique(x + d - l.mn, m, 1, x + d - l.mn - m);
      WrapIsRemainder(l, x + d);
    }
  }

  lemma WrapDetectsOverflowDown(l: Limits, x: int, d: int)
    requires l.mn < l.mx && InRange(l, x)
    requires 0 <= d <= l.mx - l.mn
    ensures Wrap(l, x - d) > x <==> x - d < l.mn
    ensures x - d < l.mn ==> Wrap(l, x - d) == x - d + (l.mx - l.mn + 1)
  {
    if x - d < l.mn {
      var m := l.mx - l.mn + 1;
      DivModUnique(x - d - l.mn, m, -1, x - d - l.mn + m);
      WrapIsRemainder(l, x - d);
    }
  }

  /**
   * The correction the scheduler applies to a chunk's upper bound (lines
   * 295-299, 485-490 and 697-700 of kmp_sched.cpp): a stored end `Wrap(u)`
   * that compares below the stored start `lo` has overflowed and is
   * replaced by the maximum, then clamped to `upper`.  The result is the
   * exact end `u` clamped to `upper`, and the stored end compares with
   * `upper - incr` as the exact one does.
   */
  lemma ClampUp(l: Limits, lo: int, u: int, incr: int, upper: int)
    requires l.mn < l.mx && InRange(l, lo) && InRange(l, upper)
    requires incr > 0 && lo <= u <= lo + (l.mx - l.mn)
    ensures var up := Wrap(l, u);
      var up' := if up < lo then l.mx else up;
      && (if up' > upper then upper else up') == (if u <= upper then u else upper)
      && (InRange(l, upper - incr) ==> (up' > upper - incr <==> u + incr > upper))
  {
    WrapDetectsOverflowUp(l, lo, u - lo);
  }

  /** The mirror image of `ClampUp` for a negative increment (lines 301-305, 496-501 and 702-705). */
  lemma ClampDown(l: Limits, lo: int, u: int, incr: int, upper: int)
    requires l.mn < l.mx && InRange(l, lo) && InRange(l, upper)
    requires incr < 0 && lo - (l.mx - l.mn) <= u <= lo
    ensures var up := Wrap(l, u);
      var up' := if up > lo then l.mn else up;
      && (if up' < upper then upper else up') == (if u >= upper then u else upper)
      && (InRange(l, upper - incr) ==> (up' < upper - incr <==> u + incr < upper))
  {
    WrapDetectsOverflowDown(l, lo, lo - u);
  }
}
