/** The sign-aware logarithm and its inverse, used by logarithmic ranges so that a range may
    contain zero and negative numbers: log(v) = sign(v) * log_base(|v| + 1) and
    exp(y) = sign(y) * (base^|y| - 1). Both generations of the engine compute exactly this,
    with dedicated primitives for the bases 10, 2 and e. */
module Scale {
  import opened Affine

  /** `Math.E` as a double. */
  const E: real := 2.718281828459045

  /** The host's floating-point primitives, which this model cannot see: `Math.log10`,
      `Math.log2`, `Math.log` (natural), `Math.pow` and `Math.exp`. Facts about them that a
      proof needs are stated as hypotheses (`Coherent`, `ExpInvertsLog`, `LogInvertsExp`). */
  datatype MathLib = MathLib(
    log10: real -> real,
    log2: real -> real,
    ln: real -> real,
    pow: (real, real) -> real,
    exp: real -> real)

  /** `Math.abs` */
  function Abs(v: real): real { if v < 0.0 then -v else v }

  /** `Math.sign`: -1, 0 or 1. */
  function Sign(v: real): real { if v > 0.0 then 1.0 else if v < 0.0 then -1.0 else 0.0 }

  /** A base for which `Log` does not divide by zero: one of the three special-cased bases,
      or one whose natural logarithm is non-zero. */
  predicate BaseOk(m: MathLib, base: real) {
    base == 10.0 || base == 2.0 || base == E || m.ln(base) != 0.0
  }

  /** Sign-aware logarithm of `v` in `base`. */
  function Log(m: MathLib, v: real, base: real): (r: real)
    requires BaseOk(m, base)
    ensures v == 0.0 ==> r == 0.0
  {
    var x := Abs(v) + 1.0;
    var sign := Sign(v);
    if base == 10.0 then sign * m.log10(x)
    else if base == 2.0 then sign * m.log2(x)
    else if base == E then sign * m.ln(x)
    else sign * (m.ln(x) / m.ln(base))
  }

  /** Sign-aware exponential in `base`, the intended inverse of `Log`. */
  function Exp(m: MathLib, v: real, base: real): (r: real)
    ensures v == 0.0 ==> r == 0.0
  {
    var sign := Sign(v);
    var expValue := Abs(v);
    if base == 10.0 then sign * (m.pow(10.0, expValue) - 1.0)
    else if base == 2.0 then sign * (m.pow(2.0, expValue) - 1.0)
    else if base == E then sign * (m.exp(expValue) - 1.0)
    else sign * (m.pow(base, expValue) - 1.0)
  }

  /** The mathematical logarithm of `x` in `base`, by change of base. */
  function LogBase(m: MathLib, x: real, base: real): real
    requires m.ln(base) != 0.0
  {
    m.ln(x) / m.ln(base)
  }

  /** What the host primitives are assumed to satisfy relative to each other: `log10` and
      `log2` are `ln` divided by ln 10 and ln 2, ln e is 1, and `exp` is `pow` in base e. */
  ghost predicate Coherent(m: MathLib) {
    && m.ln(10.0) != 0.0
    && m.ln(2.0) != 0.0
    && m.ln(E) == 1.0
    && (forall x :: x >= 1.0 ==> m.log10(x) == m.ln(x) / m.ln(10.0))
    && (forall x :: x >= 1.0 ==> m.log2(x) == m.ln(x) / m.ln(2.0))
    && (forall y :: y >= 0.0 ==> m.exp(y) == m.pow(E, y))
  }

  /** Assumed inverse law: `pow(base, ·)` undoes `LogBase` above 1, where `LogBase` is positive. */
  ghost predicate ExpInvertsLog(m: MathLib, base: real) {
    && m.ln(base) != 0.0
    && forall x :: x > 1.0 ==> LogBase(m, x, base) > 0.0 && m.pow(base, LogBase(m, x, base)) == x
  }

  /** Assumed inverse law: `LogBase` undoes `pow(base, ·)` on positive exponents, whose powers exceed 1. */
  ghost predicate LogInvertsExp(m: MathLib, base: real) {
    && m.ln(base) != 0.0
    && forall y :: y > 0.0 ==> m.pow(base, y) > 1.0 && LogBase(m, m.pow(base, y), base) == y
  }

  /** Assumed shape of the natural logarithm on [1, ∞): ln 1 is 0 and `ln` is strictly increasing. */
  ghost predicate LnIncreasing(m: MathLib) {
    && m.ln(1.0) == 0.0
    && forall x, y :: 1.0 <= x < y ==> m.ln(x) < m.ln(y)
  }

  /** The sign-aware natural logarithm sign(v) * ln(|v| + 1), the numerator every base shares. */
  function SignedLn(m: MathLib, v: real): real {
    Sign(v) * m.ln(Abs(v) + 1.0)
  }

  /** When `ln` increases on [1, ∞), the sign-aware natural logarithm is strictly increasing on
      all reals, across zero included. */
  lemma {:induction false} SignedLnIncreasing(m: MathLib, a: real, b: real)
    requires LnIncreasing(m) && a < b
    ensures SignedLn(m, a) < SignedLn(m, b)
  {
    if a >= 0.0 {
      assert m.ln(1.0) <= m.ln(a + 1.0) < m.ln(b + 1.0);
    } else if b <= 0.0 {
      assert m.ln(1.0) <= m.ln(-b + 1.0) < m.ln(-a + 1.0);
    } else {
      assert m.ln(1.0) < m.ln(-a + 1.0) && m.ln(1.0) < m.ln(b + 1.0);
    }
  }

  /** Under `Coherent`, every accepted base has a non-zero natural logarithm. */
  lemma {:induction false} BaseLnNonZero(m: MathLib, base: real)
    requires Coherent(m) && BaseOk(m, base)
    ensures m.ln(base) != 0.0
  {
  }

  /** Every branch of `Log` is the shared numerator `SignedLn` divided by ln(base). */
  lemma {:induction false} LogIsScaledSignedLn(m: MathLib, v: real, base: real)
    requires Coherent(m) && m.ln(base) != 0.0
    ensures Log(m, v, base) == SignedLn(m, v) / m.ln(base)
  {
    LogIsSignedLogBase(m, v, base);
    var l, x := m.ln(base), m.ln(Abs(v) + 1.0);
    if v < 0.0 {
      var q := x / l;
      assert q * l == x;
      assert (-q) * l == -x;
    }
  }

  /** A position in log space orders values as the values themselves do, in whichever base:
      the factor 1/ln(base) cancels, so the order of the endpoints alone decides the direction. */
  lemma {:induction false} LogPositionMonotone(m: MathLib, base: real, a: real, b: real, lo: real, hi: real)
    requires Coherent(m) && LnIncreasing(m) && BaseOk(m, base)
    requires Log(m, lo, base) != Log(m, hi, base) && a <= b
    ensures lo < hi ==>
              Position(Log(m, a, base), Log(m, lo, base), Log(m, hi, base))
              <= Position(Log(m, b, base), Log(m, lo, base), Log(m, hi, base))
    ensures lo > hi ==>
              Position(Log(m, a, base), Log(m, lo, base), Log(m, hi, base))
              >= Position(Log(m, b, base), Log(m, lo, base), Log(m, hi, base))
  {
    BaseLnNonZero(m, base);
    var l := m.ln(base);
    var ga, gb, glo, ghi := SignedLn(m, a), SignedLn(m, b), SignedLn(m, lo), SignedLn(m, hi);
    LogIsScaledSignedLn(m, a, base);
    LogIsScaledSignedLn(m, b, base);
    LogIsScaledSignedLn(m, lo, base);
    LogIsScaledSignedLn(m, hi, base);
    assert glo != ghi;
    PositionScaled(ga, glo, ghi, l);
    PositionScaled(gb, glo, ghi, l);
    if a < b {
      SignedLnIncreasing(m, a, b);
    }
    if lo < hi {
      SignedLnIncreasing(m, lo, hi);
    } else if lo > hi {
      SignedLnIncreasing(m, hi, lo);
    }
    PositionMonotone(ga, gb, glo, ghi);
  }

  /** The sign-aware logarithm is odd. */
  lemma LogOdd(m: MathLib, v: real, base: real)
    requires BaseOk(m, base)
    ensures Log(m, -v, base) == -Log(m, v, base)
  {
  }

  /** The sign-aware exponential is odd. */
  lemma ExpOdd(m: MathLib, v: real, base: real)
    ensures Exp(m, -v, base) == -Exp(m, v, base)
  {
  }

  /** The four branches of `Log` all compute sign(v) * log_base(|v| + 1): the special cases
      only choose a more accurate primitive. */
  lemma {:induction false} LogIsSignedLogBase(m: MathLib, v: real, base: real)
    requires Coherent(m) && m.ln(base) != 0.0
    ensures Log(m, v, base) == Sign(v) * LogBase(m, Abs(v) + 1.0, base)
  {
    var x := Abs(v) + 1.0;
    if base == 10.0 {
      assert m.log10(x) == m.ln(x) / m.ln(10.0);
    } else if base == 2.0 {
      assert m.log2(x) == m.ln(x) / m.ln(2.0);
    } else if base == E {
      assert LogBase(m, x, base) == m.ln(x) / 1.0;
    }
  }

  /** The four branches of `Exp` all compute sign(y) * (base^|y| - 1). */
  lemma {:induction false} ExpIsSignedPow(m: MathLib, y: real, base: real)
    requires Coherent(m)
    ensures Exp(m, y, base) == Sign(y) * (m.pow(base, Abs(y)) - 1.0)
  {
    if base == E {
      assert m.exp(Abs(y)) == m.pow(E, Abs(y));
    }
  }

  /** Under the assumed inverse law, `Exp` undoes `Log` on every real, negatives and zero included. */
  lemma {:induction false} ExpOfLog(m: MathLib, v: real, base: real)
    requires Coherent(m) && ExpInvertsLog(m, base)
    ensures Exp(m, Log(m, v, base), base) == v
  {
    var x := Abs(v) + 1.0;
    var y := Log(m, v, base);
    LogIsSignedLogBase(m, v, base);
    ExpIsSignedPow(m, y, base);
    if v > 0.0 {
      assert x > 1.0 && y == LogBase(m, x, base) > 0.0;
      assert m.pow(base, Abs(y)) == x;
    } else if v < 0.0 {
      assert x > 1.0 && y == -LogBase(m, x, base) && Abs(y) == LogBase(m, x, base);
      assert m.pow(base, Abs(y)) == x;
    }
  }

  /** Under the assumed inverse law, `Log` undoes `Exp` on every real. */
  lemma {:induction false} LogOfExp(m: MathLib, y: real, base: real)
    requires Coherent(m) && LogInvertsExp(m, base)
    ensures Log(m, Exp(m, y, base), base) == y
  {
    var v := Exp(m, y, base);
    ExpIsSignedPow(m, y, base);
    LogIsSignedLogBase(m, v, base);
    if y > 0.0 {
      assert m.pow(base, y) > 1.0 && v == m.pow(base, y) - 1.0;
      assert Abs(v) + 1.0 == m.pow(base, y);
    } else if y < 0.0 {
      assert m.pow(base, -y) > 1.0 && v == -(m.pow(base, -y) - 1.0);
      assert Abs(v) + 1.0 == m.pow(base, -y);
    }
  }
}
