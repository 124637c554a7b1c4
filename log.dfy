/** The logarithmic parameter of the class-based engine. Its endpoints are private fields behind
    setters, and each setter refreshes a cached logarithm of its endpoint, so normalizing does
    not recompute them. */
module Log {
  import opened Results
  import opened Scale
  import opened Affine

  class LogParam {
    var minimum: real
    var maximum: real
    var logMin: real
    var logMax: real
    /** The base, e unless the constructor is given one; never changed afterwards. */
    const logBase: real
    /** The host's math primitives. */
    const math: MathLib

    /** The class invariant: both caches hold the logarithm of their endpoint. */
    predicate Valid()
      reads this
    {
      BaseOk(math, logBase) && logMin == LogOf(minimum) && logMax == LogOf(maximum)
    }

    /** `#log`: the sign-aware logarithm in this parameter's base. */
    function LogOf(value: real): (r: real)
      requires BaseOk(math, logBase)
      ensures value == 0.0 ==> r == 0.0
    {
      Scale.Log(math, value, logBase)
    }

    /** `#exp`: the sign-aware exponential in this parameter's base. */
    function ExpOf(value: real): (r: real)
      ensures value == 0.0 ==> r == 0.0
    {
      Scale.Exp(math, value, logBase)
    }

    /** The `min` getter: the endpoint whose logarithm is cached in `logMin`. */
    function Min(): (r: real)
      reads this
      ensures Valid() ==> LogOf(r) == logMin
    {
      minimum
    }

    /** The `max` getter: the endpoint whose logarithm is cached in `logMax`. */
    function Max(): (r: real)
      reads this
      ensures Valid() ==> LogOf(r) == logMax
    {
      maximum
    }

    /** The base is e when none is given; then both setters run, so the invariant holds. */
    constructor (min: real, max: real, base: Option<real>, m: MathLib)
      requires BaseOk(m, if base.Some? then base.value else E)
      ensures Valid()
      ensures logBase == (if base.Some? then base.value else E) && math == m
      ensures Min() == min && Max() == max
    {
      logBase := if base.Some? then base.value else E;
      math := m;
      new;
      SetMin(min);
      SetMax(max);
    }

    /** The `min` setter: stores the endpoint and refreshes its cached logarithm, nothing else. */
    method SetMin(v: real)
      requires BaseOk(math, logBase)
      modifies this
      ensures minimum == v && logMin == LogOf(v)
      ensures maximum == old(maximum) && logMax == old(logMax)
      ensures Min() == v
      ensures old(logMax == LogOf(maximum)) ==> Valid()
    {
      minimum := v;
      logMin := LogOf(v);
    }

    /** The `max` setter: stores the endpoint and refreshes its cached logarithm, nothing else. */
    method SetMax(v: real)
      requires BaseOk(math, logBase)
      modifies this
      ensures maximum == v && logMax == LogOf(v)
      ensures minimum == old(minimum) && logMin == old(logMin)
      ensures Max() == v
      ensures old(logMin == LogOf(minimum)) ==> Valid()
    {
      maximum := v;
      logMax := LogOf(v);
    }

    /** Position of `value`: affine in log space between the cached logarithms. */
    function Normalize(value: real): (r: real)
      reads this
      requires Valid() && logMin != logMax
      ensures value == Min() ==> r == 0.0
      ensures value == Max() ==> r == 1.0
    {
      Affine.Endpoints(logMin, logMax);
      Position(LogOf(value), logMin, logMax)
    }

    /** Value at `position`: the exponential of the affine point between the cached logarithms. */
    function Denormalize(position: real): (r: real)
      reads this
      ensures position == 0.0 ==> r == ExpOf(logMin)
      ensures position == 1.0 ==> r == ExpOf(logMax)
    {
      ExpOf(Point(position, logMin, logMax))
    }
  }

  /** When `ln` increases on [1, ∞), normalize is non-decreasing for `min < max` and
      non-increasing for `min > max`, whatever the base. */
  lemma {:induction false} Monotone(p: LogParam, a: real, b: real)
    requires p.Valid() && p.logMin != p.logMax && a <= b
    requires Coherent(p.math) && LnIncreasing(p.math)
    ensures p.Min() < p.Max() ==> p.Normalize(a) <= p.Normalize(b)
    ensures p.Min() > p.Max() ==> p.Normalize(a) >= p.Normalize(b)
  {
    LogPositionMonotone(p.math, p.logBase, a, b, p.minimum, p.maximum);
  }

  /** Under the assumed inverse law, 0 and 1 denormalize to the endpoints themselves. */
  lemma {:induction false} DenormalizeEndpoints(p: LogParam)
    requires p.Valid() && Coherent(p.math) && ExpInvertsLog(p.math, p.logBase)
    ensures p.Denormalize(0.0) == p.Min() && p.Denormalize(1.0) == p.Max()
  {
    assert Point(0.0, p.logMin, p.logMax) == p.logMin;
    assert Point(1.0, p.logMin, p.logMax) == p.logMax;
    ExpOfLog(p.math, p.minimum, p.logBase);
    ExpOfLog(p.math, p.maximum, p.logBase);
  }

  /** Under the assumed inverse laws, Denormalize and Normalize are mutually inverse over the
      reals, ranges crossing zero included. */
  lemma {:induction false} RoundTrip(p: LogParam, value: real, position: real)
    requires p.Valid() && p.logMin != p.logMax
    requires Coherent(p.math) && ExpInvertsLog(p.math, p.logBase) && LogInvertsExp(p.math, p.logBase)
    ensures p.Denormalize(p.Normalize(value)) == value
    ensures p.Normalize(p.Denormalize(position)) == position
  {
    PointOfPosition(p.LogOf(value), p.logMin, p.logMax);
    ExpOfLog(p.math, value, p.logBase);
    LogOfExp(p.math, Point(position, p.logMin, p.logMax), p.logBase);
    PositionOfPoint(position, p.logMin, p.logMax);
  }

  /** `#log` maps 0 to 0 and is odd; so is `#exp`. */
  lemma {:induction false} LogExpOdd(p: LogParam, v: real)
    requires BaseOk(p.math, p.logBase)
    ensures p.LogOf(0.0) == 0.0 && p.LogOf(-v) == -p.LogOf(v)
    ensures p.ExpOf(0.0) == 0.0 && p.ExpOf(-v) == -p.ExpOf(v)
  {
    LogOdd(p.math, v, p.logBase);
    ExpOdd(p.math, v, p.logBase);
  }

  /** A client: setting the endpoints again keeps the caches coherent, and each getter returns
      the last value set. */
  method ResetRange(p: LogParam, min: real, max: real)
    requires p.Valid()
    modifies p
    ensures p.Valid() && p.Min() == min && p.Max() == max
  {
    p.SetMax(max);
    p.SetMin(min);
  }
}
