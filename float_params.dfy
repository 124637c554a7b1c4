/** Float parameters of the functional engine: a range, mapped to and from [0, 1] without clamping. */
module FloatParams {
  import opened Results
  import opened Ranges
  import opened Scale
  import opened Affine

  datatype FloatParam = FloatParam(range: Range)

  /** `createFloatParam` forwards its arguments to `createRange`. */
  function CreateFloatParam(kind: RangeType, min: real, max: real, base: Option<real>): (p: FloatParam)
    ensures p.range == CreateRange(kind, min, max, base)
  {
    FloatParam(CreateRange(kind, min, max, base))
  }

  /** The inputs on which `Normalize` does not divide by zero (on which the source would produce
      an infinity or NaN): distinct endpoints, and for a logarithmic range a usable base and
      distinct logarithms of the endpoints. */
  predicate NormalizeDefined(m: MathLib, p: FloatParam) {
    match p.range
    case LinearRange(min, max) => min != max
    case LogRange(min, max, base) => BaseOk(m, base) && Log(m, max, base) != Log(m, min, base)
  }

  /** The inputs on which `Unnormalize` is defined: a usable base for a logarithmic range. */
  predicate UnnormalizeDefined(m: MathLib, p: FloatParam) {
    p.range.LogRange? ==> BaseOk(m, p.range.base)
  }

  /** Position of `value` in the range: affine for a linear range, affine in log space for a
      logarithmic one. */
  function Normalize(m: MathLib, value: real, p: FloatParam): (r: real)
    requires NormalizeDefined(m, p)
    ensures value == p.range.min ==> r == 0.0
    ensures value == p.range.max ==> r == 1.0
  {
    match p.range
    case LinearRange(min, max) =>
      Endpoints(min, max);
      Position(value, min, max)
    case LogRange(min, max, base) =>
      var logMin := Log(m, min, base);
      var logMax := Log(m, max, base);
      Endpoints(logMin, logMax);
      Position(Log(m, value, base), logMin, logMax)
  }

  /** Value at `position` in the range; the inverse of `Normalize`. */
  function Unnormalize(m: MathLib, position: real, p: FloatParam): (r: real)
    requires UnnormalizeDefined(m, p)
    ensures p.range.LinearRange? && position == 0.0 ==> r == p.range.min
    ensures p.range.LinearRange? && position == 1.0 ==> r == p.range.max
    ensures p.range.LogRange? && position == 0.0 ==>
              r == Exp(m, Log(m, p.range.min, p.range.base), p.range.base)
    ensures p.range.LogRange? && position == 1.0 ==>
              r == Exp(m, Log(m, p.range.max, p.range.base), p.range.base)
  {
    match p.range
    case LinearRange(min, max) => Point(position, min, max)
    case LogRange(min, max, base) =>
      var logMin := Log(m, min, base);
      var logMax := Log(m, max, base);
      Exp(m, Point(position, logMin, logMax), base)
  }

  /** Linear: no clamping, a value beyond an endpoint lands outside [0, 1]. */
  lemma LinearExtrapolates(m: MathLib, p: FloatParam, value: real)
    requires p.range.LinearRange? && p.range.min < p.range.max
    ensures value > p.range.max ==> Normalize(m, value, p) > 1.0
    ensures value < p.range.min ==> Normalize(m, value, p) < 0.0
  {
    PositionExtrapolates(value, p.range.min, p.range.max);
  }

  /** Linear: `Normalize` is non-decreasing for an ascending range and non-increasing for a
      descending one. */
  lemma LinearMonotone(m: MathLib, p: FloatParam, a: real, b: real)
    requires p.range.LinearRange? && NormalizeDefined(m, p) && a <= b
    ensures p.range.min < p.range.max ==> Normalize(m, a, p) <= Normalize(m, b, p)
    ensures p.range.min > p.range.max ==> Normalize(m, a, p) >= Normalize(m, b, p)
  {
    PositionMonotone(a, b, p.range.min, p.range.max);
  }

  /** Logarithmic: when `ln` increases on [1, ∞), `Normalize` is non-decreasing for an ascending
      range and non-increasing for a descending one, in every usable base. */
  lemma {:induction false} LogMonotone(m: MathLib, p: FloatParam, a: real, b: real)
    requires p.range.LogRange? && NormalizeDefined(m, p) && a <= b
    requires Coherent(m) && LnIncreasing(m)
    ensures p.range.min < p.range.max ==> Normalize(m, a, p) <= Normalize(m, b, p)
    ensures p.range.min > p.range.max ==> Normalize(m, a, p) >= Normalize(m, b, p)
  {
    LogPositionMonotone(m, p.range.base, a, b, p.range.min, p.range.max);
  }

  /** Linear: `Unnormalize` and `Normalize` are mutually inverse over the reals. */
  lemma LinearRoundTrip(m: MathLib, p: FloatParam, value: real, position: real)
    requires p.range.LinearRange? && NormalizeDefined(m, p)
    ensures Unnormalize(m, Normalize(m, value, p), p) == value
    ensures Normalize(m, Unnormalize(m, position, p), p) == position
  {
    PointOfPosition(value, p.range.min, p.range.max);
    PositionOfPoint(position, p.range.min, p.range.max);
  }

  /** Logarithmic: under the assumed inverse law, 0 and 1 map back to the endpoints
      themselves. */
  lemma {:induction false} LogUnnormalizeEndpoints(m: MathLib, p: FloatParam)
    requires p.range.LogRange? && UnnormalizeDefined(m, p)
    requires Coherent(m) && ExpInvertsLog(m, p.range.base)
    ensures Unnormalize(m, 0.0, p) == p.range.min && Unnormalize(m, 1.0, p) == p.range.max
  {
    ExpOfLog(m, p.range.min, p.range.base);
    ExpOfLog(m, p.range.max, p.range.base);
  }

  /** Logarithmic: under the assumed inverse laws the two maps are mutually inverse, for every
      real value (ranges crossing zero included) and every position. */
  lemma {:induction false} LogRoundTrip(m: MathLib, p: FloatParam, value: real, position: real)
    requires p.range.LogRange? && NormalizeDefined(m, p)
    requires Coherent(m) && ExpInvertsLog(m, p.range.base) && LogInvertsExp(m, p.range.base)
    ensures Unnormalize(m, Normalize(m, value, p), p) == value
    ensures Normalize(m, Unnormalize(m, position, p), p) == position
  {
    var base := p.range.base;
    var logMin, logMax := Log(m, p.range.min, base), Log(m, p.range.max, base);
    PointOfPosition(Log(m, value, base), logMin, logMax);
    ExpOfLog(m, value, base);
    var y := Point(position, logMin, logMax);
    LogOfExp(m, y, base);
    PositionOfPoint(position, logMin, logMax);
  }
}
