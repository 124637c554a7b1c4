/** The linear parameter of the class-based engine: public, mutable endpoints `min` and `max`. */
module Lin {
  import opened Results
  import opened Affine

  /** JavaScript truthiness of an optional number: absent and zero are falsy (NaN is not modelled). */
  predicate Truthy(arg: Option<real>) {
    arg.Some? && arg.value != 0.0
  }

  class LinearParam {
    var min: real
    var max: real

    /** The endpoints default to 0 and 1; an argument replaces its default only when it is
        truthy, so an explicit 0 is ignored (and `max` stays 1). */
    constructor (minArg: Option<real>, maxArg: Option<real>)
      ensures min == (if Truthy(minArg) then minArg.value else 0.0)
      ensures max == (if Truthy(maxArg) then maxArg.value else 1.0)
    {
      min := 0.0;
      max := 1.0;
      new;
      if Truthy(minArg) { min := minArg.value; }
      if Truthy(maxArg) { max := maxArg.value; }
    }

    /** Position of `value` between `min` (0) and `max` (1), without clamping. */
    function Normalize(value: real): (r: real)
      reads this
      requires min != max
      ensures value == min ==> r == 0.0
      ensures value == max ==> r == 1.0
    {
      Affine.Endpoints(min, max);
      Position(value, min, max)
    }

    /** Value at `position` between `min` and `max`, without clamping. */
    function Denormalize(position: real): (r: real)
      reads this
      ensures position == 0.0 ==> r == min
      ensures position == 1.0 ==> r == max
    {
      Point(position, min, max)
    }
  }

  /** Denormalize and Normalize are mutually inverse over the reals. */
  lemma {:induction false} RoundTrip(p: LinearParam, value: real, position: real)
    requires p.min != p.max
    ensures p.Denormalize(p.Normalize(value)) == value
    ensures p.Normalize(p.Denormalize(position)) == position
  {
    PointOfPosition(value, p.min, p.max);
    PositionOfPoint(position, p.min, p.max);
  }

  /** Normalize is non-decreasing for an ascending range and non-increasing for a descending one. */
  lemma {:induction false} Monotone(p: LinearParam, a: real, b: real)
    requires p.min != p.max && a <= b
    ensures p.min < p.max ==> p.Normalize(a) <= p.Normalize(b)
    ensures p.min > p.max ==> p.Normalize(a) >= p.Normalize(b)
  {
    PositionMonotone(a, b, p.min, p.max);
  }

  /** With the range (-50, 50): 0 sits at one half, and 0.25 and 0.75 give -25 and 25. */
  lemma {:induction false} SymmetricRange(p: LinearParam)
    requires p.min == -50.0 && p.max == 50.0
    ensures p.Normalize(0.0) == 0.5
    ensures p.Denormalize(0.25) == -25.0 && p.Denormalize(0.75) == 25.0
  {
  }

  /** A client: the default range is [0, 1], and an explicit zero maximum is ignored. */
  method ConstructionDefaults() returns (defaults: LinearParam, zeroMax: LinearParam)
    ensures defaults.min == 0.0 && defaults.max == 1.0
    ensures zeroMax.min == -100.0 && zeroMax.max == 1.0
  {
    defaults := new LinearParam(None, None);
    zeroMax := new LinearParam(Some(-100.0), Some(0.0));
  }
}
