/** The facade of the functional engine: one entry point per operation, dispatching on the kind
    of parameter and checking the runtime type of the value. The parameter union is closed, so
    the source's "Unsupported param type" branches cannot arise. */
module Params {
  import opened Results
  import opened Scale
  import FloatParams
  import EnumParams

  datatype Param = EnumP(enumParam: EnumParams.EnumParam) | FloatP(floatParam: FloatParams.FloatParam)

  /** A value as the facade receives it: a string, a number, or anything else (named by its
      `typeof`). */
  datatype JsValue = JsString(s: string) | JsNumber(n: real) | JsOther(typeName: string)

  /** A value whose `typeof` agrees with its constructor: `JsOther` never claims to be a string
      or a number. */
  predicate WellTyped(value: JsValue) {
    value.JsOther? ==> value.typeName != "string" && value.typeName != "number"
  }

  /** The `typeof` of a value. */
  function TypeOf(value: JsValue): (t: string)
    ensures WellTyped(value) ==> (t == "string" <==> value.JsString?)
    ensures WellTyped(value) ==> (t == "number" <==> value.JsNumber?)
  {
    match value
    case JsString(_) => "string"
    case JsNumber(_) => "number"
    case JsOther(t) => t
  }

  /** What `Normalize` needs to avoid a division by zero in the selected branch. */
  predicate NormalizeDefined(m: MathLib, value: JsValue, param: Param) {
    && WellTyped(value)
    && match param
       case EnumP(e) => value.JsString? ==> |e.variants| != 1 || value.s !in e.variants
       case FloatP(f) => value.JsNumber? ==> FloatParams.NormalizeDefined(m, f)
  }

  /** What `UnnormalizeToNumber` needs in the selected branch: a single-variant enum divides by
      zero for a position in [0, 1], and rejects any other position first. */
  predicate UnnormalizeDefined(m: MathLib, position: real, param: Param) {
    match param
    case EnumP(e) => |e.variants| != 1 || position < 0.0 || position > 1.0
    case FloatP(f) => FloatParams.UnnormalizeDefined(m, f)
  }

  /** Normalize a string for an enum parameter or a number for a float parameter; any other
      combination is a type mismatch. */
  function Normalize(m: MathLib, value: JsValue, param: Param): (r: Result<real>)
    requires NormalizeDefined(m, value, param)
    ensures param.EnumP? && !value.JsString? ==> r == Err(TypeMismatch("string", TypeOf(value)))
    ensures param.FloatP? && !value.JsNumber? ==> r == Err(TypeMismatch("number", TypeOf(value)))
    ensures param.EnumP? && value.JsString? ==> r == EnumParams.Normalize(value.s, param.enumParam)
    ensures param.FloatP? && value.JsNumber? ==> r == Ok(FloatParams.Normalize(m, value.n, param.floatParam))
  {
    match param
    case EnumP(e) =>
      if !value.JsString? then Err(TypeMismatch("string", TypeOf(value)))
      else EnumParams.Normalize(value.s, e)
    case FloatP(f) =>
      if !value.JsNumber? then Err(TypeMismatch("number", TypeOf(value)))
      else Ok(FloatParams.Normalize(m, value.n, f))
  }

  /** Unnormalize to a number: the quantised position for an enum, the value for a float. */
  function UnnormalizeToNumber(m: MathLib, position: real, param: Param): (r: Result<real>)
    requires UnnormalizeDefined(m, position, param)
    ensures param.EnumP? ==> r == EnumParams.UnnormalizeToNumber(position, param.enumParam)
    ensures param.FloatP? ==> r == Ok(FloatParams.Unnormalize(m, position, param.floatParam))
  {
    match param
    case EnumP(e) => EnumParams.UnnormalizeToNumber(position, e)
    case FloatP(f) => Ok(FloatParams.Unnormalize(m, position, f))
  }

  /** Unnormalize to text: the variant for an enum; for a float, the value rendered by
      `toString`, the host's number-to-text conversion. */
  function UnnormalizeToString(m: MathLib, toString: real -> string, position: real, param: Param)
    : (r: Result<string>)
    requires param.FloatP? ==> FloatParams.UnnormalizeDefined(m, param.floatParam)
    ensures param.EnumP? ==> r == EnumParams.UnnormalizeToString(position, param.enumParam)
    ensures param.FloatP? ==> r == Ok(toString(FloatParams.Unnormalize(m, position, param.floatParam)))
  {
    match param
    case EnumP(e) => EnumParams.UnnormalizeToString(position, e)
    case FloatP(f) => Ok(toString(FloatParams.Unnormalize(m, position, f)))
  }

  /** Render a value as text: an enum string is returned as it is (membership is not checked);
      a float is rendered by `toFixed` with the given precision, 2 by default. */
  function Format(toFixed: (real, int) -> string, value: JsValue, param: Param, precision: Option<int>)
    : (r: Result<string>)
    requires WellTyped(value)
    ensures param.EnumP? ==> (r.Ok? <==> value.JsString?)
    ensures param.EnumP? && value.JsString? ==> r == Ok(value.s)
    ensures param.EnumP? && !value.JsString? ==> r == Err(TypeMismatch("string", TypeOf(value)))
    ensures param.FloatP? ==> (r.Ok? <==> value.JsNumber?)
    ensures param.FloatP? && value.JsNumber? && precision.None? ==> r == Ok(toFixed(value.n, 2))
    ensures param.FloatP? && value.JsNumber? && precision.Some? ==> r == Ok(toFixed(value.n, precision.value))
    ensures param.FloatP? && !value.JsNumber? ==> r == Err(TypeMismatch("number", TypeOf(value)))
  {
    match param
    case EnumP(_) =>
      if !value.JsString? then Err(TypeMismatch("string", TypeOf(value)))
      else Ok(value.s)
    case FloatP(_) =>
      if !value.JsNumber? then Err(TypeMismatch("number", TypeOf(value)))
      else Ok(toFixed(value.n, if precision.Some? then precision.value else 2))
  }

  /** Through the facade, an enum variant normalizes and unnormalizes back to itself. */
  lemma {:induction false} EnumRoundTrip(m: MathLib, toString: real -> string, variant: string, param: Param)
    requires param.EnumP? && |param.enumParam.variants| >= 2 && variant in param.enumParam.variants
    ensures Normalize(m, JsString(variant), param).Ok?
    ensures UnnormalizeToString(m, toString, Normalize(m, JsString(variant), param).value, param) == Ok(variant)
  {
    EnumParams.RoundTrip(variant, param.enumParam);
  }

  /** Through the facade, a single-variant enum unnormalizes every position in [0, 1] to its one
      variant, and rejects a position outside it. */
  lemma {:induction false} SingleVariantToString(m: MathLib, toString: real -> string, position: real, param: Param)
    requires param.EnumP? && |param.enumParam.variants| == 1
    ensures 0.0 <= position <= 1.0 ==>
      UnnormalizeToString(m, toString, position, param) == Ok(param.enumParam.variants[0])
    ensures (position < 0.0 || position > 1.0) ==>
      UnnormalizeToString(m, toString, position, param) == Err(RangeViolation(position))
  {
    assert EnumParams.IndexAt(position, 1) == 0 by {
      assert position * (1 - 1) as real == 0.0;
    }
  }

  /** Through the facade, a number on a linear float parameter normalizes and unnormalizes back
      to itself. */
  lemma {:induction false} LinearRoundTrip(m: MathLib, value: real, param: Param)
    requires param.FloatP? && param.floatParam.range.LinearRange?
    requires FloatParams.NormalizeDefined(m, param.floatParam)
    ensures Normalize(m, JsNumber(value), param).Ok?
    ensures UnnormalizeToNumber(m, Normalize(m, JsNumber(value), param).value, param) == Ok(value)
  {
    FloatParams.LinearRoundTrip(m, param.floatParam, value, 0.0);
  }
}
