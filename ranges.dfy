/** Ranges of the functional engine: a linear [min, max] or a logarithmic [min, max] with a base. */
module Ranges {
  import opened Results

  /** The range kinds `'lin'` and `'log'`. The type is closed, so the source's "RangeType does
      not exist" error cannot arise. */
  datatype RangeType = LinType | LogType

  datatype Range =
    | LinearRange(min: real, max: real)
    | LogRange(min: real, max: real, base: real)

  /** The base a logarithmic range gets when none is given. */
  const DefaultLogBase: real := 10.0

  /** Build a range of the given kind; `base` is only read for a logarithmic range, and an
      absent base becomes 10. */
  function CreateRange(kind: RangeType, min: real, max: real, base: Option<real>): (r: Range)
    ensures r.min == min && r.max == max
    ensures r.LinearRange? <==> kind == LinType
    ensures r.LogRange? && base.None? ==> r.base == DefaultLogBase
    ensures r.LogRange? && base.Some? ==> r.base == base.value
  {
    match kind
    case LinType => LinearRange(min, max)
    case LogType => LogRange(min, max, if base.Some? then base.value else DefaultLogBase)
  }
}
