/** The `clamp` helper imported from `$lib/helpers/clamp.js` by the enum parameter and the arc
    code. Its source is not part of this model; it is taken to be min(max(v, lo), hi). */
module Clamping {

  function Max(a: real, b: real): real { if a >= b then a else b }

  function Min(a: real, b: real): real { if a <= b then a else b }

  /** Clamp `v` into [lo, hi]. */
  function Clamp(v: real, lo: real, hi: real): (r: real)
    ensures lo <= hi ==> lo <= r <= hi
    ensures lo <= v <= hi ==> r == v
    ensures lo <= hi && v <= lo ==> r == lo
    ensures hi <= v ==> r == hi
  {
    Min(Max(v, lo), hi)
  }

  /** Clamping into a non-empty interval is monotone. */
  lemma ClampMonotone(v: real, w: real, lo: real, hi: real)
    requires lo <= hi && v <= w
    ensures Clamp(v, lo, hi) <= Clamp(w, lo, hi)
  {
  }
}
