/** The boolean parameter of the class-based engine. The source's class has no state, so its
    two methods are functions here. */
module Bool {

  /** The two booleans sit at the two ends of [0, 1]: true at 1 and false at 0. */
  function Normalize(value: bool): (r: real)
    ensures r == 1.0 <==> value
    ensures r == 0.0 <==> !value
  {
    if value then 1.0 else 0.0
  }

  /** A position denormalizes to true exactly when it lies strictly beyond the midpoint of the
      positions of false and true. */
  function Denormalize(position: real): (b: bool)
    ensures b <==> position > (Normalize(false) + Normalize(true)) / 2.0
  {
    position > 0.5
  }

  /** The threshold is strict: one half itself is false, and any position above it is true. */
  lemma DenormalizeThreshold(position: real)
    ensures Denormalize(position) <==> position > 0.5
    ensures !Denormalize(0.5) && !Denormalize(0.49) && Denormalize(0.51)
  {
  }

  /** Denormalize undoes Normalize. */
  lemma RoundTrip(value: bool)
    ensures Denormalize(Normalize(value)) == value
  {
  }

  /** Normalize undoes Denormalize on the two ends: a position snaps to the end it is nearer,
      one half going to 0. */
  lemma SnapsToNearestEnd(position: real)
    ensures position <= 0.5 ==> Normalize(Denormalize(position)) == 0.0
    ensures position > 0.5 ==> Normalize(Denormalize(position)) == 1.0
  {
  }
}
