/** Enum parameters of the functional engine: an ordered list of variants, where the variant at
    index i sits at position i / (n - 1). Unnormalizing is strict: a position outside [0, 1]
    is an error. */
module EnumParams {
  import opened Results
  import opened Affine

  datatype EnumParam = EnumParam(variants: seq<string>)

  /** `createEnumParam` keeps the variants as given, in order. */
  function CreateEnumParam(variants: seq<string>): (p: EnumParam)
    ensures p.variants == variants
  {
    EnumParam(variants)
  }

  /** `findIndex` with strict equality: the first index holding `value`, or -1. */
  function FindIndex(s: seq<string>, value: string): (r: int)
    ensures r == -1 <==> value !in s
    ensures r != -1 ==> 0 <= r < |s| && s[r] == value
    ensures r != -1 ==> forall j :: 0 <= j < r ==> s[j] != value
  {
    if s == [] then -1
    else if s[0] == value then 0
    else
      var k := FindIndex(s[1..], value);
      if k == -1 then -1 else k + 1
  }

  /** Position of `value`: i / (n - 1) for its first index i; an error when it is no variant.
      A member of a single-variant enum divides by zero in the source and is excluded. */
  function Normalize(value: string, p: EnumParam): (r: Result<real>)
    requires |p.variants| != 1 || value !in p.variants
    ensures r.Ok? <==> value in p.variants
    ensures r.Err? ==> r.error == InvalidVariant(value)
    ensures r.Ok? ==> 0.0 <= r.value <= 1.0
  {
    var index := FindIndex(p.variants, value);
    if index == -1 then Err(InvalidVariant(value))
    else
      IndexPositionInUnit(index, |p.variants|);
      Ok(index as real / (|p.variants| - 1) as real)
  }

  /** The position i / (n - 1) of an index lies in [0, 1]. */
  lemma {:induction false} IndexPositionInUnit(i: int, n: int)
    requires n >= 2 && 0 <= i < n
    ensures 0.0 <= i as real / (n - 1) as real <= 1.0
  {
    var d := (n - 1) as real;
    assert i as real <= d;
    assert i as real / d <= d / d;
  }

  /** The index a position in [0, 1] selects: floor(position * (n - 1)). */
  function IndexAt(position: real, n: int): int {
    (position * (n - 1) as real).Floor
  }

  /** Quantise `position` to the position of the variant it selects. */
  function UnnormalizeToNumber(position: real, p: EnumParam): (r: Result<real>)
    requires |p.variants| != 1 || position < 0.0 || position > 1.0
    ensures (position < 0.0 || position > 1.0) ==> r == Err(RangeViolation(position))
    ensures r.Ok? ==> 0.0 <= r.value <= 1.0
  {
    if position < 0.0 || position > 1.0 then Err(RangeViolation(position))
    else
      var n := |p.variants|;
      var index := IndexAt(position, n);
      if !(0 <= index < n) then Err(VariantUndefined(position))
      else
        IndexPositionInUnit(index, n);
        Ok(index as real / (n - 1) as real)
  }

  /** The variant that `position` selects. */
  function UnnormalizeToString(position: real, p: EnumParam): (r: Result<string>)
    ensures (position < 0.0 || position > 1.0) ==> r == Err(RangeViolation(position))
    ensures r.Ok? ==> r.value in p.variants
  {
    if position < 0.0 || position > 1.0 then Err(RangeViolation(position))
    else
      var index := IndexAt(position, |p.variants|);
      if !(0 <= index < |p.variants|) then Err(VariantUndefined(position))
      else Ok(p.variants[index])
  }

  /** `Normalize` succeeds exactly on the variants, and then gives the position of the first
      index holding the value. */
  lemma NormalizeFirstIndex(value: string, p: EnumParam)
    requires |p.variants| != 1 || value !in p.variants
    ensures Normalize(value, p).Err? <==> value !in p.variants
    ensures value !in p.variants ==> Normalize(value, p) == Err(InvalidVariant(value))
    ensures value in p.variants ==>
      exists i :: 0 <= i < |p.variants| && p.variants[i] == value
        && (forall j :: 0 <= j < i ==> p.variants[j] != value)
        && Normalize(value, p) == Ok(i as real / (|p.variants| - 1) as real)
  {
    if value in p.variants {
      var i := FindIndex(p.variants, value);
      assert 0 <= i < |p.variants| && p.variants[i] == value;
    }
  }

  /** Both unnormalize functions reject exactly the positions outside [0, 1], whatever the
      number of variants. */
  lemma UnnormalizeStrict(position: real, p: EnumParam)
    ensures (position < 0.0 || position > 1.0) ==>
              UnnormalizeToNumber(position, p) == Err(RangeViolation(position))
    ensures |p.variants| != 1 ==>
              ((UnnormalizeToNumber(position, p) == Err(RangeViolation(position)))
               == (position < 0.0 || position > 1.0))
    ensures (UnnormalizeToString(position, p) == Err(RangeViolation(position)))
            == (position < 0.0 || position > 1.0)
  {
  }

  /** For a position in [0, 1] and at least one variant the selected index is in bounds, so the
      "variant undefined" error cannot occur. */
  lemma {:induction false} IndexInBounds(position: real, n: int)
    requires 0.0 <= position <= 1.0 && n >= 1
    ensures 0 <= IndexAt(position, n) <= n - 1
  {
    var d := (n - 1) as real;
    PointWithin(position, 0.0, d);
    assert position * d == Point(position, 0.0, d);
  }

  /** With at least one variant, every position in [0, 1] unnormalizes without error. */
  lemma {:induction false} UnnormalizeTotalOnUnitInterval(position: real, p: EnumParam)
    requires 0.0 <= position <= 1.0 && |p.variants| >= 1
    ensures UnnormalizeToString(position, p).Ok?
    ensures |p.variants| >= 2 ==> UnnormalizeToNumber(position, p).Ok?
  {
    IndexInBounds(position, |p.variants|);
  }

  /** Position 0 gives the first variant and position 1 the last. */
  lemma {:induction false} UnnormalizeEndpoints(p: EnumParam)
    requires |p.variants| >= 1
    ensures UnnormalizeToString(0.0, p) == Ok(p.variants[0])
    ensures UnnormalizeToString(1.0, p) == Ok(p.variants[|p.variants| - 1])
  {
    var n := |p.variants|;
    assert IndexAt(0.0, n) == 0;
    assert IndexAt(1.0, n) == n - 1 by {
      assert 1.0 * (n - 1) as real == (n - 1) as real;
    }
  }

  /** The variant at index i is selected by position i / (n - 1). */
  lemma {:induction false} IndexAtPositionOf(i: int, n: int)
    requires n >= 2 && 0 <= i < n
    ensures IndexAt(i as real / (n - 1) as real, n) == i
  {
    var d := (n - 1) as real;
    assert (i as real / d) * d == i as real;
  }

  /** Round trip: every member, duplicated or not, unnormalizes back from its position. */
  lemma {:induction false} RoundTrip(value: string, p: EnumParam)
    requires |p.variants| >= 2 && value in p.variants
    ensures Normalize(value, p).Ok?
    ensures UnnormalizeToString(Normalize(value, p).value, p) == Ok(value)
  {
    var n := |p.variants|;
    var i := FindIndex(p.variants, value);
    var position := i as real / (n - 1) as real;
    assert Normalize(value, p) == Ok(position);
    IndexAtPositionOf(i, n);
    assert 0.0 <= position <= 1.0 by {
      assert 0.0 <= i as real <= (n - 1) as real;
    }
  }

  /** Dividing both sides of a <= b * d by a positive d. */
  lemma {:induction false} QuotientBelow(a: real, b: real, d: real)
    requires d > 0.0 && a <= b * d
    ensures a / d <= b
  {
    assert b - a / d == (b * d - a) / d;
  }

  lemma BelowReciprocal(r: real, d: real)
    requires d > 0.0 && r < 1.0
    ensures r / d < 1.0 / d
  {
    assert 1.0 / d - r / d == (1.0 - r) / d;
  }

  /** `UnnormalizeToNumber` quantises: the result is the position of the selected index, lies
      in [0, position] and less than one step 1 / (n - 1) below it, and is a fixed point. */
  lemma {:induction false} Quantisation(position: real, p: EnumParam)
    requires |p.variants| >= 2 && 0.0 <= position <= 1.0
    ensures UnnormalizeToNumber(position, p).Ok?
    ensures var q := UnnormalizeToNumber(position, p).value;
      && q * (|p.variants| - 1) as real == IndexAt(position, |p.variants|) as real
      && 0.0 <= q <= position
      && position - q < 1.0 / (|p.variants| - 1) as real
      && UnnormalizeToNumber(q, p) == Ok(q)
  {
    var n := |p.variants|;
    var d := (n - 1) as real;
    var k := IndexAt(position, n);
    IndexInBounds(position, n);
    var q := k as real / d;
    assert UnnormalizeToNumber(position, p) == Ok(q);
    assert q * d == k as real;
    assert k as real <= position * d < k as real + 1.0;
    QuotientBelow(k as real, position, d);
    assert position - q < 1.0 / d by {
      var r := position * d - k as real;
      assert position - q == r / d;
      BelowReciprocal(r, d);
    }
    assert 0.0 <= q <= 1.0 by {
      assert 0.0 <= k as real <= d;
    }
    IndexAtPositionOf(k, n);
  }
}
