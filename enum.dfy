/** The enum parameter of the class-based engine. The constructor fills a dictionary from
    variant to index, in which a later duplicate overwrites an earlier one. Denormalizing is
    lenient: the position is clamped into [0, 1] first. */
module Enum {
  import opened Results
  import opened Clamping
  import opened Affine

  /** The dictionary the constructor's loop builds from `s`: each variant maps to the index of
      its last occurrence. */
  function LastIndexDictionary(s: seq<string>): (d: map<string, int>)
    ensures forall v :: v in d <==> v in s
    ensures forall v :: v in d ==> 0 <= d[v] < |s| && s[d[v]] == v
    ensures forall v :: v in d ==> forall j :: d[v] < j < |s| ==> s[j] != v
  {
    if s == [] then map[]
    else LastIndexDictionary(s[..|s| - 1])[s[|s| - 1] := |s| - 1]
  }

  /** No variant occurs twice. */
  predicate Distinct(s: seq<string>) {
    forall i, j :: 0 <= i < j < |s| ==> s[i] != s[j]
  }

  /** The index `denormalize` reads: floor(clamp(position, 0, 1) * (size - 1)). */
  function ClampedIndex(position: real, size: int): int {
    (Clamp(position, 0.0, 1.0) * (size - 1) as real).Floor
  }

  /** With at least one variant the clamped index lies in [0, size - 1]; with none it is not a
      valid index. */
  lemma {:induction false} ClampedIndexBounds(position: real, size: int)
    requires size >= 0
    ensures size >= 1 ==> 0 <= ClampedIndex(position, size) <= size - 1
    ensures size == 0 ==> ClampedIndex(position, size) < 1
  {
    var c := Clamp(position, 0.0, 1.0);
    var x := c * (size - 1) as real;
    if size >= 1 {
      PointWithin(c, 0.0, (size - 1) as real);
      assert x == Point(c, 0.0, (size - 1) as real);
    } else {
      assert x <= 0.0;
    }
  }

  /** Positions at or below 0 select the first index, at or above 1 the last. */
  lemma {:induction false} ClampedIndexEnds(position: real, size: int)
    requires size >= 1
    ensures position <= 0.0 ==> ClampedIndex(position, size) == 0
    ensures position >= 1.0 ==> ClampedIndex(position, size) == size - 1
  {
    assert 1.0 * (size - 1) as real == (size - 1) as real;
  }

  /** Index k of n sits at a position in [0, 1] that selects k again. */
  lemma {:induction false} ClampedIndexOfPosition(k: int, n: int)
    requires n >= 2 && 0 <= k < n
    ensures 0.0 <= k as real / (n - 1) as real <= 1.0
    ensures ClampedIndex(k as real / (n - 1) as real, n) == k
  {
    var d := (n - 1) as real;
    assert (k as real / d) * d == k as real;
    assert k as real / d <= d / d;
  }

  class EnumParam {
    var variants: seq<string>
    var dictionary: map<string, int>
    var dictSize: int

    /** The constructor's postcondition, kept by every other member. */
    predicate Valid()
      reads this
    {
      dictSize == |variants| && dictionary == LastIndexDictionary(variants)
    }

    constructor (vs: seq<string>)
      ensures Valid() && variants == vs
    {
      variants := vs;
      dictionary := map[];
      dictSize := |vs|;
      new;
      for i := 0 to |vs|
        invariant variants == vs && dictSize == |vs|
        invariant dictionary == LastIndexDictionary(vs[..i])
      {
        assert vs[..i + 1][..i] == vs[..i];
        dictionary := dictionary[vs[i] := i];
      }
      assert vs[..|vs|] == vs;
    }

    /** Position of `value` through the dictionary; an error when it is no variant. A member
        of a single-variant enum divides by zero in the source and is excluded. */
    function Normalize(value: string): (r: Result<real>)
      reads this
      requires Valid() && (dictSize != 1 || value !in variants)
      ensures r.Ok? <==> value in variants
      ensures r.Err? ==> r.error == InvalidVariant(value)
      ensures r.Ok? ==> 0.0 <= r.value <= 1.0
    {
      if value !in dictionary then Err(InvalidVariant(value))
      else
        ClampedIndexOfPosition(dictionary[value], dictSize);
        Ok(dictionary[value] as real / (dictSize - 1) as real)
    }

    /** The variant at the clamped position; `None` stands for `undefined`, which only an enum
        without variants yields. */
    function Denormalize(position: real): (r: Option<string>)
      reads this
      requires Valid()
      ensures r.Some? ==> r.value in variants
    {
      var index := ClampedIndex(position, dictSize);
      if 0 <= index < |variants| then Some(variants[index]) else None
    }

    /** The position of every variant, in order. */
    function SnapPoints(): (r: seq<real>)
      reads this
      requires Valid() && dictSize != 1
      ensures |r| == |variants|
      ensures forall i :: 0 <= i < |r| ==> 0.0 <= r[i] <= 1.0
    {
      seq(|variants|, i reads this requires 0 <= i < |variants| && Valid() && dictSize != 1
                         => Normalize(variants[i]).value)
    }

    /** The distance between neighbouring positions. */
    function SnapThreshold(): (r: real)
      reads this
      requires |variants| != 1
      ensures |variants| >= 2 ==> 0.0 < r <= 1.0
    {
      1.0 / (|variants| - 1) as real
    }
  }

  /** The variant at index i normalizes to the position of its last occurrence, which for
      distinct variants is i / (n - 1). */
  lemma {:induction false} NormalizeIndex(p: EnumParam, i: int)
    requires p.Valid() && |p.variants| >= 2 && 0 <= i < |p.variants|
    ensures var k := p.dictionary[p.variants[i]];
      && i <= k < |p.variants| && p.variants[k] == p.variants[i]
      && (forall j :: k < j < |p.variants| ==> p.variants[j] != p.variants[i])
      && p.Normalize(p.variants[i]) == Ok(k as real / (|p.variants| - 1) as real)
    ensures Distinct(p.variants) ==> p.Normalize(p.variants[i]) == Ok(i as real / (|p.variants| - 1) as real)
  {
    var v, n := p.variants[i], |p.variants|;
    var k := p.dictionary[v];
    assert p.Normalize(v) == Ok(k as real / (n - 1) as real);
    assert p.variants[k] == v;
    assert forall j :: k < j < n ==> p.variants[j] != v;
    assert i <= k;
    if Distinct(p.variants) {
      DistinctIndex(p, i);
    }
  }

  /** With distinct variants the dictionary maps each variant to its own index. */
  lemma {:induction false} DistinctIndex(p: EnumParam, i: int)
    requires p.Valid() && Distinct(p.variants) && 0 <= i < |p.variants|
    ensures p.dictionary[p.variants[i]] == i
  {
    var k := p.dictionary[p.variants[i]];
    assert p.variants[k] == p.variants[i];
  }

  /** A string that is no variant is rejected. */
  lemma NormalizeRejects(p: EnumParam, value: string)
    requires p.Valid() && value !in p.variants
    ensures p.Normalize(value) == Err(InvalidVariant(value))
  {
  }

  /** With at least one variant the clamped index stays within [0, n - 1], so Denormalize always
      yields a variant; without variants it yields `undefined`. */
  lemma {:induction false} DenormalizeInBounds(p: EnumParam, position: real)
    requires p.Valid()
    ensures p.Denormalize(position).Some? <==> |p.variants| >= 1
    ensures |p.variants| >= 1 ==> p.Denormalize(position) == Some(p.variants[ClampedIndex(position, |p.variants|)])
  {
    ClampedIndexBounds(position, |p.variants|);
  }

  /** Denormalize never fails on out-of-range input: at or below 0 it gives the first variant,
      at or above 1 the last. */
  lemma {:induction false} DenormalizeClamps(p: EnumParam, position: real)
    requires p.Valid() && |p.variants| >= 1
    ensures position <= 0.0 ==> p.Denormalize(position) == Some(p.variants[0])
    ensures position >= 1.0 ==> p.Denormalize(position) == Some(p.variants[|p.variants| - 1])
  {
    ClampedIndexEnds(position, |p.variants|);
  }

  /** Round trip: every member, duplicated or not, denormalizes back from its position. */
  lemma {:induction false} RoundTrip(p: EnumParam, value: string)
    requires p.Valid() && |p.variants| >= 2 && value in p.variants
    ensures p.Normalize(value).Ok?
    ensures p.Denormalize(p.Normalize(value).value) == Some(value)
  {
    var n := |p.variants|;
    var k := p.dictionary[value];
    var position := k as real / (n - 1) as real;
    assert p.Normalize(value) == Ok(position);
    ClampedIndexOfPosition(k, n);
  }

  /** Consecutive multiples of 1 / d are 1 / d apart. */
  lemma {:induction false} ConsecutiveGap(i: int, d: real)
    requires d > 0.0
    ensures (i + 1) as real / d - i as real / d == 1.0 / d
  {
    assert (i + 1) as real / d == i as real / d + 1.0 / d;
  }

  /** With distinct variants the i-th snap point is i / (n - 1). */
  lemma {:induction false} SnapPointAt(p: EnumParam, i: int)
    requires p.Valid() && |p.variants| >= 2 && Distinct(p.variants) && 0 <= i < |p.variants|
    ensures p.SnapPoints()[i] == i as real / (|p.variants| - 1) as real
  {
    DistinctIndex(p, i);
    assert p.Normalize(p.variants[i]) == Ok(i as real / (|p.variants| - 1) as real);
  }

  /** For distinct variants the snap points are the positions i / (n - 1), one per variant, and
      neighbouring ones are one snap threshold apart. */
  lemma {:induction false} SnapPointsSpaced(p: EnumParam)
    requires p.Valid() && |p.variants| >= 2 && Distinct(p.variants)
    ensures |p.SnapPoints()| == |p.variants|
    ensures forall i :: 0 <= i < |p.variants| ==>
      p.SnapPoints()[i] == i as real / (|p.variants| - 1) as real
    ensures forall i :: 0 <= i < |p.variants| - 1 ==>
      p.SnapPoints()[i + 1] - p.SnapPoints()[i] == p.SnapThreshold()
  {
    var n := |p.variants|;
    var d := (n - 1) as real;
    var points := p.SnapPoints();
    forall i | 0 <= i < n
      ensures points[i] == i as real / d
    {
      SnapPointAt(p, i);
    }
    assert p.SnapThreshold() == 1.0 / d;
    forall i | 0 <= i < n - 1
      ensures points[i + 1] - points[i] == 1.0 / d
    {
      ConsecutiveGap(i, d);
    }
  }

  /** With ["red", "green", "blue"], 0.24 denormalizes to "red" and 0.74 to "green". */
  lemma {:induction false} ColourScenario(p: EnumParam)
    requires p.Valid() && p.variants == ["red", "green", "blue"]
    ensures p.Normalize("red") == Ok(0.0) && p.Normalize("green") == Ok(0.5) && p.Normalize("blue") == Ok(1.0)
    ensures p.Denormalize(0.24) == Some("red") && p.Denormalize(0.74) == Some("green")
    ensures p.Normalize("yellow") == Err(InvalidVariant("yellow"))
  {
    var v := p.variants;
    assert v[0] == "red" && v[1] == "green" && v[2] == "blue";
    assert p.dictionary["red"] == 0 && p.dictionary["green"] == 1 && p.dictionary["blue"] == 2;
    assert "yellow" !in v;
  }
}
