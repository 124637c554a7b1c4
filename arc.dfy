/** The angle arithmetic of the knob's arc: a value clamped into [0, 1] mapped onto
    [minAngle, maxAngle], and SVG's large-arc flag for the swept angle. */
module Arc {
  import opened Clamping
  import opened Affine

  /** The angle of the knob's end point for `value`. */
  function ValueToAngle(value: real, minAngle: real, maxAngle: real): (angle: real)
    ensures value <= 0.0 ==> angle == minAngle
    ensures value >= 1.0 ==> angle == maxAngle
  {
    (maxAngle - minAngle) * Clamp(value, 0.0, 1.0) + minAngle
  }

  /** The large-arc flag of the arc from `minAngle` to the value's angle: '1' when it sweeps
      more than 180 degrees. */
  function LargeArcFlag(value: real, minAngle: real, maxAngle: real): (flag: char)
    ensures flag == '0' || flag == '1'
  {
    var endAngle := ValueToAngle(value, minAngle, maxAngle);
    if endAngle - minAngle <= 180.0 then '0' else '1'
  }

  /** The angle is the point at the clamped value between the two angles. */
  lemma {:induction false} ValueToAngleIsPoint(value: real, minAngle: real, maxAngle: real)
    ensures ValueToAngle(value, minAngle, maxAngle) == Point(Clamp(value, 0.0, 1.0), minAngle, maxAngle)
  {
    var c := Clamp(value, 0.0, 1.0);
    assert (maxAngle - minAngle) * c == c * (maxAngle - minAngle);
  }

  /** On an ascending arc every value lands within [minAngle, maxAngle]. */
  lemma {:induction false} ValueToAngleBounded(value: real, minAngle: real, maxAngle: real)
    requires minAngle <= maxAngle
    ensures minAngle <= ValueToAngle(value, minAngle, maxAngle) <= maxAngle
  {
    ValueToAngleIsPoint(value, minAngle, maxAngle);
    PointWithin(Clamp(value, 0.0, 1.0), minAngle, maxAngle);
  }

  /** On an ascending arc the angle is non-decreasing in the value. */
  lemma {:induction false} ValueToAngleMonotone(a: real, b: real, minAngle: real, maxAngle: real)
    requires minAngle <= maxAngle && a <= b
    ensures ValueToAngle(a, minAngle, maxAngle) <= ValueToAngle(b, minAngle, maxAngle)
  {
    ClampMonotone(a, b, 0.0, 1.0);
    ValueToAngleIsPoint(a, minAngle, maxAngle);
    ValueToAngleIsPoint(b, minAngle, maxAngle);
    PointMonotone(Clamp(a, 0.0, 1.0), Clamp(b, 0.0, 1.0), minAngle, maxAngle);
  }

  /** The flag is '1' exactly when the swept angle (maxAngle - minAngle) * clamp(value)
      exceeds 180 degrees. */
  lemma {:induction false} LargeArcFlagSweep(value: real, minAngle: real, maxAngle: real)
    ensures (LargeArcFlag(value, minAngle, maxAngle) == '1')
            == ((maxAngle - minAngle) * Clamp(value, 0.0, 1.0) > 180.0)
  {
    var c := Clamp(value, 0.0, 1.0);
    var angle := ValueToAngle(value, minAngle, maxAngle);
    assert angle == (maxAngle - minAngle) * c + minAngle;
  }

  /** An ascending arc spanning at most 180 degrees never sets the flag. */
  lemma {:induction false} LargeArcFlagShortArc(value: real, minAngle: real, maxAngle: real)
    requires minAngle <= maxAngle <= minAngle + 180.0
    ensures LargeArcFlag(value, minAngle, maxAngle) == '0'
  {
    ValueToAngleBounded(value, minAngle, maxAngle);
  }

  /** A full sweep of more than 180 degrees always sets the flag. */
  lemma {:induction false} LargeArcFlagFullSweep(value: real, minAngle: real, maxAngle: real)
    requires value >= 1.0 && maxAngle - minAngle > 180.0
    ensures LargeArcFlag(value, minAngle, maxAngle) == '1'
  {
    assert ValueToAngle(value, minAngle, maxAngle) == maxAngle;
  }
}
