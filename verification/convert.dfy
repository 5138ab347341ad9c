/** Unit conversion shared by the driver copies: raw counts divided by the
    active scale modifier, optionally times standard gravity, and the
    temperature formula. Arithmetic is on exact reals. */
module Convert {
  import opened Sensor
  import opened Word

  /** `count / modifier`: the physical value whose `modifier`-fold is the
      raw count. */
  function Scale(count: int, modifier: real): (v: real)
    requires modifier > 0.0
    ensures v * modifier == count as real
  {
    count as real / modifier
  }

  /** `v` is the triple `c` converted at `modifier` counts per unit: each
      axis times the modifier equals its count times `factor`. Given a
      positive modifier this determines `v`. */
  predicate ScaledFrom(v: Vec3, c: Counts, modifier: real, factor: real)
  {
    && v.x * modifier == c.x as real * factor
    && v.y * modifier == c.y as real * factor
    && v.z * modifier == c.z as real * factor
  }

  /** 1 for g units, GRAVITIY_MS2 for m/s^2. */
  function UnitFactor(inG: bool): real
  {
    if inG then 1.0 else GRAVITY
  }

  /** Accelerometer counts to g (`g=True`) or to m/s^2 (`g=False`, each axis
      further multiplied by GRAVITIY_MS2). */
  function AccelUnits(c: Counts, modifier: real, inG: bool): (v: Vec3)
    requires modifier > 0.0
    ensures ScaledFrom(v, c, modifier, UnitFactor(inG))
  {
    var x := Scale(c.x, modifier);
    var y := Scale(c.y, modifier);
    var z := Scale(c.z, modifier);
    if inG then Vec3(x, y, z) else Vec3(x * GRAVITY, y * GRAVITY, z * GRAVITY)
  }

  /** Gyroscope counts to deg/s, all three axes by the same modifier. */
  function GyroUnits(c: Counts, modifier: real): (v: Vec3)
    requires modifier > 0.0
    ensures ScaledFrom(v, c, modifier, 1.0)
  {
    Vec3(Scale(c.x, modifier), Scale(c.y, modifier), Scale(c.z, modifier))
  }

  const TEMP_SENSITIVITY: real := 340.0
  const TEMP_OFFSET: real := 36.53

  /** Celsius back to the raw word: the inverse of TempCelsius. */
  function RawOfCelsius(t: real): real
  {
    (t - TEMP_OFFSET) * TEMP_SENSITIVITY
  }

  /** `raw_temp / 340.0 + 36.53` degrees Celsius. Over the whole signed
      16-bit input range it stays within [-59.85, 132.91]. */
  function TempCelsius(raw: int): (t: real)
    ensures RawOfCelsius(t) == raw as real
    ensures IsInt16(raw) ==> -59.85 <= t <= 132.91
  {
    raw as real / TEMP_SENSITIVITY + TEMP_OFFSET
  }

  /** A count of 16384 at the 2G modifier is 1.0 g ... */
  lemma ScaleExampleG()
    ensures AccelUnits(Counts(0, 0, 16384), 16384.0, true) == Vec3(0.0, 0.0, 1.0)
  {
    assert Scale(16384, 16384.0) == 1.0;
    assert Scale(0, 16384.0) == 0.0;
  }

  /** ... which is 9.80665 m/s^2. */
  lemma ScaleExampleMs2()
    ensures AccelUnits(Counts(0, 0, 16384), 16384.0, false) == Vec3(0.0, 0.0, GRAVITY)
  {
    assert Scale(16384, 16384.0) == 1.0;
    assert Scale(0, 16384.0) == 0.0;
  }
}
