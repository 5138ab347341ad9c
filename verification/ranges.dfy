/** The range tables: each accelerometer range (2/4/8/16 G) and gyroscope
    range (250/500/1000/2000 deg/s) has a config-register code and a scale
    modifier (LSB per g, or per deg/s). The codes 0x00, 0x08, 0x10, 0x18
    are the same for both sensors. */
module Ranges {
  import opened Sensor

  datatype AccelRange = Accel2G | Accel4G | Accel8G | Accel16G
  datatype GyroRange = Gyro250 | Gyro500 | Gyro1000 | Gyro2000

  /** The value `read_*_range(raw=False)` returns for an unknown code or a
      failed register read. */
  const UNKNOWN_RANGE: int := -1

  /** The register codes the tables use. */
  predicate IsRangeCode(code: int)
  {
    code == 0x00 || code == 0x08 || code == 0x10 || code == 0x18
  }

  // ---------------------------------------------------------------- accel

  /** ACCEL_RANGE_2G .. ACCEL_RANGE_16G */
  function AccelCode(r: AccelRange): Byte
  {
    match r
    case Accel2G => 0x00
    case Accel4G => 0x08
    case Accel8G => 0x10
    case Accel16G => 0x18
  }

  /** Full scale in G, the value `read_accel_range()` reports. */
  function AccelFullScale(r: AccelRange): int
  {
    match r
    case Accel2G => 2
    case Accel4G => 4
    case Accel8G => 8
    case Accel16G => 16
  }

  /** ACCEL_SCALE_MODIFIER_*: counts per g. Full scale is always 2^15
      counts. */
  function AccelModifier(r: AccelRange): (m: real)
    ensures m > 0.0
    ensures m * (AccelFullScale(r) as real) == 32768.0
  {
    match r
    case Accel2G => 16384.0
    case Accel4G => 8192.0
    case Accel8G => 4096.0
    case Accel16G => 2048.0
  }

  /** The inverse of AccelCode; None for any byte outside the table. */
  function AccelOfCode(code: int): (r: Option<AccelRange>)
    ensures r.Some? ==> AccelCode(r.value) == code
    ensures r.None? <==> !IsRangeCode(code)
  {
    if code == 0x00 then Some(Accel2G)
    else if code == 0x08 then Some(Accel4G)
    else if code == 0x10 then Some(Accel8G)
    else if code == 0x18 then Some(Accel16G)
    else None
  }

  /** The inverse of AccelFullScale; None for anything but 2, 4, 8, 16. */
  function AccelOfFullScale(g: int): (r: Option<AccelRange>)
    ensures r.Some? ==> AccelFullScale(r.value) == g
    ensures r.None? <==> g !in {2, 4, 8, 16}
  {
    if g == 2 then Some(Accel2G)
    else if g == 4 then Some(Accel4G)
    else if g == 8 then Some(Accel8G)
    else if g == 16 then Some(Accel16G)
    else None
  }

  /** `read_accel_range(raw=False)` applied to a register byte: the full
      scale of the range the byte encodes, or -1 for an unknown byte. */
  function DecodeAccelRange(code: int): (g: int)
    ensures g == UNKNOWN_RANGE <==> !IsRangeCode(code)
    ensures g != UNKNOWN_RANGE ==>
              AccelOfFullScale(g).Some? && AccelCode(AccelOfFullScale(g).value) == code
  {
    match AccelOfCode(code)
    case Some(r) => AccelFullScale(r)
    case None => UNKNOWN_RANGE
  }

  /** Scale-modifier selection in `get_accel_data` of mpu6050_plot_2.py and
      mpu6050_recorder.py: the modifier of the range the code encodes, and
      the 2G modifier for any other value, including the -1 read-failure
      sentinel. */
  function AccelModifierOrDefault(code: int): (m: real)
    ensures m > 0.0
    ensures IsRangeCode(code) ==>
              exists r: AccelRange :: AccelCode(r) == code && m == AccelModifier(r)
    ensures !IsRangeCode(code) ==> m == 16384.0
  {
    match AccelOfCode(code)
    case Some(r) => AccelModifier(r)
    case None => AccelModifier(Accel2G)
  }

  /** The code table is a bijection between ranges and the four codes. */
  lemma AccelCodeRoundTrip(r: AccelRange, code: int)
    ensures AccelOfCode(AccelCode(r)) == Some(r)
    ensures AccelOfCode(code).Some? ==> AccelCode(AccelOfCode(code).value) == code
    ensures IsRangeCode(AccelCode(r))
  {
  }

  // ----------------------------------------------------------------- gyro

  /** GYRO_RANGE_250DEG .. GYRO_RANGE_2000DEG */
  function GyroCode(r: GyroRange): Byte
  {
    match r
    case Gyro250 => 0x00
    case Gyro500 => 0x08
    case Gyro1000 => 0x10
    case Gyro2000 => 0x18
  }

  /** Full scale in deg/s, the value `read_gyro_range()` reports. */
  function GyroFullScale(r: GyroRange): int
  {
    match r
    case Gyro250 => 250
    case Gyro500 => 500
    case Gyro1000 => 1000
    case Gyro2000 => 2000
  }

  /** GYRO_SCALE_MODIFIER_*: counts per deg/s. Full scale lies between
      32750 and 32800 counts, just under 2^15. */
  function GyroModifier(r: GyroRange): (m: real)
    ensures m > 0.0
    ensures 32750.0 <= m * (GyroFullScale(r) as real) <= 32800.0
  {
    match r
    case Gyro250 => 131.0
    case Gyro500 => 65.5
    case Gyro1000 => 32.8
    case Gyro2000 => 16.4
  }

  /** The inverse of GyroCode; None for any byte outside the table. */
  function GyroOfCode(code: int): (r: Option<GyroRange>)
    ensures r.Some? ==> GyroCode(r.value) == code
    ensures r.None? <==> !IsRangeCode(code)
  {
    if code == 0x00 then Some(Gyro250)
    else if code == 0x08 then Some(Gyro500)
    else if code == 0x10 then Some(Gyro1000)
    else if code == 0x18 then Some(Gyro2000)
    else None
  }

  /** The inverse of GyroFullScale; None for anything but 250, 500, 1000,
      2000. */
  function GyroOfFullScale(dps: int): (r: Option<GyroRange>)
    ensures r.Some? ==> GyroFullScale(r.value) == dps
    ensures r.None? <==> dps !in {250, 500, 1000, 2000}
  {
    if dps == 250 then Some(Gyro250)
    else if dps == 500 then Some(Gyro500)
    else if dps == 1000 then Some(Gyro1000)
    else if dps == 2000 then Some(Gyro2000)
    else None
  }

  /** `read_gyro_range(raw=False)` applied to a register byte. */
  function DecodeGyroRange(code: int): (dps: int)
    ensures dps == UNKNOWN_RANGE <==> !IsRangeCode(code)
    ensures dps != UNKNOWN_RANGE ==>
              GyroOfFullScale(dps).Some? && GyroCode(GyroOfFullScale(dps).value) == code
  {
    match GyroOfCode(code)
    case Some(r) => GyroFullScale(r)
    case None => UNKNOWN_RANGE
  }

  /** Scale-modifier selection in `get_gyro_data`: the modifier of the
      encoded range, and the 250 deg/s modifier for any other value. Never
      zero, so the recorder's zero-modifier guard cannot fire. */
  function GyroModifierOrDefault(code: int): (m: real)
    ensures m > 0.0
    ensures IsRangeCode(code) ==>
              exists r: GyroRange :: GyroCode(r) == code && m == GyroModifier(r)
    ensures !IsRangeCode(code) ==> m == 131.0
  {
    match GyroOfCode(code)
    case Some(r) => GyroModifier(r)
    case None => GyroModifier(Gyro250)
  }

  lemma GyroCodeRoundTrip(r: GyroRange, code: int)
    ensures GyroOfCode(GyroCode(r)) == Some(r)
    ensures GyroOfCode(code).Some? ==> GyroCode(GyroOfCode(code).value) == code
    ensures IsRangeCode(GyroCode(r))
  {
  }
}
