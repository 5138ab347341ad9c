/** The `mpu6050` class of mpu6050_plot_2.py: word reads raise on a bus
    error, the range registers are re-read before every conversion, an
    unknown range code falls back to 2G / 250 deg/s with a warning, and the
    gyro Z axis is returned unscaled. */
module PlotDriver {
  import opened Sensor
  import opened I2c
  import opened Word
  import opened Ranges
  import opened Convert
  import opened Config

  /** A converted triple and whether the "Unknown ... range configured"
      warning was printed for it. */
  datatype Scaled = Scaled(v: Vec3, rangeWarning: bool)

  /** What `get_all_data` returns: the accel reading (None when its word
      reads failed), the gyro reading and the temperature. */
  datatype AllData = AllData(accel: Option<Scaled>, gyro: Scaled, temp: real)

  /** `__init__`: wakes the device by writing 0 to PWR_MGMT_1. A failed write
      is printed and swallowed; the driver is constructed either way. */
  function Init(bus: Bus): (b: Bus)
    ensures PWR_MGMT_1 in bus.writeFaults ==> b == bus
    ensures PWR_MGMT_1 !in bus.writeFaults ==>
              b.regs == bus.regs[PWR_MGMT_1 := 0x00]
              && b.writes == bus.writes + [Write(PWR_MGMT_1, 0x00)]
    ensures b.readFaults == bus.readFaults && b.writeFaults == bus.writeFaults
  {
    WriteOrKeep(bus, PWR_MGMT_1, 0x00)
  }

  /** `set_accel_range`: writes 0x00 and then the code to ACCEL_CONFIG. On
      success the register ends equal to the code; a failed write is
      swallowed and leaves the register map as it was. */
  function SetAccelRange(bus: Bus, code: Byte): (b: Bus)
    ensures ACCEL_CONFIG in bus.writeFaults ==> b == bus
    ensures ACCEL_CONFIG !in bus.writeFaults ==>
              b.regs == bus.regs[ACCEL_CONFIG := code]
              && b.writes == bus.writes + [Write(ACCEL_CONFIG, 0x00), Write(ACCEL_CONFIG, code)]
    ensures b.readFaults == bus.readFaults && b.writeFaults == bus.writeFaults
  {
    match WriteByte(bus, ACCEL_CONFIG, 0x00)
    case IoError => bus
    case Ok(cleared) =>
      match WriteByte(cleared, ACCEL_CONFIG, code)
      case IoError => cleared
      case Ok(written) => written
  }

  /** `set_gyro_range`: the same two writes to GYRO_CONFIG. */
  function SetGyroRange(bus: Bus, code: Byte): (b: Bus)
    ensures GYRO_CONFIG in bus.writeFaults ==> b == bus
    ensures GYRO_CONFIG !in bus.writeFaults ==>
              b.regs == bus.regs[GYRO_CONFIG := code]
              && b.writes == bus.writes + [Write(GYRO_CONFIG, 0x00), Write(GYRO_CONFIG, code)]
    ensures b.readFaults == bus.readFaults && b.writeFaults == bus.writeFaults
  {
    match WriteByte(bus, GYRO_CONFIG, 0x00)
    case IoError => bus
    case Ok(cleared) =>
      match WriteByte(cleared, GYRO_CONFIG, code)
      case IoError => cleared
      case Ok(written) => written
  }

  /** Setting a table range and reading it back gives the range again,
      decoded or raw, whenever ACCEL_CONFIG can be written and read. */
  lemma SetThenReadAccelRange(bus: Bus, r: AccelRange)
    requires ACCEL_CONFIG !in bus.writeFaults && ACCEL_CONFIG !in bus.readFaults
    ensures ReadAccelRange(SetAccelRange(bus, AccelCode(r)), false) == AccelFullScale(r)
    ensures ReadAccelRange(SetAccelRange(bus, AccelCode(r)), true) == AccelCode(r)
  {
  }

  lemma SetThenReadGyroRange(bus: Bus, r: GyroRange)
    requires GYRO_CONFIG !in bus.writeFaults && GYRO_CONFIG !in bus.readFaults
    ensures ReadGyroRange(SetGyroRange(bus, GyroCode(r)), false) == GyroFullScale(r)
    ensures ReadGyroRange(SetGyroRange(bus, GyroCode(r)), true) == GyroCode(r)
  {
  }

  /** `get_accel_data(g)`: None when any of the three axis word reads raises;
      otherwise each axis is its count over the modifier of the freshly read
      ACCEL_CONFIG (2G for an unknown code or a failed read, with a
      warning), times gravity unless `g`. */
  function GetAccelData(bus: Bus, inG: bool): (r: Option<Scaled>)
    ensures r.None? <==> !AxesReadable(bus, ACCEL_XOUT0)
    ensures r.Some? ==>
              var m := AccelModifierOrDefault(ReadAccelRange(bus, true));
              var c := ReadAxesOrZero(bus, ACCEL_XOUT0);
              && ScaledFrom(r.value.v, c, m, UnitFactor(inG))
              && (r.value.rangeWarning <==> !IsRangeCode(ReadAccelRange(bus, true)))
  {
    match ReadAxes(bus, ACCEL_XOUT0)
    case IoError => None
    case Ok(c) =>
      var code := ReadAccelRange(bus, true);
      Some(Scaled(AccelUnits(c, AccelModifierOrDefault(code), inG), !IsRangeCode(code)))
  }

  /** With ACCEL_CONFIG unreadable, or holding a byte outside the table, the
      reading is scaled as at 2G: 16384 counts per g, and it carries the
      warning. */
  lemma AccelFallsBackTo2G(bus: Bus, inG: bool)
    requires AxesReadable(bus, ACCEL_XOUT0)
    requires !Readable(bus, ACCEL_CONFIG) || !IsRangeCode(bus.regs[ACCEL_CONFIG])
    ensures GetAccelData(bus, inG) ==
              Some(Scaled(AccelUnits(ReadAxesOrZero(bus, ACCEL_XOUT0), 16384.0, inG), true))
  {
  }

  /** The conversion `get_gyro_data` applies as written: X and Y divided by
      the modifier, Z passed through as the raw count. */
  function GyroUnitsZRaw(c: Counts, modifier: real): (v: Vec3)
    requires modifier > 0.0
    ensures v.x * modifier == c.x as real && v.y * modifier == c.y as real
    ensures v.z == c.z as real
  {
    Vec3(Scale(c.x, modifier), Scale(c.y, modifier), c.z as real)
  }

  /** `get_gyro_data` as written: if one of the X, Y, Z reads raises the
      result is all zeros; otherwise X and Y are divided by the gyro modifier
      (250 deg/s fallback with a warning) while Z is a second, unscaled
      read of GYRO_ZOUT0 whose IOError would escape. Faults and register
      contents are fixed within a call, so that second read succeeds and
      returns the first Z count. */
  function GetGyroData(bus: Bus): (r: Result<Scaled>)
    ensures r.Ok?
    ensures !AxesReadable(bus, GYRO_XOUT0) ==> r.value == Scaled(ZERO, false)
    ensures AxesReadable(bus, GYRO_XOUT0) ==>
              var code := ReadGyroRange(bus, true);
              && r.value.v == GyroUnitsZRaw(ReadAxesOrZero(bus, GYRO_XOUT0), GyroModifierOrDefault(code))
              && (r.value.rangeWarning <==> !IsRangeCode(code))
  {
    match ReadAxes(bus, GYRO_XOUT0)
    case IoError => Ok(Scaled(ZERO, false))
    case Ok(c) =>
      var code := ReadGyroRange(bus, true);
      var m := GyroModifierOrDefault(code);
      match ReadWord(bus, GYRO_ZOUT0)
      case IoError => IoError
      case Ok(z) => Ok(Scaled(GyroUnitsZRaw(Counts(c.x, c.y, z), m), !IsRangeCode(code)))
  }

  /** The corrected gyro read: Z is divided by the same modifier as X and Y,
      so the triple is the counts over one modifier. */
  function GetGyroDataScaled(bus: Bus): (r: Scaled)
    ensures !AxesReadable(bus, GYRO_XOUT0) ==> r == Scaled(ZERO, false)
    ensures AxesReadable(bus, GYRO_XOUT0) ==>
              var code := ReadGyroRange(bus, true);
              && r.v == GyroUnits(ReadAxesOrZero(bus, GYRO_XOUT0), GyroModifierOrDefault(code))
              && (r.rangeWarning <==> !IsRangeCode(code))
  {
    match ReadAxes(bus, GYRO_XOUT0)
    case IoError => Scaled(ZERO, false)
    case Ok(c) =>
      var code := ReadGyroRange(bus, true);
      Scaled(GyroUnits(c, GyroModifierOrDefault(code)), !IsRangeCode(code))
  }

  /** Whenever the Z count is nonzero, the as-written conversion reports a Z
      that is not the count over the modifier X and Y were divided by: it
      is off by the factor of the modifier (131 at 250 deg/s), and the two
      reads agree on X and Y. */
  lemma GyroZUnscaled(c: Counts, code: int)
    requires c.z != 0
    ensures var m := GyroModifierOrDefault(code);
            && GyroUnitsZRaw(c, m).z == m * GyroUnits(c, m).z
            && GyroUnitsZRaw(c, m).z != GyroUnits(c, m).z
            && GyroUnitsZRaw(c, m).x == GyroUnits(c, m).x
            && GyroUnitsZRaw(c, m).y == GyroUnits(c, m).y
  {
    var m := GyroModifierOrDefault(code);
    GyroModifiersAreNotOne(m, code);
    OffByModifier(GyroUnitsZRaw(c, m).z, GyroUnits(c, m).z, m, c.z as real);
  }

  lemma GyroModifiersAreNotOne(m: real, code: int)
    requires m == GyroModifierOrDefault(code)
    ensures m != 1.0
  {
  }

  /** A value equal to the count, next to one whose m-fold is the count, is
      m times it and, for m other than 1 and a nonzero count, different. */
  lemma OffByModifier(asWritten: real, corrected: real, m: real, count: real)
    requires m > 0.0 && m != 1.0 && count != 0.0
    requires asWritten == count && corrected * m == count
    ensures asWritten == m * corrected && asWritten != corrected
  {
    if asWritten == corrected {
      calc {
        count * m;
        corrected * m;
        count;
      }
      assert false;
    }
  }

  /** At 250 deg/s a word of 131 counts on every axis reads back as 1 deg/s
      on X and Y but 131 on Z; the corrected read gives 1 deg/s on all. */
  lemma GyroZUnscaledExample()
    ensures GyroUnitsZRaw(Counts(131, 131, 131), GyroModifierOrDefault(0x00)) == Vec3(1.0, 1.0, 131.0)
    ensures GyroUnits(Counts(131, 131, 131), GyroModifierOrDefault(0x00)) == Vec3(1.0, 1.0, 1.0)
  {
    assert GyroModifierOrDefault(0x00) == 131.0;
    assert Scale(131, 131.0) == 1.0;
  }

  /** `get_temp`: `raw/340 + 36.53`, or 0.0 when the word read raises. */
  function GetTemp(bus: Bus): (t: real)
    ensures !WordReadable(bus, TEMP_OUT0) ==> t == 0.0
    ensures WordReadable(bus, TEMP_OUT0) ==>
              RawOfCelsius(t) == DecodeWord(bus.regs[TEMP_OUT0], bus.regs[TEMP_OUT0 + 1]) as real
  {
    match ReadWord(bus, TEMP_OUT0)
    case Ok(raw) => TempCelsius(raw)
    case IoError => 0.0
  }

  /** `get_all_data`: `get_accel_data()` in m/s^2, `get_gyro_data()` as
      written (Z unscaled) and `get_temp()`, each with its own error policy. */
  function GetAllData(bus: Bus): (d: AllData)
    ensures d.accel == GetAccelData(bus, false)
    ensures d.accel.None? <==> !AxesReadable(bus, ACCEL_XOUT0)
    ensures d.gyro == GetGyroData(bus).value
    ensures !AxesReadable(bus, GYRO_XOUT0) ==> d.gyro == Scaled(ZERO, false)
    ensures AxesReadable(bus, GYRO_XOUT0) ==>
              var code := ReadGyroRange(bus, true);
              && d.gyro.v == GyroUnitsZRaw(ReadAxesOrZero(bus, GYRO_XOUT0), GyroModifierOrDefault(code))
              && (d.gyro.rangeWarning <==> !IsRangeCode(code))
    ensures d.temp == GetTemp(bus)
    ensures !WordReadable(bus, TEMP_OUT0) ==> d.temp == 0.0
    ensures WordReadable(bus, TEMP_OUT0) ==>
              RawOfCelsius(d.temp) == DecodeWord(bus.regs[TEMP_OUT0], bus.regs[TEMP_OUT0 + 1]) as real
  {
    AllData(GetAccelData(bus, false), GetGyroData(bus).value, GetTemp(bus))
  }

  /** The gyro Z that `get_all_data` reports is off from the corrected read
      by the factor of the modifier whenever the Z count is nonzero; X and Y
      agree. */
  lemma AllDataGyroZUnscaled(bus: Bus)
    requires AxesReadable(bus, GYRO_XOUT0) && ReadAxesOrZero(bus, GYRO_XOUT0).z != 0
    ensures var m := GyroModifierOrDefault(ReadGyroRange(bus, true));
            && GetAllData(bus).gyro.v.z == m * GetGyroDataScaled(bus).v.z
            && GetAllData(bus).gyro.v.z != GetGyroDataScaled(bus).v.z
            && GetAllData(bus).gyro.v.x == GetGyroDataScaled(bus).v.x
            && GetAllData(bus).gyro.v.y == GetGyroDataScaled(bus).v.y
  {
    GyroZUnscaled(ReadAxesOrZero(bus, GYRO_XOUT0), ReadGyroRange(bus, true));
  }
}
