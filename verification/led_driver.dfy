/** The `mpu6050` class of motion_led.py: word reads degrade to 0, the wake
    write of `__init__` raises while the two default-range writes after it
    only warn, and the conversions use the 2G and 250 deg/s modifiers
    whatever the config registers hold. */
module LedDriver {
  import opened Sensor
  import opened I2c
  import opened Word
  import opened Ranges
  import opened Convert
  import Config

  /** The writes of `__init__` that went through, in order: the wake write,
      then each default-range write whose register accepts writes. */
  function InitLog(bus: Bus): seq<Write>
  {
    [Write(PWR_MGMT_1, 0x00)]
    + (if ACCEL_CONFIG in bus.writeFaults then [] else [Write(ACCEL_CONFIG, AccelCode(Accel2G))])
    + (if GYRO_CONFIG in bus.writeFaults then [] else [Write(GYRO_CONFIG, GyroCode(Gyro250))])
  }

  /** The registers `__init__` writes: PWR_MGMT_1, and each range register
      whose write goes through. */
  function InitWritten(bus: Bus): set<int>
  {
    {PWR_MGMT_1}
    + (if ACCEL_CONFIG in bus.writeFaults then {} else {ACCEL_CONFIG})
    + (if GYRO_CONFIG in bus.writeFaults then {} else {GYRO_CONFIG})
  }

  /** `__init__`: 0x00 to PWR_MGMT_1, whose IOError propagates; then the 2G
      and 250 deg/s codes (both 0x00), whose failures are only printed. On
      success the written registers hold 0 and every other register,
      including a range register whose write failed, is as it was. */
  function Init(bus: Bus): (r: Result<Bus>)
    ensures r.Ok? <==> PWR_MGMT_1 !in bus.writeFaults
    ensures r.Ok? ==> r.value.writes == bus.writes + InitLog(bus)
    ensures r.Ok? ==> PWR_MGMT_1 in r.value.regs && r.value.regs[PWR_MGMT_1] == 0x00
    ensures r.Ok? && ACCEL_CONFIG !in bus.writeFaults ==>
              ACCEL_CONFIG in r.value.regs && r.value.regs[ACCEL_CONFIG] == 0x00
    ensures r.Ok? && GYRO_CONFIG !in bus.writeFaults ==>
              GYRO_CONFIG in r.value.regs && r.value.regs[GYRO_CONFIG] == 0x00
    ensures r.Ok? ==> r.value.regs.Keys == bus.regs.Keys + InitWritten(bus)
    ensures r.Ok? ==> forall reg :: reg in bus.regs && reg !in InitWritten(bus) ==>
                        reg in r.value.regs && r.value.regs[reg] == bus.regs[reg]
    ensures r.Ok? ==> r.value.readFaults == bus.readFaults && r.value.writeFaults == bus.writeFaults
  {
    match WriteByte(bus, PWR_MGMT_1, 0x00)
    case IoError => IoError
    case Ok(awake) =>
      Ok(Config.WriteGyroRange(Config.WriteAccelRange(awake, AccelCode(Accel2G)), GyroCode(Gyro250)))
  }

  /** `read_accel_range`: 2, for any `raw` and any register contents. */
  function ReadAccelRange(raw: bool): (g: int)
    ensures g == AccelFullScale(Accel2G)
  {
    2
  }

  /** `read_gyro_range`: 250, for any `raw` and any register contents. */
  function ReadGyroRange(raw: bool): (dps: int)
    ensures dps == GyroFullScale(Gyro250)
  {
    250
  }

  /** The hard-coded answers are what the register reports right after a
      successful `__init__` whose range writes went through, decoded as the
      other driver copies decode it. */
  lemma InitMatchesReportedRanges(bus: Bus, raw: bool)
    requires Init(bus).Ok?
    requires ACCEL_CONFIG !in bus.writeFaults && GYRO_CONFIG !in bus.writeFaults
    ensures DecodeAccelRange(Init(bus).value.regs[ACCEL_CONFIG]) == ReadAccelRange(raw)
    ensures DecodeGyroRange(Init(bus).value.regs[GYRO_CONFIG]) == ReadGyroRange(raw)
  {
    var b := Init(bus).value;
    assert b.regs[ACCEL_CONFIG] == 0x00;
    assert b.regs[GYRO_CONFIG] == 0x00;
  }

  /** After any other range is set the reported value is stale: the
      register decodes to the new full scale, which is not 2. */
  lemma ReportedAccelRangeIgnoresRegister(bus: Bus, r: AccelRange, raw: bool)
    requires r != Accel2G && ACCEL_CONFIG !in bus.writeFaults
    ensures DecodeAccelRange(Config.WriteAccelRange(bus, AccelCode(r)).regs[ACCEL_CONFIG]) != ReadAccelRange(raw)
  {
  }

  /** `get_accel_data(g)`: each axis (0 for a failed word read) over 16384,
      times gravity unless `g`. */
  function GetAccelData(bus: Bus, inG: bool): (v: Vec3)
    ensures ScaledFrom(v, ReadAxesOrZero(bus, ACCEL_XOUT0), AccelModifier(Accel2G), UnitFactor(inG))
  {
    AccelUnits(ReadAxesOrZero(bus, ACCEL_XOUT0), AccelModifier(Accel2G), inG)
  }

  /** `get_gyro_data`: each axis (0 for a failed word read) over 131. */
  function GetGyroData(bus: Bus): (v: Vec3)
    ensures ScaledFrom(v, ReadAxesOrZero(bus, GYRO_XOUT0), GyroModifier(Gyro250), 1.0)
  {
    GyroUnits(ReadAxesOrZero(bus, GYRO_XOUT0), GyroModifier(Gyro250))
  }

  /** The readings depend on the axis words only: two buses whose axis
      words read alike give the same data, whatever their config registers
      hold. */
  lemma ReadingsIgnoreConfig(a: Bus, b: Bus, inG: bool)
    requires ReadAxesOrZero(a, ACCEL_XOUT0) == ReadAxesOrZero(b, ACCEL_XOUT0)
    requires ReadAxesOrZero(a, GYRO_XOUT0) == ReadAxesOrZero(b, GYRO_XOUT0)
    ensures GetAccelData(a, inG) == GetAccelData(b, inG)
    ensures GetGyroData(a) == GetGyroData(b)
  {
  }

  /** When every accelerometer word read fails the reading is (0, 0, 0), a
      full gravity away from rest. */
  lemma DegradedAccelIsZero(bus: Bus, inG: bool)
    requires !WordReadable(bus, ACCEL_XOUT0) && !WordReadable(bus, ACCEL_YOUT0)
    requires !WordReadable(bus, ACCEL_ZOUT0)
    ensures GetAccelData(bus, inG) == ZERO
  {
    var c := ReadAxesOrZero(bus, ACCEL_XOUT0);
    assert c == Counts(0, 0, 0);
  }
}
