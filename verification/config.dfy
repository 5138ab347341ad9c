/** The config-register operations that behave identically in more than
    one copy of the driver class (their printed messages differ, and the
    reads only agree for a boolean `raw`): reading ACCEL_CONFIG / GYRO_CONFIG
    back (mpu6050_plot_2.py and mpu6050_recorder.py) and setting a range
    with a single write (mpu6050_recorder.py and motion_led.py). */
module Config {
  import opened Sensor
  import opened I2c
  import opened Ranges

  /** `read_accel_range(raw)`: -1 when the register read fails; otherwise the
      byte itself with `raw`, or its full scale in G (-1 for a byte outside
      the table) without. */
  function ReadAccelRange(bus: Bus, raw: bool): (r: int)
    ensures !Readable(bus, ACCEL_CONFIG) ==> r == UNKNOWN_RANGE
    ensures Readable(bus, ACCEL_CONFIG) && raw ==> r == bus.regs[ACCEL_CONFIG]
    ensures Readable(bus, ACCEL_CONFIG) && !raw ==>
              (r == UNKNOWN_RANGE <==> !IsRangeCode(bus.regs[ACCEL_CONFIG]))
    ensures Readable(bus, ACCEL_CONFIG) && !raw && r != UNKNOWN_RANGE ==>
              AccelOfFullScale(r).Some?
              && AccelCode(AccelOfFullScale(r).value) == bus.regs[ACCEL_CONFIG]
  {
    match ReadByte(bus, ACCEL_CONFIG)
    case IoError => UNKNOWN_RANGE
    case Ok(code) => if raw then code else DecodeAccelRange(code)
  }

  /** `read_gyro_range(raw)`: as ReadAccelRange, on GYRO_CONFIG, in deg/s. */
  function ReadGyroRange(bus: Bus, raw: bool): (r: int)
    ensures !Readable(bus, GYRO_CONFIG) ==> r == UNKNOWN_RANGE
    ensures Readable(bus, GYRO_CONFIG) && raw ==> r == bus.regs[GYRO_CONFIG]
    ensures Readable(bus, GYRO_CONFIG) && !raw ==>
              (r == UNKNOWN_RANGE <==> !IsRangeCode(bus.regs[GYRO_CONFIG]))
    ensures Readable(bus, GYRO_CONFIG) && !raw && r != UNKNOWN_RANGE ==>
              GyroOfFullScale(r).Some?
              && GyroCode(GyroOfFullScale(r).value) == bus.regs[GYRO_CONFIG]
  {
    match ReadByte(bus, GYRO_CONFIG)
    case IoError => UNKNOWN_RANGE
    case Ok(code) => if raw then code else DecodeGyroRange(code)
  }

  /** `set_accel_range` of the recorder and LED copies: exactly one write of
      the byte to ACCEL_CONFIG; a failure is printed, not raised, and leaves
      the bus as it was. */
  function WriteAccelRange(bus: Bus, code: Byte): (b: Bus)
    ensures ACCEL_CONFIG in bus.writeFaults ==> b == bus
    ensures ACCEL_CONFIG !in bus.writeFaults ==>
              b.regs == bus.regs[ACCEL_CONFIG := code]
              && b.writes == bus.writes + [Write(ACCEL_CONFIG, code)]
    ensures b.readFaults == bus.readFaults && b.writeFaults == bus.writeFaults
  {
    WriteOrKeep(bus, ACCEL_CONFIG, code)
  }

  /** `set_gyro_range` of the recorder and LED copies: one write of the byte
      to GYRO_CONFIG. */
  function WriteGyroRange(bus: Bus, code: Byte): (b: Bus)
    ensures GYRO_CONFIG in bus.writeFaults ==> b == bus
    ensures GYRO_CONFIG !in bus.writeFaults ==>
              b.regs == bus.regs[GYRO_CONFIG := code]
              && b.writes == bus.writes + [Write(GYRO_CONFIG, code)]
    ensures b.readFaults == bus.readFaults && b.writeFaults == bus.writeFaults
  {
    WriteOrKeep(bus, GYRO_CONFIG, code)
  }

  /** Writing a table code and reading the register back gives the range
      again, decoded or raw, whenever the register accepts writes and
      reads. */
  lemma WriteThenReadAccelRange(bus: Bus, r: AccelRange)
    requires ACCEL_CONFIG !in bus.writeFaults && ACCEL_CONFIG !in bus.readFaults
    ensures ReadAccelRange(WriteAccelRange(bus, AccelCode(r)), false) == AccelFullScale(r)
    ensures ReadAccelRange(WriteAccelRange(bus, AccelCode(r)), true) == AccelCode(r)
  {
  }

  lemma WriteThenReadGyroRange(bus: Bus, r: GyroRange)
    requires GYRO_CONFIG !in bus.writeFaults && GYRO_CONFIG !in bus.readFaults
    ensures ReadGyroRange(WriteGyroRange(bus, GyroCode(r)), false) == GyroFullScale(r)
    ensures ReadGyroRange(WriteGyroRange(bus, GyroCode(r)), true) == GyroCode(r)
  {
  }
}
