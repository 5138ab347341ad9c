/** Constants shared by every copy of the MPU-6050 driver class: register
    offsets, standard gravity, the three-axis sample type, and `Option` for
    a reading that may be absent. */
module Sensor {

  /** A byte on the bus, as `read_byte_data` returns it. */
  type Byte = b: int | 0 <= b < 256

  /** Standard gravity in m/s^2 (the class constant GRAVITIY_MS2). */
  const GRAVITY: real := 9.80665

  // MPU-6050 register offsets
  const PWR_MGMT_1: int := 0x6B
  const PWR_MGMT_2: int := 0x6C
  const ACCEL_XOUT0: int := 0x3B
  const ACCEL_YOUT0: int := 0x3D
  const ACCEL_ZOUT0: int := 0x3F
  const TEMP_OUT0: int := 0x41
  const GYRO_XOUT0: int := 0x43
  const GYRO_YOUT0: int := 0x45
  const GYRO_ZOUT0: int := 0x47
  const ACCEL_CONFIG: int := 0x1C
  const GYRO_CONFIG: int := 0x1B

  /** The `{'x': .., 'y': .., 'z': ..}` dictionaries the driver returns. */
  datatype Vec3 = Vec3(x: real, y: real, z: real)

  const ZERO: Vec3 := Vec3(0.0, 0.0, 0.0)

  /** Squared Euclidean norm; compared against squared thresholds so that no
      square root is needed. */
  function NormSq(v: Vec3): real
  {
    v.x * v.x + v.y * v.y + v.z * v.z
  }

  datatype Option<+T> = None | Some(value: T)
}
