/** `read_i2c_word`: two consecutive byte registers (high byte at the lower
    offset) joined into an unsigned 16-bit value and reinterpreted as a
    two's-complement signed word. */
module Word {
  import opened Sensor
  import opened I2c

  const WORD_MODULUS: int := 0x1_0000
  const SIGN_THRESHOLD: int := 0x8000

  /** Values a signed 16-bit word can take. */
  predicate IsInt16(s: int)
  {
    -SIGN_THRESHOLD <= s < SIGN_THRESHOLD
  }

  /** `(high << 8) + low`: the high byte supplies the upper eight bits. */
  function JoinBytes(high: Byte, low: Byte): (v: int)
    ensures 0 <= v < WORD_MODULUS
  {
    high * 256 + low
  }

  /** The source's reinterpretation: `-((65535 - value) + 1)` at or above
      0x8000, the value itself below. */
  function ToSigned16(value: int): (s: int)
    requires 0 <= value < WORD_MODULUS
    ensures IsInt16(s)
  {
    if value >= SIGN_THRESHOLD then -((65535 - value) + 1) else value
  }

  /** `read_i2c_word`'s decoding of a register pair. */
  function DecodeWord(high: Byte, low: Byte): (s: int)
    ensures IsInt16(s)
  {
    ToSigned16(JoinBytes(high, low))
  }

  /** The decoded word is the unique signed 16-bit number congruent to the
      unsigned value modulo 2^16, i.e. `value - 65536` from 0x8000 up and
      `value` below; it is negative exactly when the sign bit (bit 7 of the
      high byte) is set. */
  lemma DecodeWordSpec(high: Byte, low: Byte)
    ensures DecodeWord(high, low) % WORD_MODULUS == JoinBytes(high, low)
    ensures JoinBytes(high, low) >= SIGN_THRESHOLD ==>
              DecodeWord(high, low) == JoinBytes(high, low) - WORD_MODULUS
    ensures JoinBytes(high, low) < SIGN_THRESHOLD ==>
              DecodeWord(high, low) == JoinBytes(high, low)
    ensures DecodeWord(high, low) < 0 <==> high >= 0x80
  {
  }

  /** The high byte supplies the upper eight bits, the low byte the lower. */
  lemma JoinBytesSplit(high: Byte, low: Byte)
    ensures JoinBytes(high, low) / 256 == high && JoinBytes(high, low) % 256 == low
  {
  }

  /** The inverse of DecodeWord: a signed word split into the register pair
      the sensor would hold for it. */
  function EncodeWord(s: int): (hl: (Byte, Byte))
    requires IsInt16(s)
  {
    var u := s % WORD_MODULUS;
    (u / 256, u % 256)
  }

  lemma DecodeEncode(s: int)
    requires IsInt16(s)
    ensures DecodeWord(EncodeWord(s).0, EncodeWord(s).1) == s
  {
    var hl := EncodeWord(s);
    var u := s % WORD_MODULUS;
    assert JoinBytes(hl.0, hl.1) == u;
    DecodeWordSpec(hl.0, hl.1);
    var d := DecodeWord(hl.0, hl.1);
    assert d % WORD_MODULUS == s % WORD_MODULUS;
    assert IsInt16(d) && IsInt16(s);
  }

  lemma EncodeDecode(high: Byte, low: Byte)
    ensures EncodeWord(DecodeWord(high, low)) == (high, low)
  {
    var s := DecodeWord(high, low);
    var u := JoinBytes(high, low);
    DecodeWordSpec(high, low);
    JoinBytesSplit(high, low);
    assert s % WORD_MODULUS == u;
    assert u / 256 == high && u % 256 == low;
  }

  /** Distinct register pairs decode to distinct words. */
  lemma DecodeWordInjective(h1: Byte, l1: Byte, h2: Byte, l2: Byte)
    requires DecodeWord(h1, l1) == DecodeWord(h2, l2)
    ensures h1 == h2 && l1 == l2
  {
    EncodeDecode(h1, l1);
    EncodeDecode(h2, l2);
  }

  /** Boundary values: 0xFFFF, 0x8000, 0x7FFF and 0x0000. */
  lemma DecodeWordExamples()
    ensures DecodeWord(0xFF, 0xFF) == -1
    ensures DecodeWord(0x80, 0x00) == -32768
    ensures DecodeWord(0x7F, 0xFF) == 32767
    ensures DecodeWord(0x00, 0x00) == 0
  {
  }

  /** `read_i2c_word` without a handler (mpu6050_plot_2.py): the IOError of
      either byte read escapes to the caller. */
  function ReadWord(bus: Bus, register: int): (r: Result<int>)
    ensures r.Ok? <==> WordReadable(bus, register)
    ensures r.Ok? ==> r.value == DecodeWord(bus.regs[register], bus.regs[register + 1])
  {
    match ReadByte(bus, register)
    case IoError => IoError
    case Ok(high) =>
      match ReadByte(bus, register + 1)
      case IoError => IoError
      case Ok(low) => Ok(DecodeWord(high, low))
  }

  /** `read_i2c_word` with the handler of mpu6050_recorder.py and
      motion_led.py: a failed byte read degrades the word to 0 and nothing
      is raised. */
  function ReadWordOrZero(bus: Bus, register: int): (w: int)
    ensures IsInt16(w)
    ensures !WordReadable(bus, register) ==> w == 0
    ensures WordReadable(bus, register) ==>
              w == DecodeWord(bus.regs[register], bus.regs[register + 1])
  {
    match ReadWord(bus, register)
    case Ok(v) => v
    case IoError => 0
  }

  /** Raw counts of one sensor's three axes. */
  datatype Counts = Counts(x: int, y: int, z: int)

  /** Whether both byte registers of the word at `register` can be read. */
  predicate WordReadable(bus: Bus, register: int)
  {
    Readable(bus, register) && Readable(bus, register + 1)
  }

  /** Whether the three consecutive axis words starting at `base` (X, Y, Z
      at base, base + 2, base + 4) can be read. */
  predicate AxesReadable(bus: Bus, base: int)
  {
    WordReadable(bus, base) && WordReadable(bus, base + 2) && WordReadable(bus, base + 4)
  }

  /** Three `read_i2c_word` calls without a handler, X then Y then Z: the
      first IOError escapes. */
  function ReadAxes(bus: Bus, base: int): (r: Result<Counts>)
    ensures r.Ok? <==> AxesReadable(bus, base)
    ensures r.Ok? ==> r.value == Counts(ReadWord(bus, base).value,
                                        ReadWord(bus, base + 2).value,
                                        ReadWord(bus, base + 4).value)
  {
    match ReadWord(bus, base)
    case IoError => IoError
    case Ok(x) =>
      match ReadWord(bus, base + 2)
      case IoError => IoError
      case Ok(y) =>
        match ReadWord(bus, base + 4)
        case IoError => IoError
        case Ok(z) =>
          Ok(Counts(x, y, z))
  }

  /** Three `read_i2c_word` calls with the degrade-to-0 handler: each axis
      independently decodes or becomes 0. */
  function ReadAxesOrZero(bus: Bus, base: int): (c: Counts)
    ensures IsInt16(c.x) && IsInt16(c.y) && IsInt16(c.z)
    ensures AxesReadable(bus, base) ==> ReadAxes(bus, base) == Ok(c)
    ensures c.x == ReadWordOrZero(bus, base) && c.y == ReadWordOrZero(bus, base + 2)
            && c.z == ReadWordOrZero(bus, base + 4)
  {
    Counts(ReadWordOrZero(bus, base), ReadWordOrZero(bus, base + 2),
           ReadWordOrZero(bus, base + 4))
  }
}
