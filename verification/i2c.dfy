/** The I2C bus as the driver sees it: the register file of one device,
    which registers fail to read or write, and the log of writes that
    reached the device. Every operation is a pure function of this state. */
module I2c {
  import opened Sensor

  /** The outcome of a bus transaction: a value, or the IOError that
      `smbus` raises. */
  datatype Result<+T> = Ok(value: T) | IoError

  /** One successful `write_byte_data(address, register, value)`. */
  datatype Write = Write(register: int, value: Byte)

  /** `regs` holds the current register contents; a register outside `regs`
      or inside `readFaults` cannot be read, one inside `writeFaults`
      cannot be written. Faults persist for the duration of a driver call. */
  datatype Bus = Bus(regs: map<int, Byte>, readFaults: set<int>,
                     writeFaults: set<int>, writes: seq<Write>)

  predicate Readable(bus: Bus, register: int)
  {
    register in bus.regs && register !in bus.readFaults
  }

  /** `read_byte_data`: the register's byte, or IoError. */
  function ReadByte(bus: Bus, register: int): (r: Result<Byte>)
    ensures r.Ok? <==> Readable(bus, register)
    ensures r.Ok? ==> r.value == bus.regs[register]
  {
    if Readable(bus, register) then Ok(bus.regs[register]) else IoError
  }

  /** `write_byte_data`: on success the register holds `value`, the write is
      logged and nothing else changes; on IoError the caller keeps its bus. */
  function WriteByte(bus: Bus, register: int, value: Byte): (r: Result<Bus>)
    ensures r.Ok? <==> register !in bus.writeFaults
    ensures r.Ok? ==> r.value.regs == bus.regs[register := value]
    ensures r.Ok? ==> r.value.writes == bus.writes + [Write(register, value)]
    ensures r.Ok? ==> r.value.readFaults == bus.readFaults
                      && r.value.writeFaults == bus.writeFaults
  {
    if register in bus.writeFaults then IoError
    else Ok(bus.(regs := bus.regs[register := value],
                 writes := bus.writes + [Write(register, value)]))
  }

  /** A write whose failure is caught and printed: the bus is unchanged on
      failure. */
  function WriteOrKeep(bus: Bus, register: int, value: Byte): Bus
  {
    match WriteByte(bus, register, value)
    case Ok(b) => b
    case IoError => bus
  }
}
