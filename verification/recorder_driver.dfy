/** The `mpu6050` class of mpu6050_recorder.py and the parts of its `main`
    that shape the output: word reads degrade to 0 instead of raising, the
    range registers are re-read before every conversion with a silent
    fallback to 2G / 250 deg/s, all three gyro axes are scaled, and each
    sample becomes one seven-field CSV row. */
module RecorderDriver {
  import opened Sensor
  import opened I2c
  import opened Word
  import opened Ranges
  import opened Convert
  import opened Csv
  import opened Config

  /** `__init__`: the wake write to PWR_MGMT_1; its IOError is re-raised. */
  function Init(bus: Bus): (r: Result<Bus>)
    ensures r.Ok? <==> PWR_MGMT_1 !in bus.writeFaults
    ensures r.Ok? ==> r.value.regs == bus.regs[PWR_MGMT_1 := 0x00]
                      && r.value.writes == bus.writes + [Write(PWR_MGMT_1, 0x00)]
    ensures r.Ok? ==> r.value.readFaults == bus.readFaults && r.value.writeFaults == bus.writeFaults
  {
    WriteByte(bus, PWR_MGMT_1, 0x00)
  }

  /** `get_accel_data(g)`: never fails. Each axis (0 when its word read
      failed) over the modifier of the freshly read ACCEL_CONFIG, which
      defaults to 16384 and is overridden only by an exact code match;
      times gravity unless `g`. */
  function GetAccelData(bus: Bus, inG: bool): (v: Vec3)
    ensures ScaledFrom(v, ReadAxesOrZero(bus, ACCEL_XOUT0),
                       AccelModifierOrDefault(ReadAccelRange(bus, true)), UnitFactor(inG))
  {
    var c := ReadAxesOrZero(bus, ACCEL_XOUT0);
    AccelUnits(c, AccelModifierOrDefault(ReadAccelRange(bus, true)), inG)
  }

  /** `get_gyro_data`: all three axes over the same modifier, 131 by default.
      The zero-modifier guard is kept but no code selects a zero modifier,
      so it never returns its zero triple. */
  function GetGyroData(bus: Bus): (v: Vec3)
    ensures ScaledFrom(v, ReadAxesOrZero(bus, GYRO_XOUT0),
                       GyroModifierOrDefault(ReadGyroRange(bus, true)), 1.0)
  {
    var c := ReadAxesOrZero(bus, GYRO_XOUT0);
    var m := GyroModifierOrDefault(ReadGyroRange(bus, true));
    if m == 0.0 then ZERO else GyroUnits(c, m)
  }

  /** `get_temp`: `raw/340 + 36.53` of the degrade-to-0 word, so a failed
      read reports exactly 36.53. */
  function GetTemp(bus: Bus): (t: real)
    ensures RawOfCelsius(t) == ReadWordOrZero(bus, TEMP_OUT0) as real
    ensures !WordReadable(bus, TEMP_OUT0) ==> t == 36.53
  {
    TempCelsius(ReadWordOrZero(bus, TEMP_OUT0))
  }

  // ------------------------------------------------------------------ main

  /** The command-line maps from a range in G or deg/s to its register code. */
  const ACCEL_RANGE_MAP: map<int, Byte> := map[2 := 0x00, 4 := 0x08, 8 := 0x10, 16 := 0x18]
  const GYRO_RANGE_MAP: map<int, Byte> := map[250 := 0x00, 500 := 0x08, 1000 := 0x10, 2000 := 0x18]

  /** Decoding a mapped code with the `read_*_range` tables gives back the
      command-line value, and distinct values map to distinct codes. */
  lemma RangeMapsRoundTrip()
    ensures ACCEL_RANGE_MAP.Keys == {2, 4, 8, 16}
    ensures GYRO_RANGE_MAP.Keys == {250, 500, 1000, 2000}
    ensures forall g :: g in ACCEL_RANGE_MAP ==> DecodeAccelRange(ACCEL_RANGE_MAP[g]) == g
    ensures forall d :: d in GYRO_RANGE_MAP ==> DecodeGyroRange(GYRO_RANGE_MAP[d]) == d
    ensures forall g, h :: g in ACCEL_RANGE_MAP && h in ACCEL_RANGE_MAP && g != h ==>
              ACCEL_RANGE_MAP[g] != ACCEL_RANGE_MAP[h]
    ensures forall d, e :: d in GYRO_RANGE_MAP && e in GYRO_RANGE_MAP && d != e ==>
              GYRO_RANGE_MAP[d] != GYRO_RANGE_MAP[e]
  {
  }

  /** The config registers `main`'s range setup writes: each one whose write
      goes through. */
  function ConfigureWritten(bus: Bus): set<int>
  {
    (if ACCEL_CONFIG in bus.writeFaults then {} else {ACCEL_CONFIG})
    + (if GYRO_CONFIG in bus.writeFaults then {} else {GYRO_CONFIG})
  }

  /** `main`'s range setup: the accel and then the gyro code looked up in the
      command-line maps (argparse admits only their keys), each written once
      with its failure only printed. Nothing but the two config registers
      changes, and a register whose write failed keeps its value. When the
      two registers can be written and read, reading them back reports the
      requested ranges. */
  function Configure(bus: Bus, accelG: int, gyroDps: int): (b: Bus)
    requires accelG in ACCEL_RANGE_MAP && gyroDps in GYRO_RANGE_MAP
    ensures b.writes == bus.writes
              + (if ACCEL_CONFIG in bus.writeFaults then [] else [Write(ACCEL_CONFIG, ACCEL_RANGE_MAP[accelG])])
              + (if GYRO_CONFIG in bus.writeFaults then [] else [Write(GYRO_CONFIG, GYRO_RANGE_MAP[gyroDps])])
    ensures b.regs.Keys == bus.regs.Keys + ConfigureWritten(bus)
    ensures ACCEL_CONFIG !in bus.writeFaults ==> b.regs[ACCEL_CONFIG] == ACCEL_RANGE_MAP[accelG]
    ensures GYRO_CONFIG !in bus.writeFaults ==> b.regs[GYRO_CONFIG] == GYRO_RANGE_MAP[gyroDps]
    ensures forall reg :: reg in bus.regs && reg !in ConfigureWritten(bus) ==>
              reg in b.regs && b.regs[reg] == bus.regs[reg]
    ensures b.readFaults == bus.readFaults && b.writeFaults == bus.writeFaults
    ensures ACCEL_CONFIG !in bus.writeFaults && ACCEL_CONFIG !in bus.readFaults ==>
              ReadAccelRange(b, false) == accelG
    ensures GYRO_CONFIG !in bus.writeFaults && GYRO_CONFIG !in bus.readFaults ==>
              ReadGyroRange(b, false) == gyroDps
  {
    RangeMapsRoundTrip();
    WriteGyroRange(WriteAccelRange(bus, ACCEL_RANGE_MAP[accelG]), GYRO_RANGE_MAP[gyroDps])
  }

  /** The column names of the header line, in order. */
  const HEADER_FIELDS: seq<string> :=
    ["Timestamp", "Ax(m/s^2)", "Ay(m/s^2)", "Az(m/s^2)", "Gx(deg/s)", "Gy(deg/s)", "Gz(deg/s)"]

  /** The header line written first:
      `Timestamp,Ax(m/s^2),Ay(m/s^2),Az(m/s^2),Gx(deg/s),Gy(deg/s),Gz(deg/s)` and a newline. */
  const CSV_HEADER: string := Join(HEADER_FIELDS) + "\n"

  /** The header is the seven column names, comma-separated, then a newline. */
  lemma HeaderShape()
    ensures CSV_HEADER[|CSV_HEADER| - 1] == '\n'
    ensures Split(CSV_HEADER[..|CSV_HEADER| - 1]) == HEADER_FIELDS
  {
    var f := HEADER_FIELDS;
    assert CSV_HEADER[..|CSV_HEADER| - 1] == Join(f);
    assert CommaFree(f);
    SplitJoin(f);
  }

  /** The header is, character for character, the line `main` writes. */
  lemma HeaderText()
    ensures CSV_HEADER == "Timestamp,Ax(m/s^2),Ay(m/s^2),Az(m/s^2),Gx(deg/s),Gy(deg/s),Gz(deg/s)\n"
  {
    HeaderPieces();
    PiecesText();
  }

  lemma HeaderPieces()
    ensures CSV_HEADER == "Timestamp" + "," + "Ax(m/s^2)" + "," + "Ay(m/s^2)" + "," + "Az(m/s^2)" + "," + "Gx(deg/s)" + "," + "Gy(deg/s)" + "," + "Gz(deg/s)" + "\n"
  {
    var f := HEADER_FIELDS;
    assert Join(f) == f[0] + "," + f[1] + "," + f[2] + "," + f[3] + "," + f[4] + "," + f[5] + "," + f[6];
  }

  /** The solver compares string literals only a piece at a time. */
  lemma PiecesText()
    ensures "Timestamp" + "," + "Ax(m/s^2)" + "," + "Ay(m/s^2)" + "," + "Az(m/s^2)" + "," + "Gx(deg/s)" + "," + "Gy(deg/s)" + "," + "Gz(deg/s)" + "\n" == "Timestamp,Ax(m/s^2),Ay(m/s^2),Az(m/s^2),Gx(deg/s),Gy(deg/s),Gz(deg/s)\n"
  {
    assert "Timestamp" + "," == "Timestamp,";
    assert "Timestamp," + "Ax(m/s^2)" == "Timestamp,Ax(m/s^2)";
    assert "Timestamp,Ax(m/s^2)" + "," == "Timestamp,Ax(m/s^2),";
    assert "Timestamp,Ax(m/s^2)," + "Ay(m/s^2)" == "Timestamp,Ax(m/s^2),Ay(m/s^2)";
    assert "Timestamp,Ax(m/s^2),Ay(m/s^2)" + "," == "Timestamp,Ax(m/s^2),Ay(m/s^2),";
    assert "Timestamp,Ax(m/s^2),Ay(m/s^2)," + "Az(m/s^2)" == "Timestamp,Ax(m/s^2),Ay(m/s^2),Az(m/s^2)";
    assert "Timestamp,Ax(m/s^2),Ay(m/s^2),Az(m/s^2)" + "," == "Timestamp,Ax(m/s^2),Ay(m/s^2),Az(m/s^2),";
    assert "Timestamp,Ax(m/s^2),Ay(m/s^2),Az(m/s^2)," + "Gx(deg/s)" == "Timestamp,Ax(m/s^2),Ay(m/s^2),Az(m/s^2),Gx(deg/s)";
    assert "Timestamp,Ax(m/s^2),Ay(m/s^2),Az(m/s^2),Gx(deg/s)" + "," == "Timestamp,Ax(m/s^2),Ay(m/s^2),Az(m/s^2),Gx(deg/s),";
    assert "Timestamp,Ax(m/s^2),Ay(m/s^2),Az(m/s^2),Gx(deg/s)," + "Gy(deg/s)" == "Timestamp,Ax(m/s^2),Ay(m/s^2),Az(m/s^2),Gx(deg/s),Gy(deg/s)";
    assert "Timestamp,Ax(m/s^2),Ay(m/s^2),Az(m/s^2),Gx(deg/s),Gy(deg/s)" + "," == "Timestamp,Ax(m/s^2),Ay(m/s^2),Az(m/s^2),Gx(deg/s),Gy(deg/s),";
    assert "Timestamp,Ax(m/s^2),Ay(m/s^2),Az(m/s^2),Gx(deg/s),Gy(deg/s)," + "Gz(deg/s)" == "Timestamp,Ax(m/s^2),Ay(m/s^2),Az(m/s^2),Gx(deg/s),Gy(deg/s),Gz(deg/s)";
    assert "Timestamp,Ax(m/s^2),Ay(m/s^2),Az(m/s^2),Gx(deg/s),Gy(deg/s),Gz(deg/s)" + "\n" == "Timestamp,Ax(m/s^2),Ay(m/s^2),Az(m/s^2),Gx(deg/s),Gy(deg/s),Gz(deg/s)\n";
  }

  /** A number formatter such as `{:.4f}` writes neither commas nor line
      breaks. */
  ghost predicate FieldFormatter(fmt: real -> string)
  {
    forall x: real :: ',' !in fmt(x) && '\n' !in fmt(x)
  }

  /** The fields of a data row in column order: the timestamp, the accel
      axes x, y, z, then the gyro axes x, y, z, each formatted. */
  function RowFields(timestamp: real, accel: Vec3, gyro: Vec3, fmt: real -> string): seq<string>
  {
    [fmt(timestamp), fmt(accel.x), fmt(accel.y), fmt(accel.z),
     fmt(gyro.x), fmt(gyro.y), fmt(gyro.z)]
  }

  /** One data row: the row fields comma-separated and ended by a newline.
      Splitting the line before its newline gives back exactly the seven
      fields. */
  function DataLine(timestamp: real, accel: Vec3, gyro: Vec3, fmt: real -> string): (line: string)
    requires FieldFormatter(fmt)
    ensures |line| >= 1 && line[|line| - 1] == '\n'
    ensures '\n' !in line[..|line| - 1]
    ensures Split(line[..|line| - 1]) == RowFields(timestamp, accel, gyro, fmt)
  {
    var fields := RowFields(timestamp, accel, gyro, fmt);
    RowFieldsPlain(timestamp, accel, gyro, fmt);
    SplitJoin(fields);
    JoinKeepsOut(fields, '\n');
    var line := Join(fields) + "\n";
    assert line[..|line| - 1] == Join(fields);
    line
  }

  lemma RowFieldsPlain(timestamp: real, accel: Vec3, gyro: Vec3, fmt: real -> string)
    requires FieldFormatter(fmt)
    ensures |RowFields(timestamp, accel, gyro, fmt)| == 7
    ensures CommaFree(RowFields(timestamp, accel, gyro, fmt))
    ensures forall k :: 0 <= k < 7 ==> '\n' !in RowFields(timestamp, accel, gyro, fmt)[k]
  {
  }

  /** A character in no field and other than ',' is not in the record. */
  lemma {:induction false} JoinKeepsOut(fields: seq<string>, ch: char)
    requires ch != ','
    requires forall k :: 0 <= k < |fields| ==> ch !in fields[k]
    ensures ch !in Join(fields)
    decreases |fields|
  {
    if |fields| > 1 {
      JoinKeepsOut(fields[1..], ch);
      assert Join(fields) == fields[0] + "," + Join(fields[1..]);
    }
  }

  /** One pass of the recording loop: the row written for a bus snapshot at
      a timestamp, with accel in m/s^2 and gyro in deg/s. */
  function RecordSample(bus: Bus, timestamp: real, fmt: real -> string): (line: string)
    requires FieldFormatter(fmt)
    ensures |line| >= 1 && line[|line| - 1] == '\n'
    ensures Split(line[..|line| - 1]) ==
              RowFields(timestamp, GetAccelData(bus, false), GetGyroData(bus), fmt)
  {
    var a := GetAccelData(bus, false);
    var g := GetGyroData(bus);
    DataLine(timestamp, a, g, fmt)
  }

  /** What one pass of the recording loop samples: the time and the
      converted accel (m/s^2) and gyro (deg/s) triples. Record takes them as
      inputs; RecordSample shows how one is read from a bus snapshot. */
  datatype Reading = Reading(timestamp: real, accel: Vec3, gyro: Vec3)

  /** The recording loop over a finite run of cycles: the header first, then
      one data row per reading, in sampling order. */
  method Record(readings: seq<Reading>, fmt: real -> string) returns (lines: seq<string>)
    requires FieldFormatter(fmt)
    ensures |lines| == |readings| + 1
    ensures lines[0] == CSV_HEADER
    ensures forall k :: 1 <= k < |lines| ==>
              lines[k] == DataLine(readings[k - 1].timestamp, readings[k - 1].accel,
                                   readings[k - 1].gyro, fmt)
    ensures forall k :: 1 <= k < |lines| ==>
              |lines[k]| >= 1 && lines[k][|lines[k]| - 1] == '\n'
              && Split(lines[k][..|lines[k]| - 1]) ==
                   RowFields(readings[k - 1].timestamp, readings[k - 1].accel, readings[k - 1].gyro, fmt)
  {
    lines := [CSV_HEADER];
    var n := 0;
    while n < |readings|
      invariant 0 <= n <= |readings|
      invariant |lines| == n + 1
      invariant lines[0] == CSV_HEADER
      invariant forall k :: 1 <= k < |lines| ==>
                  lines[k] == DataLine(readings[k - 1].timestamp, readings[k - 1].accel,
                                       readings[k - 1].gyro, fmt)
    {
      var r := readings[n];
      var row := DataLine(r.timestamp, r.accel, r.gyro, fmt);
      lines := lines + [row];
      n := n + 1;
    }
  }
}
