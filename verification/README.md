# MPU-6050 driver copies and motion monitor, modelled in Dafny

The repository carries three near-copies of one Python class, `mpu6050`,
which drives an InvenSense MPU-6050 accelerometer/gyroscope over I2C, and a
motion monitor that lights an LED while the sensor moves. This project
models what those copies compute and proves what they promise:

- **The bus** (`I2c`): an immutable register map. Reads and writes of a
  register may fail (`IoError`); failing registers are fixed sets, so a
  register that answered once answers again within the same call. Every
  successful write is appended to a log, so write order is observable.
- **Word decoding** (`Word`): `read_i2c_word` joins a high and a low byte
  and reinterprets the 16-bit value as two's complement. `ReadWord` raises
  on a bus error, which is the `mpu6050_plot_2.py` behaviour. `ReadWordOrZero`
  degrades to 0, which is what the recorder and LED copies do.
- **Range tables** (`Ranges`): the four accelerometer ranges (2/4/8/16 G)
  and four gyroscope ranges (250/500/1000/2000 deg/s). Each has its
  register code (0x00/0x08/0x10/0x18), its full scale and its scale
  modifier (counts per unit). This module also holds the modifier selection
  with its 2G / 250 deg/s fallback.
- **Conversion** (`Convert`): each count is divided by the modifier, and
  times standard gravity 9.80665 for m/s^2. Temperature is `raw/340 + 36.53`.
  The arithmetic is on exact reals.
- **The three driver copies**, one module each, differing in their error
  policies. The config-register reads and single writes that behave
  identically in two copies (for a boolean `raw`) are in `Config`:
  - `PlotDriver` (mpu6050_plot_2.py): word reads raise. The range writes
    are 0x00 and then the code. An unknown range prints a warning and falls
    back. Accel is `None` on a failed read, gyro is zeros, temperature is
    0.0. The gyro Z axis is returned unscaled; see Findings.
  - `RecorderDriver` (mpu6050_recorder.py): word reads degrade to 0 and the
    fallback is silent. Range setting is one write per register. This
    module also holds the command-line range maps and the CSV header and
    row shape of its `main` (`Csv` splits and joins records).
  - `LedDriver` (motion_led.py): the modifiers are hard-coded to 2G and
    250 deg/s. The range reads answer 2 and 250 without touching the bus.
    `__init__` writes PWR_MGMT_1, then ACCEL_CONFIG, then GYRO_CONFIG.
- **The motion monitor** (`Motion`): the edge-triggered two-state
  classifier of motion_led.py's `main`, as a step function folded over a
  sequence of cycles and as a loop (`Monitor`).

Two behaviours of the code are worth stating plainly:

- `main` in motion_led.py has no check for an all-zero acceleration
  triple. A triple whose word reads all failed is (0, 0, 0), its
  `accel_delta` is 9.80665, and the cycle is classified as motion
  (`Motion.ZeroAccelIsMotion`).
- `__init__` in mpu6050_plot_2.py prints a failed wake write and carries
  on (`PlotDriver.Init`). The recorder and LED copies re-raise it.

## Model

| member | source | states |
|---|---|---|
| Word.DecodeWord | mpu6050_plot_2.py:67-77 | the decoded word always lies in [-32768, 32767] |
| Word.DecodeWordSpec | mpu6050_plot_2.py:72-77 | the word is `value - 65536` from 0x8000 up and `value` below, congruent to `value` modulo 2^16, and negative exactly when bit 7 of the high byte is set |
| Word.JoinBytesSplit | mpu6050_plot_2.py:72 | `(high << 8) + low` keeps the high byte in the upper eight bits and the low byte in the lower eight |
| Word.EncodeDecode | mpu6050_plot_2.py:67-77 | encoding the decoded word as two's-complement bytes gives back the two register bytes |
| Word.DecodeWordInjective | mpu6050_plot_2.py:67-77 | distinct register pairs decode to distinct words |
| Word.DecodeEncode | mpu6050_plot_2.py:67-77 | every signed 16-bit number is the decoding of its two's-complement bytes |
| Word.DecodeWordExamples | mpu6050_plot_2.py:72-77 | 0xFFFF decodes to -1, 0x8000 to -32768, 0x7FFF to 32767 and 0 to 0 |
| Word.ReadWord | mpu6050_plot_2.py:67-70 | the read fails exactly when one of the two byte reads fails; otherwise it returns the decoded pair |
| Word.ReadWordOrZero | mpu6050_recorder.py:59-72 | a failed byte read gives 0 instead of an error; a good read gives the decoded pair; the result is always a signed 16-bit number |
| Word.ReadAxes | mpu6050_plot_2.py:113-120 | the three word reads succeed exactly when all six bytes are readable, and then give the three decoded words |
| Word.ReadAxesOrZero | mpu6050_recorder.py:121-123 | each axis is its own degrade-to-0 word read, so a failed axis is 0 while the others still decode; a signed 16-bit number each, equal to the strict reads when those succeed |
| Ranges.AccelModifier | mpu6050_plot_2.py:16-19 | each accel modifier is positive and full scale times modifier is 32768 counts |
| Ranges.GyroModifier | mpu6050_plot_2.py:21-24 | each gyro modifier is positive and full scale times modifier lies in [32750, 32800] counts |
| Ranges.AccelOfCode | mpu6050_plot_2.py:27-30 | the code table is inverted exactly on its four codes, and no other byte names a range |
| Ranges.GyroOfCode | mpu6050_plot_2.py:32-35 | the gyro code table is inverted exactly on its four codes |
| Ranges.AccelCodeRoundTrip | mpu6050_plot_2.py:27-30 | range to code to range is the identity, and every code lies in the table |
| Ranges.GyroCodeRoundTrip | mpu6050_plot_2.py:32-35 | the same for the gyro table |
| Ranges.DecodeAccelRange | mpu6050_plot_2.py:99-110 | the sentinel -1 comes exactly from bytes outside the table; any other answer is a full scale whose code is the byte |
| Ranges.DecodeGyroRange | mpu6050_plot_2.py:171-182 | the same for 250/500/1000/2000 deg/s |
| Ranges.AccelModifierOrDefault | mpu6050_plot_2.py:123-136 | a table code selects the modifier of its range; any other value, -1 included, selects 16384 |
| Ranges.GyroModifierOrDefault | mpu6050_plot_2.py:194-207 | a table code selects its modifier; anything else selects 131; the modifier is never zero |
| Convert.TempCelsius | mpu6050_plot_2.py:221 | converting back from Celsius (`(t - 36.53) * 340`) recovers the raw word, and a 16-bit word gives a temperature within [-59.85, 132.91] |
| Convert.ScaleExampleG | mpu6050_plot_2.py:139-144 | 16384 counts at the 2G modifier is 1.0 g |
| Convert.ScaleExampleMs2 | mpu6050_plot_2.py:145-149 | the same count is 9.80665 m/s^2 |
| Config.ReadAccelRange | mpu6050_plot_2.py:90-110 | -1 on a failed read; the byte itself with `raw`; otherwise -1 exactly for bytes outside the table, and a full scale whose code is the byte (mpu6050_recorder.py:88-101 behaves the same for a boolean `raw`) |
| Config.ReadGyroRange | mpu6050_recorder.py:104-117 | the same on GYRO_CONFIG in deg/s (mpu6050_plot_2.py:162-182 behaves the same for a boolean `raw`) |
| Config.WriteAccelRange | mpu6050_recorder.py:75-79 | exactly one write of the code to ACCEL_CONFIG on success; a failure leaves the bus unchanged and is not raised (motion_led.py:69-72 is the same) |
| Config.WriteGyroRange | motion_led.py:74-77 | the same for GYRO_CONFIG (mpu6050_recorder.py:81-85 is the same) |
| Config.WriteThenReadAccelRange | mpu6050_recorder.py:75-101 | writing a table code and reading it back gives the range, decoded or raw, when the register accepts writes and reads |
| Config.WriteThenReadGyroRange | mpu6050_recorder.py:81-117 | the same for the gyroscope |
| PlotDriver.Init | mpu6050_plot_2.py:54-64 | the wake write of 0 to PWR_MGMT_1 is logged when it succeeds; when it fails the bus is unchanged and nothing is raised; the fault sets are kept either way |
| PlotDriver.SetAccelRange | mpu6050_plot_2.py:79-87 | on success 0x00 and then the code are written, and the register ends equal to the code; a failed write leaves the bus as it was |
| PlotDriver.SetGyroRange | mpu6050_plot_2.py:151-160 | the same two writes to GYRO_CONFIG |
| PlotDriver.SetThenReadAccelRange | mpu6050_plot_2.py:79-110 | setting a range and reading it back gives the range, decoded or raw, when the register accepts writes and reads |
| PlotDriver.SetThenReadGyroRange | mpu6050_plot_2.py:151-182 | the same for the gyroscope |
| PlotDriver.GetAccelData | mpu6050_plot_2.py:112-149 | None exactly when an axis read fails; otherwise each axis times the selected modifier equals its count (times gravity for m/s^2), with the warning exactly for an unknown code |
| PlotDriver.AccelFallsBackTo2G | mpu6050_plot_2.py:134-136 | an unreadable or unknown ACCEL_CONFIG gives 16384-counts-per-g scaling and the warning |
| PlotDriver.GetGyroData | mpu6050_plot_2.py:184-215 | zeros when an axis read fails; otherwise X and Y times the modifier are their counts while Z is the raw count, with the warning exactly for an unknown code |
| PlotDriver.GyroZUnscaled | mpu6050_plot_2.py:210-213 | for a nonzero Z count the as-written Z is the modifier times the scaled Z and differs from it, while X and Y agree |
| PlotDriver.GyroZUnscaledExample | mpu6050_plot_2.py:197-213 | 131 counts on every axis at 250 deg/s reads as (1, 1, 131) as written and (1, 1, 1) when corrected |
| PlotDriver.GetGyroDataScaled | mpu6050_plot_2.py:184-212 | the corrected read: all three axes are the counts over one modifier |
| PlotDriver.GetTemp | mpu6050_plot_2.py:217-225 | 0.0 when the word read fails; otherwise the temperature that converts back to the raw word |
| PlotDriver.GetAllData | mpu6050_plot_2.py:227-233 | accel in m/s^2 (None on failure); the as-written gyro read, so zeros on failure and otherwise X and Y over the modifier with Z the raw count; the temperature, 0.0 on failure and otherwise converting back to the decoded word |
| PlotDriver.AllDataGyroZUnscaled | mpu6050_plot_2.py:227-233 | for a nonzero Z count the gyro Z that `get_all_data` reports is the modifier times the corrected Z, and differs from it; X and Y agree |
| RecorderDriver.Init | mpu6050_recorder.py:46-56 | construction succeeds exactly when the wake write succeeds, and then 0 is in PWR_MGMT_1 and logged, the rest of the register map is as it was, and the fault sets are kept |
| RecorderDriver.GetAccelData | mpu6050_recorder.py:120-147 | never fails; each degrade-to-0 count equals its axis times the selected modifier (16384 unless a table code matches), over gravity for m/s^2 |
| RecorderDriver.GetGyroData | mpu6050_recorder.py:149-174 | all three axes times the same modifier (131 by default) equal their counts, so the zero-modifier branch never decides the result |
| RecorderDriver.GetTemp | mpu6050_recorder.py:177-181 | the temperature converts back to the degrade-to-0 word, so a failed read gives exactly 36.53 |
| RecorderDriver.RangeMapsRoundTrip | mpu6050_recorder.py:206-207 | the maps are defined on exactly {2,4,8,16} and {250,500,1000,2000}, decoding a mapped code gives back the key, and both maps are injective |
| RecorderDriver.Configure | mpu6050_recorder.py:206-209 | one write of the mapped accel code and then one of the mapped gyro code, each logged only if it went through; a register whose write went through holds its mapped code; no other register changes and a register whose write failed keeps its value; reading the registers back reports the requested ranges when they accept writes and reads |
| RecorderDriver.HeaderShape | mpu6050_recorder.py:222 | the header ends in a newline and its fields are the seven column names in order |
| RecorderDriver.HeaderText | mpu6050_recorder.py:222 | the header is exactly the line `main` writes, character for character |
| RecorderDriver.DataLine | mpu6050_recorder.py:240-244 | a row ends in its only newline and splits into exactly the seven formatted values: timestamp, accel x, y, z, gyro x, y, z |
| RecorderDriver.RecordSample | mpu6050_recorder.py:232-244 | the row written for a bus snapshot splits into the timestamp and the m/s^2 accel and deg/s gyro readings of that snapshot |
| RecorderDriver.Record | mpu6050_recorder.py:220-247 | the header comes first, then one newline-terminated row per reading, in order; splitting a row at its commas gives back that reading's formatted fields |
| Csv.Split | mpu6050_recorder.py:240-244 | a record splits into at least one field, none containing a comma |
| Csv.SplitJoin | mpu6050_recorder.py:240-244 | splitting the comma-join of comma-free fields gives back the fields |
| Csv.JoinSplit | mpu6050_recorder.py:240-244 | joining the fields of a record rebuilds the record |
| LedDriver.Init | motion_led.py:46-57 | construction fails exactly when the wake write fails; otherwise the log holds PWR_MGMT_1, then ACCEL_CONFIG, then GYRO_CONFIG (each range write only if it went through), the written registers hold 0, the register map gains exactly the written registers, and every other register, a range register whose write failed included, keeps its value |
| LedDriver.ReadAccelRange | motion_led.py:79-82 | 2, the 2G full scale, for any `raw`, without reading the bus |
| LedDriver.ReadGyroRange | motion_led.py:84-87 | 250, the 250 deg/s full scale, for any `raw`, without reading the bus |
| LedDriver.InitMatchesReportedRanges | motion_led.py:79-87 | the hard-coded 2 and 250 are what the registers decode to right after a successful `__init__` |
| LedDriver.ReportedAccelRangeIgnoresRegister | motion_led.py:79-82 | after any other accel range is set, the register decodes to something other than the reported 2 |
| LedDriver.GetAccelData | motion_led.py:89-104 | each axis times 16384 is its degrade-to-0 count (times gravity for m/s^2), whatever ACCEL_CONFIG holds |
| LedDriver.GetGyroData | motion_led.py:106-115 | each axis times 131 is its degrade-to-0 count, whatever GYRO_CONFIG holds |
| LedDriver.ReadingsIgnoreConfig | motion_led.py:89-115 | two buses whose axis words read alike give equal readings, whatever their config registers hold |
| LedDriver.DegradedAccelIsZero | motion_led.py:59-67 | when every accelerometer word read fails the reading is (0, 0, 0) |
| Motion.MeasureOf | motion_led.py:166-168 | `accel_delta` is non-negative and is the distance of the magnitude from 9.80665 |
| Motion.Step | motion_led.py:175-187 | the new state and the LED are the verdict; a message is printed exactly when the verdict differs from the old state; "Stationary..." exactly on a fall, "Motion Detected!" with the cycle's values on a rise |
| Motion.FinalIsLastVerdict | motion_led.py:178-187 | `last_state_moving` after a run is the verdict of its last cycle (the initial state for an empty run) |
| Motion.LedsFollowVerdicts | motion_led.py:178-184 | the LED levels of a run are exactly the per-cycle verdicts |
| Motion.EventsCountChanges | motion_led.py:158-187 | the number of messages equals the number of adjacent changes in the verdicts, counting from the initial state |
| Motion.EventsAlternate | motion_led.py:158-187 | from not-moving, messages alternate starting with "Motion Detected!", and the final state is moving exactly when an odd number were printed |
| Motion.SingleCrossing | motion_led.py:158-187 | a run still for k cycles and moving afterwards prints exactly one message, "Motion Detected!" with cycle k's values |
| Motion.StillRunIsQuiet | motion_led.py:158-187 | a run that never exceeds a threshold prints nothing and ends not-moving |
| Motion.Monitor | motion_led.py:158-187 | the loop drives the LED with every verdict, prints the messages of the run, one per change, and ends with the last verdict as its state |
| Motion.AccelTestBySquares | motion_led.py:166-168 | `accel_delta > 0.4` exactly when the squared magnitude lies outside ((g-0.4)^2, (g+0.4)^2) |
| Motion.GyroTestBySquares | motion_led.py:171-172 | `gyro_magnitude > 10` exactly when the squared magnitude exceeds 100 |
| Motion.VerdictBySquares | motion_led.py:142-144 | the verdict is determined by the squared norms, and strict comparisons leave boundary readings still |
| Motion.RestIsStationary | motion_led.py:166-176 | at rest, (0, 0, 9.80665) with no rotation, `accel_delta` is 0 and the verdict is stationary, as are readings exactly on the thresholds |
| Motion.ZeroAccelIsMotion | motion_led.py:166-176 | a (0, 0, 0) acceleration has `accel_delta` above 0.4 and is classified as motion |

## Left out

- I2C I/O through `smbus.SMBus`, including the bus number and the device
  address. The bus is a register map whose failing registers are fixed
  sets, and its contents are fixed within one driver call. Faults that come
  and go between two reads of one call are not modelled, nor are data
  registers refreshing at the sample rate. So `mpu6050_plot_2.py`'s second
  read of GYRO_ZOUT0 cannot fail once the first succeeded, and it gives the
  same count as the first, where the device might give a newer sample. For the same reason, the case where only the
  second of its two range writes fails cannot happen.
- Console output is modelled in two places only. `Motion.Event` stands for
  the two messages of motion_led.py's `main`; their `:.2f` text is left
  out. The `rangeWarning` flag of `PlotDriver` stands for the fallback
  warnings of mpu6050_plot_2.py. Every other print is left out: the init
  messages, the read-error warnings and the recorder's progress line.
- The `set_*_range` confirmation reads in `mpu6050_plot_2.py`: they only
  feed the printed message.
- Matplotlib plotting and its rolling window in `mpu6050_plot_2.py` are
  left out because they are display only.
- `argparse`, file opening and writing, `time.time` and `time.sleep`. The
  timestamp is a parameter. A run of the recording loop is a finite
  sequence of readings.
- `{:.4f}` number formatting is a parameter `fmt`. It is assumed to write
  neither commas nor newlines (`RecorderDriver.FieldFormatter`).
- The recorder's per-cycle IOError handler (mpu6050_recorder.py:262-264)
  is left out with file writing. Every bus read in the loop catches its own
  errors, so only a failed `f.write` can reach it. It skips the row, sleeps
  one second and retries. The `KeyboardInterrupt` and `finally` paths are
  exit plumbing and are left out too.
- GPIO setup, cleanup and pin toggling. The LED is the boolean `led` output
  of `Motion.Step`.
- IEEE floating-point rounding. The model computes in exact reals.
- `math.sqrt`: the two magnitudes are inputs to the step. The lemmas relate
  them to the squared norms of the readings, given that each is the
  non-negative root.
- Config.ReadAccelRange: `raw` is a boolean. For a `raw` that is neither
  True nor False, mpu6050_plot_2.py returns None and mpu6050_recorder.py a
  decoded value; the model does not cover that case (the same holds for
  `Config.ReadGyroRange`).
- The step from a fully failed LED-driver accelerometer read to the motion
  verdict is stated as two lemmas, not as one lemma about a bus. The first
  is `LedDriver.DegradedAccelIsZero`; the second is
  `Motion.ZeroAccelIsMotion`.

## Findings

| source | as written | input that shows it | evidently intended | confidence | as-written member | corrected member |
|---|---|---|---|---|---|---|
| mpu6050_plot_2.py:210-213 | `get_gyro_data` divides X and Y by the gyro modifier but replaces Z with a fresh, unscaled `read_i2c_word(GYRO_ZOUT0)`; the scaling line for Z is commented out | GYRO_CONFIG = 0x00 and 131 counts (bytes 0x00, 0x83) on each gyro axis: X and Y read 1.0 deg/s, Z reads 131.0 | Z divided by the same modifier as X and Y, as mpu6050_recorder.py:172 does, giving 1.0 deg/s | high (not executed) | PlotDriver.GyroZUnscaled | PlotDriver.GetGyroDataScaled |
