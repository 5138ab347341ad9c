/** The motion monitor of motion_led.py's `main`: every cycle the magnitude
    of the acceleration (m/s^2) is compared with gravity and the magnitude of
    the rotation (deg/s) with a limit; the LED shows the verdict every
    cycle, and a message is printed only when the verdict changes. The two
    magnitudes are square roots; they enter the model as numbers together
    with the fact that they are the non-negative roots of the squared
    norms. */
module Motion {
  import opened Sensor

  /** Deviation from 1 g, in m/s^2, that counts as motion. */
  const ACCEL_DELTA_THRESHOLD: real := 0.4
  /** Rotation rate, in deg/s, that counts as motion. */
  const GYRO_MAG_THRESHOLD: real := 10.0

  /** One cycle's inputs to the decision: `accel_delta` and `gyro_magnitude`. */
  datatype Measure = Measure(accelDelta: real, gyroMag: real)

  /** The two messages `main` prints. */
  datatype Event = MotionDetected(accelDelta: real, gyroMag: real) | Stationary

  /** What one cycle produces: the new `last_state_moving`, the level driven
      on the LED pin, and the message printed, if any. */
  datatype StepOut = StepOut(moving: bool, led: bool, event: Option<Event>)

  function Abs(x: real): real
  {
    if x < 0.0 then -x else x
  }

  /** `is_moving_now`: either threshold strictly exceeded. */
  predicate IsMovingNow(s: Measure)
  {
    s.accelDelta > ACCEL_DELTA_THRESHOLD || s.gyroMag > GYRO_MAG_THRESHOLD
  }

  /** `accel_delta = abs(accel_magnitude - GRAVITIY_MS2)` beside the gyro
      magnitude. */
  function MeasureOf(accelMag: real, gyroMag: real): (s: Measure)
    ensures s.accelDelta >= 0.0 && s.gyroMag == gyroMag
    ensures s.accelDelta == accelMag - GRAVITY || s.accelDelta == GRAVITY - accelMag
  {
    Measure(Abs(accelMag - GRAVITY), gyroMag)
  }

  /** One pass of the `while True` body. The LED follows the verdict on
      every cycle; "Motion Detected!" is printed on a rise and
      "Stationary..." on a fall, and nothing while the verdict holds. */
  function Step(lastMoving: bool, s: Measure): (o: StepOut)
    ensures o.moving == IsMovingNow(s) && o.led == o.moving
    ensures o.event.Some? <==> o.moving != lastMoving
    ensures o.event == Some(Stationary) <==> lastMoving && !o.moving
    ensures o.event.Some? && o.moving ==> o.event.value == MotionDetected(s.accelDelta, s.gyroMag)
  {
    if IsMovingNow(s) then
      StepOut(true, true, if !lastMoving then Some(MotionDetected(s.accelDelta, s.gyroMag)) else None)
    else
      StepOut(false, false, if lastMoving then Some(Stationary) else None)
  }

  // ----------------------------------------------------------- whole runs

  /** The verdict of every cycle. */
  function Classify(ms: seq<Measure>): (bs: seq<bool>)
    ensures |bs| == |ms|
    ensures forall i :: 0 <= i < |ms| ==> bs[i] == IsMovingNow(ms[i])
  {
    seq(|ms|, i requires 0 <= i < |ms| => IsMovingNow(ms[i]))
  }

  /** `last_state_moving` after the cycles `ms`, starting from `start`. */
  function Final(start: bool, ms: seq<Measure>): bool
    decreases |ms|
  {
    if |ms| == 0 then start
    else Step(Final(start, ms[..|ms| - 1]), ms[|ms| - 1]).moving
  }

  /** The LED levels driven over the cycles `ms`, in order. */
  function Leds(start: bool, ms: seq<Measure>): (leds: seq<bool>)
    ensures |leds| == |ms|
    decreases |ms|
  {
    if |ms| == 0 then []
    else
      var n := |ms| - 1;
      Leds(start, ms[..n]) + [Step(Final(start, ms[..n]), ms[n]).led]
  }

  /** The messages printed over the cycles `ms`, in order. */
  function Events(start: bool, ms: seq<Measure>): (es: seq<Event>)
    ensures |es| <= |ms|
    decreases |ms|
  {
    if |ms| == 0 then []
    else
      var n := |ms| - 1;
      var o := Step(Final(start, ms[..n]), ms[n]);
      Events(start, ms[..n]) + (if o.event.Some? then [o.event.value] else [])
  }

  /** The last entry of `bs`, or `start` when `bs` is empty. */
  function Last(start: bool, bs: seq<bool>): bool
  {
    if |bs| == 0 then start else bs[|bs| - 1]
  }

  /** How many adjacent entries of `start` followed by `bs` differ. */
  function Changes(start: bool, bs: seq<bool>): nat
    decreases |bs|
  {
    if |bs| == 0 then 0
    else
      var n := |bs| - 1;
      Changes(start, bs[..n]) + (if bs[n] != Last(start, bs[..n]) then 1 else 0)
  }

  /** The stored state is the verdict of the most recent cycle. */
  lemma FinalIsLastVerdict(start: bool, ms: seq<Measure>)
    ensures Final(start, ms) == Last(start, Classify(ms))
  {
  }

  /** The LED shows every cycle's verdict, not only the changes. */
  lemma {:induction false} LedsFollowVerdicts(start: bool, ms: seq<Measure>)
    ensures Leds(start, ms) == Classify(ms)
    decreases |ms|
  {
    if |ms| > 0 {
      var n := |ms| - 1;
      LedsFollowVerdicts(start, ms[..n]);
      assert Classify(ms) == Classify(ms[..n]) + [IsMovingNow(ms[n])];
    }
  }

  /** One message per change of verdict, counting a change from the initial
      state into the first cycle. */
  lemma {:induction false} EventsCountChanges(start: bool, ms: seq<Measure>)
    ensures |Events(start, ms)| == Changes(start, Classify(ms))
    decreases |ms|
  {
    if |ms| > 0 {
      var n := |ms| - 1;
      EventsCountChanges(start, ms[..n]);
      var bs := Classify(ms);
      assert bs[..n] == Classify(ms[..n]);
      FinalIsLastVerdict(start, ms[..n]);
    }
  }

  /** Starting from not-moving (`last_state_moving = False`), the messages
      alternate: "Motion Detected!" at even positions, "Stationary..." at odd
      ones, and the device is moving exactly when an odd number were
      printed. */
  lemma {:induction false} EventsAlternate(ms: seq<Measure>)
    ensures forall i :: 0 <= i < |Events(false, ms)| ==>
              (Events(false, ms)[i].MotionDetected? <==> i % 2 == 0)
    ensures Final(false, ms) <==> |Events(false, ms)| % 2 == 1
    decreases |ms|
  {
    if |ms| > 0 {
      var n := |ms| - 1;
      EventsAlternate(ms[..n]);
      var before := Events(false, ms[..n]);
      var o := Step(Final(false, ms[..n]), ms[n]);
      assert Events(false, ms) == before + (if o.event.Some? then [o.event.value] else []);
    }
  }

  /** A run that is still for `k` cycles and then moving for the rest prints
      exactly one message: "Motion Detected!" with the values of cycle `k`. */
  lemma {:induction false} SingleCrossing(ms: seq<Measure>, k: nat)
    requires k < |ms|
    requires forall i :: 0 <= i < k ==> !IsMovingNow(ms[i])
    requires forall i :: k <= i < |ms| ==> IsMovingNow(ms[i])
    ensures Events(false, ms) == [MotionDetected(ms[k].accelDelta, ms[k].gyroMag)]
    decreases |ms|
  {
    var n := |ms| - 1;
    if n == k {
      StillRunIsQuiet(ms[..n]);
      FinalIsLastVerdict(false, ms[..n]);
    } else {
      SingleCrossing(ms[..n], k);
      FinalIsLastVerdict(false, ms[..n]);
    }
  }

  /** A run in which nothing ever exceeds a threshold prints nothing and
      ends not-moving. */
  lemma {:induction false} StillRunIsQuiet(ms: seq<Measure>)
    requires forall i :: 0 <= i < |ms| ==> !IsMovingNow(ms[i])
    ensures Events(false, ms) == [] && !Final(false, ms)
    decreases |ms|
  {
    if |ms| > 0 {
      StillRunIsQuiet(ms[..|ms| - 1]);
    }
  }

  /** The `while True` loop over the cycles `ms`: drives the LED, prints on
      changes and carries `last_state_moving`. */
  method Monitor(ms: seq<Measure>) returns (leds: seq<bool>, events: seq<Event>, moving: bool)
    ensures leds == Classify(ms)
    ensures events == Events(false, ms)
    ensures |events| == Changes(false, leds)
    ensures moving == Last(false, leds)
  {
    leds, events, moving := [], [], false;
    var i := 0;
    while i < |ms|
      invariant 0 <= i <= |ms|
      invariant leds == Leds(false, ms[..i])
      invariant events == Events(false, ms[..i])
      invariant moving == Final(false, ms[..i])
    {
      var o := Step(moving, ms[i]);
      assert ms[..i + 1][..i] == ms[..i];
      leds := leds + [o.led];
      if o.event.Some? {
        events := events + [o.event.value];
      }
      moving := o.moving;
      i := i + 1;
    }
    assert ms[..i] == ms;
    LedsFollowVerdicts(false, ms);
    EventsCountChanges(false, ms);
    FinalIsLastVerdict(false, ms);
  }

  // ------------------------------------------------------ sensor readings

  lemma MulPos(a: real, b: real)
    requires a > 0.0 && b > 0.0
    ensures a * b > 0.0
  {
  }

  lemma MulNonneg(a: real, b: real)
    requires a >= 0.0 && b >= 0.0
    ensures a * b >= 0.0
  {
  }

  /** For non-negative reals, order agrees with the order of the squares. */
  lemma SquareLess(a: real, b: real)
    requires a >= 0.0 && b >= 0.0
    ensures a < b <==> a * a < b * b
  {
    if a < b {
      MulNonneg(a, b - a);
      MulPos(b - a, b);
      assert a * (b - a) == a * b - a * a;
      assert (b - a) * b == b * b - a * b;
    } else {
      MulNonneg(b, a - b);
      MulNonneg(a - b, a);
      assert b * (a - b) == b * a - b * b;
      assert (a - b) * a == a * a - b * a;
    }
  }

  /** With the magnitude the non-negative root of the squared norm, the
      acceleration test needs no root: |a| is more than 0.4 away from g
      exactly when |a|^2 lies outside ((g - 0.4)^2, (g + 0.4)^2). */
  lemma AccelTestBySquares(accel: Vec3, accelMag: real)
    requires accelMag >= 0.0 && accelMag * accelMag == NormSq(accel)
    ensures MeasureOf(accelMag, 0.0).accelDelta > ACCEL_DELTA_THRESHOLD <==>
              || NormSq(accel) > (GRAVITY + ACCEL_DELTA_THRESHOLD) * (GRAVITY + ACCEL_DELTA_THRESHOLD)
              || NormSq(accel) < (GRAVITY - ACCEL_DELTA_THRESHOLD) * (GRAVITY - ACCEL_DELTA_THRESHOLD)
  {
    SquareLess(GRAVITY + ACCEL_DELTA_THRESHOLD, accelMag);
    SquareLess(accelMag, GRAVITY - ACCEL_DELTA_THRESHOLD);
  }

  /** Likewise the rotation test: |w| > 10 exactly when |w|^2 > 100. */
  lemma GyroTestBySquares(gyro: Vec3, gyroMag: real)
    requires gyroMag >= 0.0 && gyroMag * gyroMag == NormSq(gyro)
    ensures gyroMag > GYRO_MAG_THRESHOLD <==> NormSq(gyro) > GYRO_MAG_THRESHOLD * GYRO_MAG_THRESHOLD
  {
    SquareLess(GYRO_MAG_THRESHOLD, gyroMag);
  }

  /** Both tests together: the verdict of a cycle from the squared norms of
      its two readings. Readings exactly on a boundary are still. */
  lemma VerdictBySquares(accel: Vec3, gyro: Vec3, accelMag: real, gyroMag: real)
    requires accelMag >= 0.0 && accelMag * accelMag == NormSq(accel)
    requires gyroMag >= 0.0 && gyroMag * gyroMag == NormSq(gyro)
    ensures IsMovingNow(MeasureOf(accelMag, gyroMag)) <==>
              || NormSq(accel) > (GRAVITY + ACCEL_DELTA_THRESHOLD) * (GRAVITY + ACCEL_DELTA_THRESHOLD)
              || NormSq(accel) < (GRAVITY - ACCEL_DELTA_THRESHOLD) * (GRAVITY - ACCEL_DELTA_THRESHOLD)
              || NormSq(gyro) > GYRO_MAG_THRESHOLD * GYRO_MAG_THRESHOLD
  {
    AccelTestBySquares(accel, accelMag);
    GyroTestBySquares(gyro, gyroMag);
  }

  /** At rest, level, with no rotation, `accel_delta` is 0 and the verdict is
      stationary; a verdict exactly on either threshold is stationary too. */
  lemma RestIsStationary()
    ensures GRAVITY * GRAVITY == NormSq(Vec3(0.0, 0.0, GRAVITY))
    ensures MeasureOf(GRAVITY, 0.0) == Measure(0.0, 0.0)
    ensures !IsMovingNow(MeasureOf(GRAVITY, 0.0))
    ensures !IsMovingNow(Measure(ACCEL_DELTA_THRESHOLD, GYRO_MAG_THRESHOLD))
  {
  }

  /** No all-zero guard: a (0, 0, 0) acceleration, which is what the LED
      driver reports when every accelerometer word read fails, has
      magnitude 0, so `accel_delta` is a full 9.80665 and the cycle is
      classified as motion, whatever the gyro says. */
  lemma ZeroAccelIsMotion(accelMag: real, gyroMag: real)
    requires accelMag >= 0.0 && accelMag * accelMag == NormSq(ZERO)
    ensures MeasureOf(accelMag, gyroMag).accelDelta > ACCEL_DELTA_THRESHOLD
    ensures IsMovingNow(MeasureOf(accelMag, gyroMag))
  {
    AccelTestBySquares(ZERO, accelMag);
  }
}
