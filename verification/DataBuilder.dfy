/** The data builder of data_builder.c: samples come in, callbacks go out. */
module DataBuilder {
  import opened Callbacks
  import opened SensorStatus
  import opened Orientation
  import C = Calibration

  // ---------------------------------------------------------------- dispatch

  predicate Wants(p: Process, mode: bv32) {
    mode & p.required != 0
  }

  /** The entries whose required data the mode offers, in table order. */
  function Due(t: seq<Process>, mode: bv32): seq<Process> {
    if t == [] then []
    else
      var last := t[|t| - 1];
      Due(t[..|t| - 1], mode) + if Wants(last, mode) then [last] else []
  }

  /** The first non-zero code a list of callbacks returns, 0 if there is none. */
  function FirstError(due: seq<Process>, code: nat -> int): int {
    if due == [] then 0
    else
      var before := FirstError(due[..|due| - 1], code);
      if before != 0 then before else code(due[|due| - 1].func)
  }

  lemma {:induction false} DueMembers(t: seq<Process>, mode: bv32)
    ensures forall p :: p in Due(t, mode) <==> p in t && Wants(p, mode)
  {
    if t != [] {
      DueMembers(t[..|t| - 1], mode);
      assert t == t[..|t| - 1] + [t[|t| - 1]];
    }
  }

  /** Callbacks run in priority order. */
  lemma {:induction false} DueOrdered(t: seq<Process>, mode: bv32)
    requires Ordered(t)
    ensures Ordered(Due(t, mode))
  {
    if t != [] {
      var front, last := t[..|t| - 1], t[|t| - 1];
      forall i: nat, j: nat | i < j < |front|
        ensures Before(front, i, j)
      {
        assert Before(t, i, j);
      }
      DueOrdered(front, mode);
      DueMembers(front, mode);
      var due := Due(t, mode);
      forall i: nat, j: nat | i < j < |due|
        ensures Before(due, i, j)
      {
        if j < |Due(front, mode)| {
          assert Before(Due(front, mode), i, j);
        } else {
          assert due[i] in Due(front, mode) && due[j] == last;
          LastAfter(t, due[i]);
        }
      }
    }
  }

  lemma LastAfter(t: seq<Process>, p: Process)
    requires Ordered(t) && t != [] && p in t[..|t| - 1]
    ensures p.priority < t[|t| - 1].priority && p.func != t[|t| - 1].func
  {
    var i: nat :| i < |t| - 1 && t[i] == p;
    assert Before(t, i, |t| - 1);
  }

  /** Callback k returns the error, and all before it succeed. */
  ghost predicate FailsFirst(due: seq<Process>, code: nat -> int, k: nat) {
    && k < |due| && code(due[k].func) == FirstError(due, code) != 0
    && forall i: nat :: i < k ==> code(due[i].func) == 0
  }

  /** The code returned is the first error in call order; zero means none failed. */
  lemma {:induction false} FirstErrorMeaning(due: seq<Process>, code: nat -> int)
    ensures FirstError(due, code) == 0 <==> forall i: nat :: i < |due| ==> code(due[i].func) == 0
    ensures FirstError(due, code) != 0 ==> exists k: nat :: FailsFirst(due, code, k)
  {
    if due != [] {
      var front := due[..|due| - 1];
      FirstErrorMeaning(front, code);
      if FirstError(front, code) != 0 {
        var k: nat :| FailsFirst(front, code, k);
        assert FailsFirst(due, code, k);
      } else if FirstError(due, code) != 0 {
        assert FailsFirst(due, code, |due| - 1);
      }
    }
  }

  lemma ModeAndRequired(m: bv32, r: bv32)
    requires m & !31 == 0
    ensures m & r != 0
      <==> (m & 1 != 0 && r & 1 != 0) || (m & 2 != 0 && r & 2 != 0) || (m & 4 != 0 && r & 4 != 0)
           || (m & 8 != 0 && r & 8 != 0) || (m & 16 != 0 && r & 16 != 0)
  {
  }

  lemma SmallUnion(x: bv32, y: bv32)
    requires x & !31 == 0 && y & !31 == 0
    ensures (x | y) & !31 == 0
  {
    assert (x | y) & !31 == (x & !31) | (y & !31);
  }

  lemma ModeIsSmall(s: Statuses)
    ensures Mode(s) & !31 == 0
  {
    var g: bv32 := if s.gyro & INV_NEW_DATA != 0 then INV_GYRO_NEW else 0;
    var a: bv32 := if s.accel & INV_NEW_DATA != 0 then INV_ACCEL_NEW else 0;
    var c: bv32 := if s.compass & INV_NEW_DATA != 0 then INV_MAG_NEW else 0;
    var t: bv32 := if s.temp & INV_NEW_DATA != 0 then INV_TEMP_NEW else 0;
    var q: bv32 := if s.quat & INV_QUAT_NEW != 0 then INV_QUAT_NEW else 0;
    SmallUnion(g, a);
    SmallUnion(g | a, c);
    SmallUnion(g | a | c, t);
    SmallUnion(g | a | c | t, q);
  }

  /** The sensor is reported by the next execute: new data, or, for the quaternion, an
      earlier batch since it was off. */
  ghost predicate Reported(h: seq<Event>, sensor: Sensor) {
    if sensor.Quat? then Batched(h, sensor) else Pending(h, sensor)
  }

  /** Main result: after any history, an execute calls exactly the registered callbacks that
      require some reported sensor. */
  lemma CallbacksDue(h: seq<Event>, t: seq<Process>, p: Process)
    ensures p in Due(t, Mode(SensorStatus.Run(h)))
      <==> p in t && exists sensor: Sensor :: Has(p.required, Bit(sensor)) && Reported(h, sensor)
  {
    DueMembers(t, Mode(SensorStatus.Run(h)));
    ModeIsSmall(SensorStatus.Run(h));
    ModeAndRequired(Mode(SensorStatus.Run(h)), p.required);
    ModeMeaning(h, Gyro);
    ModeMeaning(h, Accel);
    ModeMeaning(h, Compass);
    ModeMeaning(h, Temp);
    ModeMeaning(h, Sensor.Quat);
    assert Has(p.required, Bit(Gyro)) == (p.required & 2 != 0);
    assert Has(p.required, Bit(Accel)) == (p.required & 1 != 0);
    assert Has(p.required, Bit(Compass)) == (p.required & 4 != 0);
    assert Has(p.required, Bit(Temp)) == (p.required & 8 != 0);
    assert Has(p.required, Bit(Sensor.Quat)) == (p.required & 16 != 0);
  }

  // ---------------------------------------------------------------- the state

  /** One call of a callback, with the status words it saw. */
  datatype Invocation = Invocation(func: nat, seen: Statuses)

  function Invocations(due: seq<Process>, seen: Statuses): (r: seq<Invocation>)
    ensures |r| == |due| && forall i: nat :: i < |due| ==> r[i] == Invocation(due[i].func, seen)
  {
    seq(|due|, i requires 0 <= i < |due| => Invocation(due[i].func, seen))
  }

  /** `(short)x`: the one 16-bit word that is x modulo 2^16. */
  function Short(x: int): (r: int)
    ensures C.Short(r) && (x - r) % 0x1_0000 == 0
  {
    var u := x % 0x1_0000;
    if u < 0x8000 then u else u - 0x1_0000
  }

  function Shorts(v: C.Vector): C.Vector {
    [Short(v[0]), Short(v[1]), Short(v[2])]
  }

  /** All three components are 16-bit words. */
  predicate InShortRange(v: C.Vector) {
    C.Short(v[0]) && C.Short(v[1]) && C.Short(v[2])
  }

  /** Samples in 16-bit range are stored as they come. */
  lemma ShortExact(v: C.Vector)
    ensures Shorts(v) == v <==> InShortRange(v)
  {
  }

  /** `struct inv_single_sensor_t`. */
  class SingleSensor {
    var orientation: bv16
    var sensitivity: int
    var raw: C.Vector
    var rawScaled: C.Vector
    var calibrated: C.Vector
    var status: bv32
    var accuracy: int
    var timestamp: int
    var timestampPrev: int

    constructor ()
      ensures status == 0 && View([0, 0, 0]) == C.Sensor(0, 0, [0, 0, 0], [0, 0, 0], [0, 0, 0], [0, 0, 0])
    {
      orientation, sensitivity, raw, rawScaled, calibrated := 0, 0, [0, 0, 0], [0, 0, 0], [0, 0, 0];
      status, accuracy, timestamp, timestampPrev := 0, 0, 0, 0;
    }

    ghost function View(bias: C.Vector): C.Sensor
      reads this
    {
      C.Sensor(orientation, sensitivity, raw, bias, rawScaled, calibrated)
    }

    /** `inv_apply_calibration`. */
    method ApplyCalibration(bias: C.Vector)
      requires InBounds(orientation)
      modifies this`rawScaled, this`calibrated, this`status
      ensures View(bias) == C.Applied(old(View(bias)))
      ensures status == old(status) | INV_CALIBRATED
    {
      var raw32 := C.Shifted(raw);
      rawScaled := C.ToBodyScaled(orientation, sensitivity * 2, raw32);
      raw32 := [raw32[0] - bias[0] / 2, raw32[1] - bias[1] / 2, raw32[2] - bias[2] / 2];
      assert raw32 == C.Unbiased(raw, bias);
      calibrated := C.ToBodyScaled(orientation, sensitivity * 2, raw32);
      status := status | INV_CALIBRATED;
    }

    /** A sample in device units, cut to 16 bits. */
    method TakeRaw(sample: C.Vector, bias: C.Vector)
      requires InBounds(orientation)
      modifies this`raw, this`rawScaled, this`calibrated, this`status
      ensures View(bias) == C.After(old(View(bias)), C.BuildRaw(Shorts(sample)))
      ensures status == old(status) | INV_RAW_DATA | INV_CALIBRATED
    {
      raw := Shorts(sample);
      status := status | INV_RAW_DATA;
      ApplyCalibration(bias);
    }

    /** A sample calibrated elsewhere. */
    method TakeCalibrated(values: C.Vector, word: bv32, ghost bias: C.Vector)
      requires InBounds(orientation)
      modifies this`calibrated, this`status, this`accuracy
      ensures View(bias) == C.After(old(View(bias)), C.BuildCalibrated(values))
      ensures status == old(status) | INV_CALIBRATED && accuracy == (word & 3) as int
    {
      calibrated := values;
      status := status | INV_CALIBRATED;
      accuracy := (word & 3) as int;
    }

    /** What `inv_build_accel` and `inv_build_compass` do to their sensor; `rawSample` is cut to
        16 bits and calibrated here, `sample` is taken as it is when calibrated elsewhere. */
    method TakeVector(rawSample: C.Vector, sample: C.Vector, word: bv32, t: int, bias: C.Vector)
      requires InBounds(orientation)
      modifies this
      ensures InBounds(orientation) && status == BuiltStatus(old(status), VectorExtra(word))
      ensures View(bias) == C.After(old(View(bias)),
        if word & INV_CALIBRATED == 0 then C.BuildRaw(Shorts(rawSample)) else C.BuildCalibrated(sample))
      ensures accuracy == if word & INV_CALIBRATED == 0 then old(accuracy) else (word & 3) as int
      ensures timestamp == t && timestampPrev == old(timestamp)
    {
      if word & INV_CALIBRATED == 0 {
        TakeRaw(rawSample, bias);
        VectorRawBits(old(status));
      } else {
        TakeCalibrated(sample, word, bias);
        VectorCalibratedBits(old(status));
      }
      status := status | (INV_NEW_DATA | INV_SENSOR_ON);
      Stamp(t);
    }

    /** What `inv_build_gyro` does to its sensor. */
    method TakeGyro(sample: C.Vector, t: int, bias: C.Vector)
      requires InBounds(orientation)
      modifies this
      ensures InBounds(orientation) && status == BuiltStatus(old(status), INV_RAW_DATA | INV_CALIBRATED)
      ensures View(bias) == C.After(old(View(bias)), C.BuildRaw(sample))
      ensures timestamp == t && timestampPrev == old(timestamp)
    {
      raw := sample;
      status := status | (INV_NEW_DATA | INV_RAW_DATA | INV_SENSOR_ON);
      Stamp(t);
      ApplyCalibration(bias);
      GyroBits(old(status));
    }

    method Stamp(t: int)
      modifies this`timestamp, this`timestampPrev
      ensures timestamp == t && timestampPrev == old(timestamp)
    {
      timestampPrev := timestamp;
      timestamp := t;
    }
  }

  class Builder {
    const gyro: SingleSensor
    const accel: SingleSensor
    const compass: SingleSensor
    var tempStatus: bv32
    var tempValue: int
    var tempTimestamp: int
    var tempTimestampPrev: int
    var quatStatus: bv32
    var quatRaw: seq<int>
    var quatTimestamp: int
    /** The saved record. */
    var gyroBias: C.Vector
    var accelBias: C.Vector
    var compassBias: C.Vector
    var gyroAccuracy: int
    var accelAccuracy: int
    var compassAccuracy: int
    var gyroTemp: int
    var gyroBiasTcSet: bool
    const table: CallbackTable
    /** The calls so far that concern the status words. */
    ghost var history: seq<Event>
    /** Every callback made so far. */
    var calls: seq<Invocation>

    ghost predicate Valid()
      reads this, gyro, accel, compass, table, table.process
    {
      && table.Valid()
      && gyro != accel && gyro != compass && accel != compass
      && InBounds(gyro.orientation) && InBounds(accel.orientation) && InBounds(compass.orientation)
      && Now() == SensorStatus.Run(history)
    }

    /** What a callback reads of the sensors' status words. */
    function Now(): Statuses
      reads this, gyro, accel, compass
    {
      Statuses(gyro.status, accel.status, compass.status, tempStatus, quatStatus)
    }

    constructor ()
      ensures Valid() && history == [] && calls == [] && table.Live() == []
      ensures fresh(gyro) && fresh(accel) && fresh(compass) && fresh(table) && fresh(table.process)
    {
      gyro := new SingleSensor();
      accel := new SingleSensor();
      compass := new SingleSensor();
      table := new CallbackTable();
      tempStatus, tempValue, tempTimestamp, tempTimestampPrev := 0, 0, 0, 0;
      quatStatus, quatRaw, quatTimestamp := 0, [0, 0, 0, 0], 0;
      gyroBias, accelBias, compassBias := [0, 0, 0], [0, 0, 0], [0, 0, 0];
      gyroAccuracy, accelAccuracy, compassAccuracy, gyroTemp, gyroBiasTcSet := 0, 0, 0, 0, false;
      calls, history := [], [];
    }

    /** `inv_build_gyro`. */
    method BuildGyro(sample: C.Vector, timestamp: int)
      requires Valid()
      modifies gyro, this`history
      ensures Valid() && history == old(history) + [Built(Gyro, INV_RAW_DATA | INV_CALIBRATED)]
      ensures gyro.View(gyroBias) == C.After(old(gyro.View(gyroBias)), C.BuildRaw(sample))
      ensures gyro.timestamp == timestamp && gyro.timestampPrev == old(gyro.timestamp)
    {
      gyro.TakeGyro(sample, timestamp, gyroBias);
      Record(Built(Gyro, INV_RAW_DATA | INV_CALIBRATED), old(Now()));
    }

    /** `inv_build_accel`: raw samples are cut to 16 bits and calibrated here, others are
        taken as they are. */
    method BuildAccel(sample: C.Vector, status: bv32, timestamp: int)
      requires Valid()
      modifies accel, this`accelAccuracy, this`history
      ensures Valid() && history == old(history) + [Built(Accel, VectorExtra(status))]
      ensures accel.accuracy == (if status & INV_CALIBRATED == 0 then old(accel.accuracy) else (status & 3) as int)
      ensures accelAccuracy == (if status & INV_CALIBRATED == 0 then old(accelAccuracy) else (status & 3) as int)
      ensures accel.View(accelBias) == C.After(old(accel.View(accelBias)),
        if status & INV_CALIBRATED == 0 then C.BuildRaw(Shorts(sample)) else C.BuildCalibrated(sample))
      ensures accel.raw == if status & INV_CALIBRATED != 0 then old(accel.raw)
                           else if InShortRange(sample) then sample else Shorts(sample)
      ensures accel.timestamp == timestamp && accel.timestampPrev == old(accel.timestamp)
    {
      ShortExact(sample);
      accel.TakeVector(sample, sample, status, timestamp, accelBias);
      if status & INV_CALIBRATED != 0 {
        accelAccuracy := (status & 3) as int;
      }
      Record(Built(Accel, VectorExtra(status)), old(Now()));
    }

    /** `inv_build_compass`: like the accelerometer, but a raw sample first goes through the
        soft-iron correction, whose output is `corrected`. */
    method BuildCompass(sample: C.Vector, corrected: C.Vector, status: bv32, timestamp: int)
      requires Valid()
      modifies compass, this`compassAccuracy, this`history
      ensures Valid() && history == old(history) + [Built(Compass, VectorExtra(status))]
      ensures compass.accuracy == (if status & INV_CALIBRATED == 0 then old(compass.accuracy) else (status & 3) as int)
      ensures compassAccuracy == (if status & INV_CALIBRATED == 0 then old(compassAccuracy) else (status & 3) as int)
      ensures compass.View(compassBias) == C.After(old(compass.View(compassBias)),
        if status & INV_CALIBRATED == 0 then C.BuildRaw(Shorts(corrected)) else C.BuildCalibrated(sample))
      ensures compass.raw == if status & INV_CALIBRATED != 0 then old(compass.raw)
                             else if InShortRange(corrected) then corrected else Shorts(corrected)
      ensures compass.timestamp == timestamp && compass.timestampPrev == old(compass.timestamp)
    {
      ShortExact(corrected);
      compass.TakeVector(corrected, sample, status, timestamp, compassBias);
      if status & INV_CALIBRATED != 0 {
        compassAccuracy := (status & 3) as int;
      }
      Record(Built(Compass, VectorExtra(status)), old(Now()));
    }

    /** `inv_build_temp`. */
    method BuildTemp(temp: int, timestamp: int)
      requires Valid()
      modifies this`tempStatus, this`tempValue, this`tempTimestamp, this`tempTimestampPrev, this`history
      ensures Valid() && history == old(history) + [Built(Temp, INV_RAW_DATA)]
      ensures tempValue == temp && tempTimestamp == timestamp && tempTimestampPrev == old(tempTimestamp)
    {
      tempValue := temp;
      tempStatus := tempStatus | (INV_NEW_DATA | INV_RAW_DATA | INV_SENSOR_ON);
      tempTimestampPrev := tempTimestamp;
      tempTimestamp := timestamp;
      TempBits(old(tempStatus));
      Record(Built(Temp, INV_RAW_DATA), old(Now()));
    }

    /** `inv_build_quat`. */
    method BuildQuat(quat: seq<int>, status: bv32, timestamp: int)
      requires Valid() && |quat| == 4
      modifies this`quatStatus, this`quatRaw, this`quatTimestamp, this`history
      ensures Valid() && history == old(history) + [Built(Sensor.Quat, INV_RAW_DATA | (INV_BIAS_APPLIED & status))]
      ensures quatRaw == quat && quatTimestamp == timestamp
    {
      quatRaw := quat;
      quatTimestamp := timestamp;
      quatStatus := QuatStatus(quatStatus, status);
      Record(Built(Sensor.Quat, INV_RAW_DATA | (INV_BIAS_APPLIED & status)), old(Now()));
    }

    /** `inv_gyro_was_turned_off`; the accelerometer's, the compass's and the temperature's twins
        are alike. */
    method GyroWasTurnedOff()
      requires Valid()
      modifies gyro`status, this`history
      ensures Valid() && history == old(history) + [TurnedOff(Gyro)]
    {
      gyro.status := 0;
      Record(TurnedOff(Gyro), old(Now()));
    }

    /** `inv_quaternion_sensor_was_turned_off`. */
    method QuaternionWasTurnedOff()
      requires Valid()
      modifies this`quatStatus, this`history
      ensures Valid() && history == old(history) + [TurnedOff(Sensor.Quat)]
    {
      quatStatus := 0;
      Record(TurnedOff(Sensor.Quat), old(Now()));
    }

    /** `inv_set_gyro_bias` without its message: an unchanged bias is skipped, no bias at all
        leaves it alone. */
    method SetGyroBias(bias: Option<C.Vector>, accuracy: int)
      requires Valid()
      modifies this`gyroBias, this`gyroAccuracy, this`gyroTemp, this`gyroBiasTcSet, this`history
      modifies gyro`rawScaled, gyro`calibrated, gyro`status, gyro`accuracy
      ensures Valid()
      ensures gyro.View(gyroBias)
        == if bias.Some? then C.After(old(gyro.View(gyroBias)), C.SetBias(bias.value)) else old(gyro.View(gyroBias))
      ensures history
        == old(history) + if bias.Some? && bias.value != old(gyroBias) then [BiasChanged(Gyro)] else []
      ensures gyro.accuracy == gyroAccuracy == accuracy && gyroBiasTcSet
      ensures gyroTemp == if tempValue != 0 then tempValue else 27 * 0x1_0000
    {
      if bias.Some? {
        ChangeGyroBias(bias.value);
      }
      SetGyroAccuracy(accuracy);
    }

    /** The rest of it. */
    method SetGyroAccuracy(accuracy: int)
      modifies this`gyroAccuracy, this`gyroTemp, this`gyroBiasTcSet, gyro`accuracy
      ensures gyro.accuracy == gyroAccuracy == accuracy && gyroBiasTcSet
      ensures gyroTemp == if tempValue != 0 then tempValue else 27 * 0x1_0000
    {
      gyro.accuracy := accuracy;
      gyroAccuracy := accuracy;
      gyroTemp := if tempValue != 0 then tempValue else 27 * 0x1_0000;
      gyroBiasTcSet := true;
    }

    /** The comparison, the copy and the calibration in it. */
    method ChangeGyroBias(bias: C.Vector)
      requires Valid()
      modifies this`gyroBias, this`history, gyro`rawScaled, gyro`calibrated, gyro`status
      ensures Valid() && gyro.View(gyroBias) == C.After(old(gyro.View(gyroBias)), C.SetBias(bias))
      ensures history == old(history) + if bias != old(gyroBias) then [BiasChanged(Gyro)] else []
    {
      if gyroBias != bias {
        gyroBias := bias;
        gyro.ApplyCalibration(gyroBias);
        Record(BiasChanged(Gyro), old(Now()));
      }
    }

    /** Keeps the history up to date. */
    ghost method Record(e: Event, was: Statuses)
      requires was == SensorStatus.Run(history) && Now() == SensorStatus.After(was, e)
      modifies this`history
      ensures history == old(history) + [e] && Now() == SensorStatus.Run(history)
    {
      RunStep(history, e);
      history := history + [e];
    }

    /** `inv_execute_on_data`; `code` is what each callback returns. */
    method ExecuteOnData(code: nat -> int) returns (firstError: int)
      requires Valid()
      modifies this`calls, this`history, this`tempStatus, this`quatStatus, gyro`status, accel`status, compass`status
      ensures Valid() && table.Live() == old(table.Live())
      ensures history == old(history) + [Executed]
      ensures var due := Due(table.Live(), Mode(SensorStatus.Run(old(history))));
        && calls == old(calls) + Invocations(due, old(Now()))
        && firstError == FirstError(due, code)
    {
      var mode := CurrentMode();
      firstError := Dispatch(mode, code);
      SetContiguous();
      Record(Executed, old(Now()));
    }

    /** The loop over the callbacks. */
    method Dispatch(mode: bv32, code: nat -> int) returns (firstError: int)
      requires table.Valid()
      modifies this`calls
      ensures var due := Due(table.Live(), mode);
        && calls == old(calls) + Invocations(due, Now())
        && firstError == FirstError(due, code)
    {
      ghost var t, seen, was := table.Live(), Now(), calls;
      firstError := 0;
      for kk := 0 to table.numCb
        invariant Outcome(calls, firstError) == DispatchAll(was, t[..kk], mode, code, seen)
      {
        assert t[..kk + 1][..kk] == t[..kk];
        firstError := Turn(table.process[kk], mode, code, firstError);
      }
      assert t[..table.numCb] == t;
      DispatchMeaning(was, t, mode, code, seen);
    }

    /** The body of the loop for one entry. */
    method Turn(p: Process, mode: bv32, code: nat -> int, error: int) returns (firstError: int)
      modifies this`calls
      ensures Outcome(calls, firstError) == DispatchOne(Outcome(old(calls), error), p, mode, code, Now())
    {
      firstError := error;
      if Wants(p, mode) {
        calls := calls + [Invocation(p.func, Now())];
        var result := code(p.func);
        if result != 0 && firstError == 0 {
          firstError := result;
        }
      }
    }

    /** `mode` of `inv_execute_on_data`. */
    method CurrentMode() returns (mode: bv32)
      ensures mode == Mode(Now())
    {
      mode := 0;
      if gyro.status & INV_NEW_DATA != 0 {
        mode := mode | INV_GYRO_NEW;
      }
      if accel.status & INV_NEW_DATA != 0 {
        mode := mode | INV_ACCEL_NEW;
      }
      if compass.status & INV_NEW_DATA != 0 {
        mode := mode | INV_MAG_NEW;
      }
      if tempStatus & INV_NEW_DATA != 0 {
        mode := mode | INV_TEMP_NEW;
      }
      if quatStatus & INV_QUAT_NEW != 0 {
        mode := mode | INV_QUAT_NEW;
      }
    }

    /** `inv_set_contiguous`. */
    method SetContiguous()
      requires gyro != accel && gyro != compass && accel != compass
      modifies this`tempStatus, this`quatStatus, gyro`status, accel`status, compass`status
      ensures Now() == AllExecuted(old(Now()))
    {
      gyro.status := ExecutedStatus(gyro.status);
      accel.status := ExecutedStatus(accel.status);
      compass.status := ExecutedStatus(compass.status);
      tempStatus := ExecutedStatus(tempStatus);
      quatStatus := ExecutedStatus(quatStatus);
    }
  }

  datatype Option<T> = None | Some(value: T)

  lemma RunStep(h: seq<Event>, e: Event)
    ensures SensorStatus.Run(h + [e]) == SensorStatus.After(SensorStatus.Run(h), e)
  {
    assert (h + [e])[..|h|] == h;
  }

  /** The descriptive bits of an accelerometer or compass sample: it counts as calibrated in
      any case, as raw when it is not calibrated elsewhere. */
  function VectorExtra(status: bv32): (r: bv32)
    ensures Has(r, INV_CALIBRATED) && !Has(r, INV_BIAS_APPLIED)
    ensures Has(r, INV_RAW_DATA) <==> !Has(status, INV_CALIBRATED)
  {
    if status & INV_CALIBRATED == 0 then INV_RAW_DATA | INV_CALIBRATED else INV_CALIBRATED
  }

  lemma GyroBits(s: bv32)
    ensures s | (64 | 128 | 256) | 32 == BuiltStatus(s, 128 | 32)
  {
  }

  lemma VectorRawBits(s: bv32)
    ensures s | 128 | 32 | (64 | 256) == BuiltStatus(s, 128 | 32)
  {
  }

  lemma VectorCalibratedBits(s: bv32)
    ensures s | 32 | (64 | 256) == BuiltStatus(s, 32)
  {
  }

  lemma TempBits(s: bv32)
    ensures s | (64 | 128 | 256) == BuiltStatus(s, 128)
  {
  }

  /** The word of the quaternion after `inv_build_quat`. */
  function QuatStatus(s: bv32, word: bv32): (r: bv32)
    ensures r == BuiltStatus(s, INV_RAW_DATA | (INV_BIAS_APPLIED & word))
  {
    QuatBits(s, word);
    s | (64 | 128 | 256) | (512 & word)
  }

  lemma QuatBits(s: bv32, status: bv32)
    ensures s | (64 | 128 | 256) | (512 & status) == BuiltStatus(s, 128 | (512 & status))
  {
  }

  /** The callback history and the first error so far. */
  datatype Outcome = Outcome(calls: seq<Invocation>, error: int)

  /** The loop over the callbacks as a fold. */
  function DispatchAll(was: seq<Invocation>, t: seq<Process>, mode: bv32, code: nat -> int, seen: Statuses): Outcome {
    if t == [] then Outcome(was, 0)
    else DispatchOne(DispatchAll(was, t[..|t| - 1], mode, code, seen), t[|t| - 1], mode, code, seen)
  }

  function DispatchOne(o: Outcome, p: Process, mode: bv32, code: nat -> int, seen: Statuses): Outcome {
    if !Wants(p, mode) then o
    else Outcome(o.calls + [Invocation(p.func, seen)], if o.error != 0 then o.error else code(p.func))
  }

  lemma OneMore(due: seq<Process>, p: Process, code: nat -> int, seen: Statuses)
    ensures Invocations(due + [p], seen) == Invocations(due, seen) + [Invocation(p.func, seen)]
    ensures FirstError(due + [p], code) == if FirstError(due, code) != 0 then FirstError(due, code) else code(p.func)
  {
    assert (due + [p])[..|due|] == due;
  }

  lemma {:induction false} DispatchMeaning(was: seq<Invocation>, t: seq<Process>, mode: bv32,
                                           code: nat -> int, seen: Statuses)
    ensures var due := Due(t, mode);
      DispatchAll(was, t, mode, code, seen) == Outcome(was + Invocations(due, seen), FirstError(due, code))
  {
    if t != [] {
      var p, due := t[|t| - 1], Due(t[..|t| - 1], mode);
      DispatchMeaning(was, t[..|t| - 1], mode, code, seen);
      OneMore(due, p, code, seen);
      assert was + (Invocations(due, seen) + [Invocation(p.func, seen)])
        == (was + Invocations(due, seen)) + [Invocation(p.func, seen)];
      assert due + [] == due;
    }
  }
}
