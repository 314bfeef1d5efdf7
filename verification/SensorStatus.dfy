/** The status words of data_builder.c, and what their bits say about the calls so far. */
module SensorStatus {

  const INV_CONTIGUOUS: bv32 := 16
  const INV_CALIBRATED: bv32 := 32
  const INV_NEW_DATA: bv32 := 64
  const INV_RAW_DATA: bv32 := 128
  const INV_SENSOR_ON: bv32 := 256
  const INV_BIAS_APPLIED: bv32 := 512

  const INV_ACCEL_NEW: bv32 := 1
  const INV_GYRO_NEW: bv32 := 2
  const INV_MAG_NEW: bv32 := 4
  const INV_TEMP_NEW: bv32 := 8
  const INV_QUAT_NEW: bv32 := 16

  datatype Sensor = Gyro | Accel | Compass | Temp | Quat

  datatype Statuses = Statuses(gyro: bv32, accel: bv32, compass: bv32, temp: bv32, quat: bv32)

  function Of(s: Statuses, sensor: Sensor): bv32 {
    match sensor
    case Gyro => s.gyro
    case Accel => s.accel
    case Compass => s.compass
    case Temp => s.temp
    case Quat => s.quat
  }

  function With(s: Statuses, sensor: Sensor, status: bv32): Statuses {
    match sensor
    case Gyro => s.(gyro := status)
    case Accel => s.(accel := status)
    case Compass => s.(compass := status)
    case Temp => s.(temp := status)
    case Quat => s.(quat := status)
  }

  // ---------------------------------------------------------------- one call

  /** `inv_build_*` of a sensor, which also sets some of the descriptive bits; a bias that
      `inv_set_*_bias` applies; `inv_*_was_turned_off`; `inv_execute_on_data`. */
  datatype Event =
    | Built(sensor: Sensor, extra: bv32)
    | BiasChanged(sensor: Sensor)
    | TurnedOff(sensor: Sensor)
    | Executed

  function BuiltStatus(status: bv32, extra: bv32): bv32 {
    status | INV_NEW_DATA | INV_SENSOR_ON | (extra & (INV_CALIBRATED | INV_RAW_DATA | INV_BIAS_APPLIED))
  }

  /** `inv_set_contiguous` for one sensor. */
  function ExecutedStatus(status: bv32): bv32 {
    (if status & INV_NEW_DATA != 0 then status | INV_CONTIGUOUS else status) & !INV_NEW_DATA
  }

  function AllExecuted(s: Statuses): Statuses {
    Statuses(ExecutedStatus(s.gyro), ExecutedStatus(s.accel), ExecutedStatus(s.compass),
             ExecutedStatus(s.temp), ExecutedStatus(s.quat))
  }

  /** What a call about one sensor does to its status word. */
  function Changed(status: bv32, e: Event): bv32
    requires !e.Executed?
  {
    match e
    case Built(_, extra) => BuiltStatus(status, extra)
    case BiasChanged(_) => status | INV_CALIBRATED
    case TurnedOff(_) => 0
  }

  function After(s: Statuses, e: Event): Statuses {
    if e.Executed? then AllExecuted(s) else With(s, e.sensor, Changed(Of(s, e.sensor), e))
  }

  function Run(h: seq<Event>): Statuses {
    if h == [] then Statuses(0, 0, 0, 0, 0) else After(Run(h[..|h| - 1]), h[|h| - 1])
  }

  predicate Has(status: bv32, bit: bv32) {
    status & bit != 0
  }

  lemma BuiltBits(status: bv32, extra: bv32)
    ensures var t := BuiltStatus(status, extra);
      && Has(t, INV_NEW_DATA) && Has(t, INV_SENSOR_ON) && (Has(t, INV_CONTIGUOUS) == Has(status, INV_CONTIGUOUS))
  {
  }

  lemma ExecutedBits(status: bv32)
    ensures var t := ExecutedStatus(status);
      && !Has(t, INV_NEW_DATA) && (Has(t, INV_SENSOR_ON) == Has(status, INV_SENSOR_ON))
      && (Has(t, INV_CONTIGUOUS) == (Has(status, INV_CONTIGUOUS) || Has(status, INV_NEW_DATA)))
  {
  }

  lemma BiasBits(status: bv32)
    ensures var t := status | INV_CALIBRATED;
      && (Has(t, INV_NEW_DATA) == Has(status, INV_NEW_DATA)) && (Has(t, INV_SENSOR_ON) == Has(status, INV_SENSOR_ON))
      && (Has(t, INV_CONTIGUOUS) == Has(status, INV_CONTIGUOUS))
  {
  }

  // ---------------------------------------------------------------- what happened

  predicate BuiltAt(h: seq<Event>, i: nat, sensor: Sensor) {
    i < |h| && h[i].Built? && h[i].sensor == sensor
  }

  predicate OffAt(h: seq<Event>, i: nat, sensor: Sensor) {
    i < |h| && h[i].TurnedOff? && h[i].sensor == sensor
  }

  predicate ExecutedAt(h: seq<Event>, i: nat) {
    i < |h| && h[i].Executed?
  }

  /** The sensor was not turned off after event i. */
  ghost predicate StaysOn(h: seq<Event>, i: nat, sensor: Sensor) {
    forall j: nat {:trigger OffAt(h, j, sensor)} :: i < j ==> !OffAt(h, j, sensor)
  }

  ghost predicate NotExecuted(h: seq<Event>, i: nat) {
    forall j: nat {:trigger ExecutedAt(h, j)} :: i < j ==> !ExecutedAt(h, j)
  }

  /** The sensor delivered data since it was last off. */
  ghost predicate On(h: seq<Event>, sensor: Sensor) {
    exists i: nat :: BuiltAt(h, i, sensor) && StaysOn(h, i, sensor)
  }

  /** The sensor delivered data that no execute has processed yet. */
  ghost predicate Pending(h: seq<Event>, sensor: Sensor) {
    exists i: nat :: BuiltAt(h, i, sensor) && StaysOn(h, i, sensor) && NotExecuted(h, i)
  }

  /** Since the sensor was last off an execute has processed data of it. */
  ghost predicate Batched(h: seq<Event>, sensor: Sensor) {
    exists i: nat, j: nat :: BuiltAt(h, i, sensor) && StaysOn(h, i, sensor) && i < j && ExecutedAt(h, j)
  }

  lemma StaysOnStep(g: seq<Event>, e: Event, i: nat, sensor: Sensor)
    requires i < |g|
    ensures StaysOn(g + [e], i, sensor) <==> StaysOn(g, i, sensor) && !(e == TurnedOff(sensor))
    ensures NotExecuted(g + [e], i) <==> NotExecuted(g, i) && !e.Executed?
  {
    var h := g + [e];
    assert forall j: nat :: OffAt(h, j, sensor) <==> if j == |g| then e == TurnedOff(sensor) else OffAt(g, j, sensor);
    assert forall j: nat :: ExecutedAt(h, j) <==> if j == |g| then e.Executed? else ExecutedAt(g, j);
    assert OffAt(h, |g|, sensor) <==> e == TurnedOff(sensor);
    assert ExecutedAt(h, |g|) <==> e.Executed?;
  }

  lemma OnStep(g: seq<Event>, e: Event, sensor: Sensor)
    ensures On(g + [e], sensor) <==> (e.Built? && e.sensor == sensor) || (On(g, sensor) && e != TurnedOff(sensor))
  {
    var h := g + [e];
    if e.Built? && e.sensor == sensor {
      assert BuiltAt(h, |g|, sensor) && StaysOn(h, |g|, sensor);
    }
    if On(g, sensor) && e != TurnedOff(sensor) {
      var i: nat :| BuiltAt(g, i, sensor) && StaysOn(g, i, sensor);
      StaysOnStep(g, e, i, sensor);
      assert BuiltAt(h, i, sensor);
    }
    if On(h, sensor) && !(e.Built? && e.sensor == sensor) {
      var i: nat :| BuiltAt(h, i, sensor) && StaysOn(h, i, sensor);
      StaysOnStep(g, e, i, sensor);
      assert BuiltAt(g, i, sensor);
    }
  }

  lemma PendingStep(g: seq<Event>, e: Event, sensor: Sensor)
    ensures Pending(g + [e], sensor)
      <==> (e.Built? && e.sensor == sensor) || (Pending(g, sensor) && e != TurnedOff(sensor) && !e.Executed?)
  {
    var h := g + [e];
    if e.Built? && e.sensor == sensor {
      assert BuiltAt(h, |g|, sensor) && StaysOn(h, |g|, sensor) && NotExecuted(h, |g|);
    }
    if Pending(g, sensor) && e != TurnedOff(sensor) && !e.Executed? {
      var i: nat :| BuiltAt(g, i, sensor) && StaysOn(g, i, sensor) && NotExecuted(g, i);
      StaysOnStep(g, e, i, sensor);
      assert BuiltAt(h, i, sensor);
    }
    if Pending(h, sensor) && !(e.Built? && e.sensor == sensor) {
      var i: nat :| BuiltAt(h, i, sensor) && StaysOn(h, i, sensor) && NotExecuted(h, i);
      StaysOnStep(g, e, i, sensor);
      assert BuiltAt(g, i, sensor);
    }
  }

  lemma BatchedStep(g: seq<Event>, e: Event, sensor: Sensor)
    ensures Batched(g + [e], sensor)
      <==> e != TurnedOff(sensor) && (Batched(g, sensor) || (On(g, sensor) && e.Executed?))
  {
    var h := g + [e];
    if e != TurnedOff(sensor) && Batched(g, sensor) {
      var i: nat, j: nat :| BuiltAt(g, i, sensor) && StaysOn(g, i, sensor) && i < j && ExecutedAt(g, j);
      StaysOnStep(g, e, i, sensor);
      assert BuiltAt(h, i, sensor) && ExecutedAt(h, j);
    }
    if e.Executed? && On(g, sensor) {
      var i: nat :| BuiltAt(g, i, sensor) && StaysOn(g, i, sensor);
      StaysOnStep(g, e, i, sensor);
      assert BuiltAt(h, i, sensor) && ExecutedAt(h, |g|);
    }
    if Batched(h, sensor) {
      var i: nat, j: nat :| BuiltAt(h, i, sensor) && StaysOn(h, i, sensor) && i < j && ExecutedAt(h, j);
      StaysOnStep(g, e, i, sensor);
      assert BuiltAt(g, i, sensor);
      if j < |g| {
        assert ExecutedAt(g, j);
      }
    }
  }

  /** Data since the last off is either waiting or has been processed. */
  lemma OnIsPendingOrBatched(h: seq<Event>, sensor: Sensor)
    ensures On(h, sensor) <==> Pending(h, sensor) || Batched(h, sensor)
  {
    if On(h, sensor) {
      var i: nat :| BuiltAt(h, i, sensor) && StaysOn(h, i, sensor);
      if !NotExecuted(h, i) {
        var j: nat :| i < j && ExecutedAt(h, j);
      }
    }
  }

  /** Main result: after every history of calls the three bits of each sensor say exactly
      that it is on, that new data waits, and that an earlier batch preceded. */
  lemma {:induction false} StatusMeaning(h: seq<Event>, sensor: Sensor)
    ensures var status := Of(Run(h), sensor);
      && (Has(status, INV_SENSOR_ON) <==> On(h, sensor))
      && (Has(status, INV_NEW_DATA) <==> Pending(h, sensor))
      && (Has(status, INV_CONTIGUOUS) <==> Batched(h, sensor))
  {
    if h != [] {
      var g, e := h[..|h| - 1], h[|h| - 1];
      assert h == g + [e];
      StatusMeaning(g, sensor);
      StatusStep(g, e, sensor);
    }
  }

  predicate BuildsSensor(e: Event, sensor: Sensor) {
    e.Built? && e.sensor == sensor
  }

  function StatusAfter(status: bv32, e: Event, sensor: Sensor): bv32 {
    if e.Executed? then ExecutedStatus(status)
    else if e.sensor != sensor then status
    else Changed(status, e)
  }

  lemma OfWith(s: Statuses, a: Sensor, status: bv32, b: Sensor)
    ensures Of(With(s, a, status), b) == if a == b then status else Of(s, b)
  {
  }

  lemma OfAllExecuted(s: Statuses, sensor: Sensor)
    ensures Of(AllExecuted(s), sensor) == ExecutedStatus(Of(s, sensor))
  {
  }

  lemma OfAfter(s: Statuses, e: Event, sensor: Sensor)
    ensures Of(After(s, e), sensor) == StatusAfter(Of(s, sensor), e, sensor)
  {
    if e.Executed? {
      OfAllExecuted(s, sensor);
    } else {
      OfWith(s, e.sensor, Changed(Of(s, e.sensor), e), sensor);
    }
  }

  lemma ZeroBits()
    ensures !Has(0, INV_SENSOR_ON) && !Has(0, INV_NEW_DATA) && !Has(0, INV_CONTIGUOUS)
  {
  }

  /** What a call about one sensor does to the three bits of its status word. */
  lemma ChangedBits(was: bv32, e: Event)
    requires !e.Executed?
    ensures Has(Changed(was, e), INV_SENSOR_ON) == (e.Built? || (Has(was, INV_SENSOR_ON) && !e.TurnedOff?))
    ensures Has(Changed(was, e), INV_NEW_DATA) == (e.Built? || (Has(was, INV_NEW_DATA) && !e.TurnedOff?))
    ensures Has(Changed(was, e), INV_CONTIGUOUS) == (Has(was, INV_CONTIGUOUS) && !e.TurnedOff?)
  {
    match e
    case Built(_, extra) => BuiltBits(was, extra);
    case BiasChanged(_) => BiasBits(was);
    case TurnedOff(_) => ZeroBits();
  }

  /** How one call changes the three bits of a status word. */
  lemma StatusAfterBits(was: bv32, e: Event, sensor: Sensor)
    ensures var now := StatusAfter(was, e, sensor);
      && Has(now, INV_SENSOR_ON) == (BuildsSensor(e, sensor) || (Has(was, INV_SENSOR_ON) && e != TurnedOff(sensor)))
      && Has(now, INV_NEW_DATA)
        == (BuildsSensor(e, sensor) || (Has(was, INV_NEW_DATA) && e != TurnedOff(sensor) && !e.Executed?))
      && Has(now, INV_CONTIGUOUS)
        == (e != TurnedOff(sensor) && (Has(was, INV_CONTIGUOUS) || (e.Executed? && Has(was, INV_NEW_DATA))))
  {
    if e.Executed? {
      ExecutedBits(was);
    } else {
      ChangedBits(was, e);
    }
  }

  /** The same for a sensor's word among all. */
  lemma AfterBits(s: Statuses, e: Event, sensor: Sensor)
    ensures var was, now := Of(s, sensor), Of(After(s, e), sensor);
      && Has(now, INV_SENSOR_ON) == (BuildsSensor(e, sensor) || (Has(was, INV_SENSOR_ON) && e != TurnedOff(sensor)))
      && Has(now, INV_NEW_DATA)
        == (BuildsSensor(e, sensor) || (Has(was, INV_NEW_DATA) && e != TurnedOff(sensor) && !e.Executed?))
      && Has(now, INV_CONTIGUOUS)
        == (e != TurnedOff(sensor) && (Has(was, INV_CONTIGUOUS) || (e.Executed? && Has(was, INV_NEW_DATA))))
  {
    OfAfter(s, e, sensor);
    StatusAfterBits(Of(s, sensor), e, sensor);
  }

  lemma StatusStep(g: seq<Event>, e: Event, sensor: Sensor)
    requires var status := Of(Run(g), sensor);
      && (Has(status, INV_SENSOR_ON) <==> On(g, sensor))
      && (Has(status, INV_NEW_DATA) <==> Pending(g, sensor))
      && (Has(status, INV_CONTIGUOUS) <==> Batched(g, sensor))
    ensures var status := Of(After(Run(g), e), sensor);
      && (Has(status, INV_SENSOR_ON) <==> On(g + [e], sensor))
      && (Has(status, INV_NEW_DATA) <==> Pending(g + [e], sensor))
      && (Has(status, INV_CONTIGUOUS) <==> Batched(g + [e], sensor))
  {
    OnStep(g, e, sensor);
    PendingStep(g, e, sensor);
    BatchedStep(g, e, sensor);
    OnIsPendingOrBatched(g, sensor);
    AfterBits(Run(g), e, sensor);
  }

  /** New or contiguous data implies the sensor is on, and none is new after an execute. */
  lemma StatusSafety(h: seq<Event>, sensor: Sensor)
    ensures var status := Of(Run(h), sensor);
      Has(status, INV_NEW_DATA) || Has(status, INV_CONTIGUOUS) ==> Has(status, INV_SENSOR_ON)
    ensures !Has(Of(Run(h + [Executed]), sensor), INV_NEW_DATA)
  {
    StatusMeaning(h, sensor);
    OnIsPendingOrBatched(h, sensor);
    StatusMeaning(h + [Executed], sensor);
    PendingStep(h, Executed, sensor);
  }

  /** Callbacks of the execute that follows `h` see new data that is not contiguous exactly
      in the first batch since the sensor was off. */
  lemma FirstBatch(h: seq<Event>, sensor: Sensor)
    ensures var status := Of(Run(h), sensor);
      Has(status, INV_NEW_DATA) && !Has(status, INV_CONTIGUOUS) <==> On(h, sensor) && !Batched(h, sensor)
  {
    StatusMeaning(h, sensor);
    OnIsPendingOrBatched(h, sensor);
  }

  // ---------------------------------------------------------------- the descriptive bits

  /** The call sets the descriptive bit. */
  predicate Sets(e: Event, sensor: Sensor, bit: bv32) {
    || (e.Built? && e.sensor == sensor && Has(e.extra, bit))
    || (e.BiasChanged? && e.sensor == sensor && bit == INV_CALIBRATED)
  }

  predicate SetAt(h: seq<Event>, i: nat, sensor: Sensor, bit: bv32) {
    i < |h| && Sets(h[i], sensor, bit)
  }

  /** Some call since the sensor was last off sets the bit. */
  ghost predicate Described(h: seq<Event>, sensor: Sensor, bit: bv32) {
    exists i: nat :: SetAt(h, i, sensor, bit) && StaysOn(h, i, sensor)
  }

  predicate Descriptive(bit: bv32) {
    bit == INV_CALIBRATED || bit == INV_RAW_DATA || bit == INV_BIAS_APPLIED
  }

  lemma DescribedStep(g: seq<Event>, e: Event, sensor: Sensor, bit: bv32)
    ensures Described(g + [e], sensor, bit)
      <==> Sets(e, sensor, bit) || (Described(g, sensor, bit) && e != TurnedOff(sensor))
  {
    var h := g + [e];
    if Sets(e, sensor, bit) {
      assert SetAt(h, |g|, sensor, bit) && StaysOn(h, |g|, sensor);
    }
    if Described(g, sensor, bit) && e != TurnedOff(sensor) {
      var i: nat :| SetAt(g, i, sensor, bit) && StaysOn(g, i, sensor);
      StaysOnStep(g, e, i, sensor);
      assert SetAt(h, i, sensor, bit);
    }
    if Described(h, sensor, bit) && !Sets(e, sensor, bit) {
      var i: nat :| SetAt(h, i, sensor, bit) && StaysOn(h, i, sensor);
      StaysOnStep(g, e, i, sensor);
      assert SetAt(g, i, sensor, bit);
    }
  }

  lemma BuiltKeepsOrSets(status: bv32, extra: bv32)
    ensures Has(BuiltStatus(status, extra), INV_CALIBRATED)
      == (Has(status, INV_CALIBRATED) || Has(extra, INV_CALIBRATED))
    ensures Has(BuiltStatus(status, extra), INV_RAW_DATA) == (Has(status, INV_RAW_DATA) || Has(extra, INV_RAW_DATA))
    ensures Has(BuiltStatus(status, extra), INV_BIAS_APPLIED)
      == (Has(status, INV_BIAS_APPLIED) || Has(extra, INV_BIAS_APPLIED))
  {
  }

  lemma BiasSetsOne(status: bv32)
    ensures Has(status | INV_CALIBRATED, INV_CALIBRATED)
    ensures Has(status | INV_CALIBRATED, INV_RAW_DATA) == Has(status, INV_RAW_DATA)
    ensures Has(status | INV_CALIBRATED, INV_BIAS_APPLIED) == Has(status, INV_BIAS_APPLIED)
  {
  }

  lemma ExecuteKeeps(status: bv32)
    ensures Has(ExecutedStatus(status), INV_CALIBRATED) == Has(status, INV_CALIBRATED)
    ensures Has(ExecutedStatus(status), INV_RAW_DATA) == Has(status, INV_RAW_DATA)
    ensures Has(ExecutedStatus(status), INV_BIAS_APPLIED) == Has(status, INV_BIAS_APPLIED)
  {
  }

  /** Building sets the bits it is given and keeps the others. */
  lemma BuiltDescribes(was: bv32, extra: bv32, bit: bv32)
    requires Descriptive(bit)
    ensures Has(BuiltStatus(was, extra), bit) == (Has(extra, bit) || Has(was, bit))
  {
    BuiltKeepsOrSets(was, extra);
  }

  lemma BiasDescribes(was: bv32, bit: bv32)
    requires Descriptive(bit)
    ensures Has(was | INV_CALIBRATED, bit) == (bit == INV_CALIBRATED || Has(was, bit))
  {
    BiasSetsOne(was);
  }

  lemma ChangeDescribes(was: bv32, e: Event, bit: bv32)
    requires Descriptive(bit) && !e.Executed?
    ensures Has(Changed(was, e), bit) == (Sets(e, e.sensor, bit) || (Has(was, bit) && !e.TurnedOff?))
  {
    match e
    case Built(_, extra) => BuiltDescribes(was, extra, bit);
    case BiasChanged(_) => BiasDescribes(was, bit);
    case TurnedOff(_) => NoBits(bit);
  }

  lemma DescriptiveAfter(was: bv32, e: Event, sensor: Sensor, bit: bv32)
    requires Descriptive(bit)
    ensures Has(StatusAfter(was, e, sensor), bit)
      == (Sets(e, sensor, bit) || (Has(was, bit) && e != TurnedOff(sensor)))
  {
    if e.Executed? {
      ExecuteKeeps(was);
    } else if e.sensor == sensor {
      ChangeDescribes(was, e, bit);
    }
  }

  lemma NoBits(bit: bv32)
    ensures !Has(0, bit)
  {
  }

  /** Main result: after every history of calls each descriptive bit of a sensor -- calibrated,
      raw, bias applied -- stands exactly when some call since the sensor was last off set it. */
  lemma {:induction false} DescriptionMeaning(h: seq<Event>, sensor: Sensor, bit: bv32)
    requires Descriptive(bit)
    ensures Has(Of(Run(h), sensor), bit) <==> Described(h, sensor, bit)
  {
    if h == [] {
      NoBits(bit);
    } else {
      var g, e := h[..|h| - 1], h[|h| - 1];
      assert h == g + [e];
      DescriptionMeaning(g, sensor, bit);
      DescribedStep(g, e, sensor, bit);
      OfAfter(Run(g), e, sensor);
      DescriptiveAfter(Of(Run(g), sensor), e, sensor, bit);
    }
  }

  // ---------------------------------------------------------------- which callbacks are due

  /** The mode word of `inv_execute_on_data`. The quaternion is asked about bit 16, which
      in a status word is INV_CONTIGUOUS. */
  function Mode(s: Statuses): bv32 {
    (if s.gyro & INV_NEW_DATA != 0 then INV_GYRO_NEW else 0)
    | (if s.accel & INV_NEW_DATA != 0 then INV_ACCEL_NEW else 0)
    | (if s.compass & INV_NEW_DATA != 0 then INV_MAG_NEW else 0)
    | (if s.temp & INV_NEW_DATA != 0 then INV_TEMP_NEW else 0)
    | (if s.quat & INV_QUAT_NEW != 0 then INV_QUAT_NEW else 0)
  }

  function Bit(sensor: Sensor): bv32 {
    match sensor
    case Gyro => INV_GYRO_NEW
    case Accel => INV_ACCEL_NEW
    case Compass => INV_MAG_NEW
    case Temp => INV_TEMP_NEW
    case Quat => INV_QUAT_NEW
  }

  lemma ModeBits(g: bool, a: bool, c: bool, t: bool, q: bool)
    ensures var m: bv32 := (if g then 2 else 0) | (if a then 1 else 0) | (if c then 4 else 0)
        | (if t then 8 else 0) | (if q then 16 else 0);
      && (m & 2 != 0) == g && (m & 1 != 0) == a && (m & 4 != 0) == c && (m & 8 != 0) == t && (m & 16 != 0) == q
  {
  }

  /** A sensor's mode bit is set exactly when it has new data -- except that the quaternion's
      is set exactly when an earlier execute has processed quaternion data since it was off. */
  lemma ModeMeaning(h: seq<Event>, sensor: Sensor)
    ensures Has(Mode(Run(h)), Bit(sensor)) <==> if sensor.Quat? then Batched(h, sensor) else Pending(h, sensor)
  {
    var s := Run(h);
    ModeBits(s.gyro & INV_NEW_DATA != 0, s.accel & INV_NEW_DATA != 0, s.compass & INV_NEW_DATA != 0,
      s.temp & INV_NEW_DATA != 0, s.quat & INV_QUAT_NEW != 0);
    StatusMeaning(h, sensor);
  }

  /** So quaternion callbacks run exactly on new data if and only if new data and an earlier
      batch coincide: the first batch is never dispatched, later ones also without new data. */
  lemma QuatDispatchIff(h: seq<Event>)
    ensures (Has(Mode(Run(h)), INV_QUAT_NEW) <==> Pending(h, Quat)) <==> (Pending(h, Quat) <==> Batched(h, Quat))
  {
    ModeMeaning(h, Quat);
  }

  lemma QuatFirstBatchMissed(extra: bv32)
    ensures Pending([Built(Quat, extra)], Quat) && !Has(Mode(Run([Built(Quat, extra)])), INV_QUAT_NEW)
    ensures var h := [Built(Quat, extra), Executed]; !Pending(h, Quat) && Has(Mode(Run(h)), INV_QUAT_NEW)
  {
    var g: seq<Event>, e := [], Built(Quat, extra);
    assert g + [e] == [e] && [e] + [Executed] == [e, Executed];
    PendingStep(g, e, Quat);
    BatchedStep(g, e, Quat);
    OnStep(g, e, Quat);
    ModeMeaning([e], Quat);
    PendingStep([e], Executed, Quat);
    BatchedStep([e], Executed, Quat);
    ModeMeaning([e, Executed], Quat);
  }
}
