/** `inv_apply_calibration` of data_builder.c and the calibrated copies it caches. */
module Calibration {
  import opened Int32
  import opened Quaternion
  import opened Orientation

  type Vector = s: seq<int> | |s| == 3 witness [0, 0, 0]

  // ---------------------------------------------------------------- the arithmetic

  /** `inv_convert_to_body_with_scale`. */
  function ToBodyScaled(o: bv16, sensitivity: int, v: Vector): Vector
    requires InBounds(o)
  {
    [Q30(v[Column(o, 0)] * Sign(o, 0), sensitivity),
     Q30(v[Column(o, 1)] * Sign(o, 1), sensitivity),
     Q30(v[Column(o, 2)] * Sign(o, 2), sensitivity)]
  }

  function Shifted(raw: Vector): Vector {
    [raw[0] * 0x8000, raw[1] * 0x8000, raw[2] * 0x8000]
  }

  function Unbiased(raw: Vector, bias: Vector): Vector {
    [raw[0] * 0x8000 - bias[0] / 2, raw[1] * 0x8000 - bias[1] / 2, raw[2] * 0x8000 - bias[2] / 2]
  }

  /** The raw sample in body frame, in units of 2^-16. */
  function RawScaled(o: bv16, sensitivity: int, raw: Vector): Vector
    requires InBounds(o)
  {
    ToBodyScaled(o, 2 * sensitivity, Shifted(raw))
  }

  /** The sample less its bias in body frame. */
  function Calibrated(o: bv16, sensitivity: int, raw: Vector, bias: Vector): Vector
    requires InBounds(o)
  {
    ToBodyScaled(o, 2 * sensitivity, Unbiased(raw, bias))
  }

  lemma HalveShifts(a: int, s: int)
    ensures Q30(a * 0x8000, 2 * s) == a * s / 0x4000
  {
    assert a * 0x8000 * (2 * s) == 0x1_0000 * (a * s);
  }

  /** raw_scaled is floor(sign * raw * sensitivity / 2^14), component by component. */
  lemma RawScaledMeaning(o: bv16, sensitivity: int, raw: Vector, i: nat)
    requires InBounds(o) && i < 3
    ensures RawScaled(o, sensitivity, raw)[i] == raw[Column(o, i)] * Sign(o, i) * sensitivity / 0x4000
  {
    var x := raw[Column(o, i)];
    assert Shifted(raw)[Column(o, i)] == x * 0x8000;
    assert x * 0x8000 * Sign(o, i) == x * Sign(o, i) * 0x8000;
    HalveShifts(x * Sign(o, i), sensitivity);
  }

  lemma SignedProduct(x: int, o: bv16, i: nat)
    requires i < 3
    ensures x * Sign(o, i) == x || x * Sign(o, i) == -x
  {
  }

  predicate Short(x: int) {
    -0x8000 <= x < 0x8000
  }

  /** For every 16-bit raw value, 32-bit bias and sensitivity of magnitude at most 2^29
      nothing overflows: the shifted sample, its difference with half the bias, the signed
      and doubled operands, and the products. */
  lemma NothingOverflows(raw: int, bias: int, sensitivity: int, o: bv16, i: nat)
    requires Short(raw) && Fits32(bias) && -0x2000_0000 <= sensitivity <= 0x2000_0000 && i < 3
    ensures Fits32(raw * 0x8000) && Fits32(bias / 2) && Fits32(2 * sensitivity)
    ensures Fits32(raw * 0x8000 - bias / 2) && Fits32((raw * 0x8000 - bias / 2) * Sign(o, i))
    ensures Fits32(raw * 0x8000 * Sign(o, i))
    ensures Fits32(Q30(raw * 0x8000 * Sign(o, i), 2 * sensitivity))
    ensures Fits32(Q30((raw * 0x8000 - bias / 2) * Sign(o, i), 2 * sensitivity))
  {
    SignedProduct(raw * 0x8000, o, i);
    SignedProduct(raw * 0x8000 - bias / 2, o, i);
    ProductFits(raw * 0x8000 * Sign(o, i), 2 * sensitivity);
    ProductFits((raw * 0x8000 - bias / 2) * Sign(o, i), 2 * sensitivity);
  }

  lemma ProductFits(a: int, s: int)
    requires Within(a, 0x7FFF_FFFF) && Within(s, ONE)
    ensures Fits32(Q30(a, s))
  {
    MulWithin(a, s, 0x7FFF_FFFF, ONE);
  }

  /** Calibrating takes the bias off before scaling: against the exact
      sign * (2^16 raw - bias) * sensitivity / 2^30 the result is less than two units off. */
  lemma CalibratedMeaning(o: bv16, sensitivity: int, raw: Vector, bias: Vector, i: nat)
    requires InBounds(o) && i < 3 && Within(sensitivity, ONE)
    ensures Within(
      ONE * Calibrated(o, sensitivity, raw, bias)[i]
        - (0x1_0000 * raw[Column(o, i)] - bias[Column(o, i)]) * Sign(o, i) * sensitivity,
      2 * ONE)
  {
    var c, s := Column(o, i), Sign(o, i);
    var h := raw[c] * 0x8000 - bias[c] / 2;
    assert Calibrated(o, sensitivity, raw, bias)[i] == Q30(h * s, 2 * sensitivity);
    OneUnitOff(h, 0x1_0000 * raw[c] - bias[c], s, sensitivity);
  }

  lemma SplitHalf(h: int, x: int, s: int, k: int)
    ensures h * s * (2 * k) == x * s * k + (2 * h - x) * (s * k)
  {
    var t := s * k;
    assert h * s * (2 * k) == 2 * h * t;
    assert x * s * k == x * t;
    assert (2 * h - x) * t == 2 * h * t - x * t;
  }

  lemma OneUnitOff(h: int, x: int, s: int, sensitivity: int)
    requires (s == 1 || s == -1) && 0 <= 2 * h - x <= 1 && Within(sensitivity, ONE)
    ensures Within(ONE * Q30(h * s, 2 * sensitivity) - x * s * sensitivity, 2 * ONE)
  {
    SplitHalf(h, x, s, sensitivity);
    MulWithin(2 * h - x, s * sensitivity, 1, ONE);
  }

  // ---------------------------------------------------------------- the cached copies

  /** `struct inv_single_sensor_t` with its bias from the saved record. */
  datatype Sensor = Sensor(orientation: bv16, sensitivity: int, raw: Vector, bias: Vector,
                           scaled: Vector, calibrated: Vector)

  /** Recompute both copies from the raw sample and the bias. */
  function Applied(s: Sensor): Sensor
    requires InBounds(s.orientation)
  {
    s.(scaled := RawScaled(s.orientation, s.sensitivity, s.raw),
       calibrated := Calibrated(s.orientation, s.sensitivity, s.raw, s.bias))
  }

  /** The copies are what recomputing them would give. */
  predicate Coherent(s: Sensor) {
    InBounds(s.orientation) && Applied(s) == s
  }

  datatype Call =
    | BuildRaw(raw: Vector)
    | BuildCalibrated(values: Vector)
    | SetBias(bias: Vector)
    | SetOrientation(orientation: bv16, sensitivity: int)
    | LoadSaved(saved: Vector)

  predicate ValidCall(call: Call) {
    call.SetOrientation? ==> InBounds(call.orientation)
  }

  predicate ValidCalls(calls: seq<Call>) {
    forall i :: 0 <= i < |calls| ==> ValidCall(calls[i])
  }

  function After(s: Sensor, call: Call): Sensor
    requires InBounds(s.orientation) && ValidCall(call)
  {
    match call
    case BuildRaw(raw) => Applied(s.(raw := raw))
    case BuildCalibrated(values) => s.(calibrated := values)
    case SetBias(bias) => if bias != s.bias then Applied(s.(bias := bias)) else s
    case SetOrientation(o, sensitivity) => s.(orientation := o, sensitivity := sensitivity)
    case LoadSaved(saved) => s.(bias := saved)
  }

  function Run(s: Sensor, calls: seq<Call>): (r: Sensor)
    requires InBounds(s.orientation) && ValidCalls(calls)
    ensures InBounds(r.orientation)
    decreases |calls|
  {
    if calls == [] then s else After(Run(s, calls[..|calls| - 1]), calls[|calls| - 1])
  }

  /** Applying again changes nothing. */
  lemma AppliedIsCoherent(s: Sensor)
    requires InBounds(s.orientation)
    ensures Coherent(Applied(s))
  {
  }

  predicate KeepsCoherent(call: Call) {
    call.BuildRaw? || call.SetBias?
  }

  /** The exact condition for a bias call: afterwards the copies are right if and only if the
      bias differs from the saved one, so that it is applied, or they were right before. */
  lemma SkipSoundIff(s: Sensor, bias: Vector)
    requires InBounds(s.orientation)
    ensures Coherent(After(s, SetBias(bias))) <==> bias != s.bias || Coherent(s)
  {
    AppliedIsCoherent(s.(bias := bias));
  }

  /** Building from raw data makes the copies coherent, whatever they were; so does setting
      another bias, and setting the saved one keeps them so. */
  lemma CallCoherent(s: Sensor, call: Call)
    requires InBounds(s.orientation) && KeepsCoherent(call)
    requires call.BuildRaw? || call.bias != s.bias || Coherent(s)
    ensures Coherent(After(s, call))
  {
    match call {
      case BuildRaw(raw) =>
        AppliedIsCoherent(s.(raw := raw));
      case SetBias(bias) =>
        SkipSoundIff(s, bias);
    }
  }

  /** Main result: from the first raw build on, with no later orientation, load or externally
      calibrated sample, the copies always equal recomputation from sample and saved bias. */
  lemma {:induction false} CacheCoherence(s: Sensor, raw: Vector, calls: seq<Call>)
    requires InBounds(s.orientation) && ValidCalls(calls)
    requires forall i :: 0 <= i < |calls| ==> KeepsCoherent(calls[i])
    ensures Coherent(Run(After(s, BuildRaw(raw)), calls))
    decreases |calls|
  {
    if calls == [] {
      CallCoherent(s, BuildRaw(raw));
    } else {
      CacheCoherence(s, raw, calls[..|calls| - 1]);
      CallCoherent(Run(After(s, BuildRaw(raw)), calls[..|calls| - 1]), calls[|calls| - 1]);
    }
  }

  // ---------------------------------------------------------------- histories with loads

  /** A raw build, a bias or a load. */
  predicate Tracked(call: Call) {
    call.BuildRaw? || call.SetBias? || call.LoadSaved?
  }

  predicate AllTracked(calls: seq<Call>) {
    forall i :: 0 <= i < |calls| ==> Tracked(calls[i])
  }

  /** The latest sample, `raw` if none came. */
  function LatestRaw(raw: Vector, calls: seq<Call>): Vector {
    if calls == [] then raw
    else if calls[|calls| - 1].BuildRaw? then calls[|calls| - 1].raw
    else LatestRaw(raw, calls[..|calls| - 1])
  }

  /** The latest bias set or loaded. */
  function SavedBias(bias: Vector, calls: seq<Call>): Vector {
    if calls == [] then bias
    else
      match calls[|calls| - 1]
      case SetBias(b) => b
      case LoadSaved(b) => b
      case _ => SavedBias(bias, calls[..|calls| - 1])
  }

  /** The bias at the last refresh: the last raw build, or the last bias set that differed from
      the saved one. */
  function RefreshBias(bias: Vector, calls: seq<Call>): Vector {
    if calls == [] then bias
    else
      var before := calls[..|calls| - 1];
      match calls[|calls| - 1]
      case BuildRaw(_) => SavedBias(bias, before)
      case SetBias(b) => if b != SavedBias(bias, before) then b else RefreshBias(bias, before)
      case _ => RefreshBias(bias, before)
  }

  /** The copies are those of the sample and the given bias. */
  predicate CopiesOf(s: Sensor, bias: Vector) {
    && InBounds(s.orientation)
    && s.scaled == RawScaled(s.orientation, s.sensitivity, s.raw)
    && s.calibrated == Calibrated(s.orientation, s.sensitivity, s.raw, bias)
  }

  /** What one call does to the sample, the saved bias and the copies. */
  lemma CallCopies(s: Sensor, bias: Vector, call: Call)
    requires CopiesOf(s, bias) && Tracked(call)
    ensures var t := After(s, call);
      && t.orientation == s.orientation && t.sensitivity == s.sensitivity
      && t.raw == (if call.BuildRaw? then call.raw else s.raw)
      && t.bias == (if call.SetBias? then call.bias else if call.LoadSaved? then call.saved else s.bias)
      && CopiesOf(t, if call.BuildRaw? then s.bias
                     else if call.SetBias? && call.bias != s.bias then call.bias else bias)
  {
  }

  /** Main result: in every history of raw builds, biases and loads from copies that are right
      on, the copies are those of the latest sample and the bias at the last refresh, whatever
      has been loaded since. */
  lemma {:induction false} CopiesAreOfLastRefresh(s: Sensor, calls: seq<Call>)
    requires Coherent(s) && AllTracked(calls)
    ensures var t := Run(s, calls);
      && t.orientation == s.orientation && t.sensitivity == s.sensitivity
      && t.raw == LatestRaw(s.raw, calls)
      && t.bias == SavedBias(s.bias, calls)
      && CopiesOf(t, RefreshBias(s.bias, calls))
    decreases |calls|
  {
    if calls != [] {
      var before := calls[..|calls| - 1];
      CopiesAreOfLastRefresh(s, before);
      CallCopies(Run(s, before), RefreshBias(s.bias, before), calls[|calls| - 1]);
    }
  }

  /** Two biases calibrate the sensor's sample alike. */
  predicate Alike(s: Sensor, raw: Vector, a: Vector, b: Vector)
    requires InBounds(s.orientation)
  {
    Calibrated(s.orientation, s.sensitivity, raw, a) == Calibrated(s.orientation, s.sensitivity, raw, b)
  }

  /** Hence the copies are right exactly when the bias at the last refresh and the saved one
      calibrate the latest sample alike. */
  lemma CoherentIff(s: Sensor, calls: seq<Call>)
    requires Coherent(s) && AllTracked(calls)
    ensures Coherent(Run(s, calls))
      <==> Alike(s, LatestRaw(s.raw, calls), RefreshBias(s.bias, calls), SavedBias(s.bias, calls))
  {
    CopiesAreOfLastRefresh(s, calls);
  }

  /** Every call only announces the given bias again. */
  predicate OnlyRepeats(bias: Vector, later: seq<Call>) {
    forall i :: 0 <= i < |later| ==> later[i] == SetBias(bias)
  }

  /** Whatever the copies are, raw builds and biases leave them right exactly when one of them
      is not just the saved bias again, or they were right: that bias again changes nothing. */
  lemma {:induction false} RepairedIff(s: Sensor, later: seq<Call>)
    requires InBounds(s.orientation)
    requires forall i :: 0 <= i < |later| ==> KeepsCoherent(later[i])
    ensures ValidCalls(later)
    ensures OnlyRepeats(s.bias, later) ==> Run(s, later) == s
    ensures Coherent(Run(s, later)) <==> !OnlyRepeats(s.bias, later) || Coherent(s)
    decreases |later|
  {
    if later != [] {
      var front, last := later[..|later| - 1], later[|later| - 1];
      RepairedIff(s, front);
      RepeatsStep(s.bias, front, last);
      assert front + [last] == later;
      if !OnlyRepeats(s.bias, front) || last.BuildRaw? {
        CallCoherent(Run(s, front), last);
      } else {
        SkipSoundIff(s, last.bias);
      }
    }
  }

  lemma RepeatsStep(bias: Vector, front: seq<Call>, last: Call)
    ensures OnlyRepeats(bias, front + [last]) <==> OnlyRepeats(bias, front) && last == SetBias(bias)
  {
    assert (front + [last])[|front|] == last;
    assert forall i {:trigger front[i]} :: 0 <= i < |front| ==> (front + [last])[i] == front[i];
  }

  lemma {:induction false} RunAppend(s: Sensor, a: seq<Call>, b: seq<Call>)
    requires InBounds(s.orientation) && ValidCalls(a) && ValidCalls(b)
    ensures Run(s, a + b) == Run(Run(s, a), b)
    decreases |b|
  {
    if b == [] {
      assert a + b == a;
    } else {
      assert (a + b)[..|a + b| - 1] == a + b[..|b| - 1];
      RunAppend(s, a, b[..|b| - 1]);
    }
  }

  lemma AfterLoad(s: Sensor, calls: seq<Call>, saved: Vector)
    requires Coherent(s) && AllTracked(calls)
    ensures Run(s, calls + [LoadSaved(saved)]).bias == saved
    ensures Coherent(Run(s, calls + [LoadSaved(saved)]))
      <==> Alike(s, LatestRaw(s.raw, calls), RefreshBias(s.bias, calls), saved)
  {
    assert (calls + [LoadSaved(saved)])[..|calls|] == calls;
    CopiesAreOfLastRefresh(s, calls + [LoadSaved(saved)]);
  }

  /** Main result: after a load at any point of any such history, and whatever raw builds and
      biases follow, the copies are right exactly when some following call is not just the
      loaded bias again, or the loaded bias happens to calibrate the sample as the one at the
      last refresh does: announcing the loaded bias never repairs them, anything else does. */
  lemma LoadRepairedIff(s: Sensor, calls: seq<Call>, saved: Vector, later: seq<Call>)
    requires Coherent(s) && AllTracked(calls)
    requires forall i :: 0 <= i < |later| ==> KeepsCoherent(later[i])
    ensures ValidCalls(calls + [LoadSaved(saved)] + later)
    ensures Coherent(Run(s, calls + [LoadSaved(saved)] + later))
      <==> !OnlyRepeats(saved, later) || Alike(s, LatestRaw(s.raw, calls), RefreshBias(s.bias, calls), saved)
  {
    AfterLoad(s, calls, saved);
    RepairedIff(Run(s, calls + [LoadSaved(saved)]), later);
    RunAppend(s, calls + [LoadSaved(saved)], later);
  }

  // ---------------------------------------------------------------- histories of all calls

  datatype Mounting = Mounting(orientation: bv16, sensitivity: int)

  function LatestMounting(m: Mounting, calls: seq<Call>): Mounting {
    if calls == [] then m
    else if calls[|calls| - 1].SetOrientation? then
      Mounting(calls[|calls| - 1].orientation, calls[|calls| - 1].sensitivity)
    else LatestMounting(m, calls[..|calls| - 1])
  }

  /** The last call recomputes the copies: a raw build, or a bias other than the saved one. */
  predicate Refreshes(bias: Vector, calls: seq<Call>)
    requires calls != []
  {
    var before, last := calls[..|calls| - 1], calls[|calls| - 1];
    last.BuildRaw? || (last.SetBias? && last.bias != SavedBias(bias, before))
  }

  /** The mounting at the last refresh. */
  function RefreshMounting(m: Mounting, bias: Vector, calls: seq<Call>): Mounting {
    if calls == [] then m
    else if Refreshes(bias, calls) then LatestMounting(m, calls[..|calls| - 1])
    else RefreshMounting(m, bias, calls[..|calls| - 1])
  }

  /** What was last calibrated outside, if that is later than the last refresh. */
  function Outside(bias: Vector, calls: seq<Call>): seq<Vector> {
    if calls == [] then []
    else if Refreshes(bias, calls) then []
    else if calls[|calls| - 1].BuildCalibrated? then [calls[|calls| - 1].values]
    else Outside(bias, calls[..|calls| - 1])
  }

  /** The scaled copy is that of the sample and the mounting, the calibrated one is what came
      from outside, or else that of the sample, the mounting and the bias. */
  predicate Caches(s: Sensor, m: Mounting, bias: Vector, outside: seq<Vector>) {
    && InBounds(m.orientation)
    && s.scaled == RawScaled(m.orientation, m.sensitivity, s.raw)
    && s.calibrated == if outside != [] then outside[0] else Calibrated(m.orientation, m.sensitivity, s.raw, bias)
  }

  /** What one call does to the copies. */
  lemma CallCaches(s: Sensor, m: Mounting, bias: Vector, outside: seq<Vector>, call: Call)
    requires Caches(s, m, bias, outside) && InBounds(s.orientation) && ValidCall(call)
    ensures var t := After(s, call);
      if call.BuildRaw? || (call.SetBias? && call.bias != s.bias) then
        Caches(t, Mounting(s.orientation, s.sensitivity), t.bias, [])
      else
        Caches(t, m, bias, if call.BuildCalibrated? then [call.values] else outside)
  {
  }

  /** Main result: in every history of all calls the sample, the mounting and the bias are the
      latest, and the copies are those of the sample with the mounting and the bias at the last
      refresh, except that a sample calibrated outside stands until the next refresh. */
  lemma {:induction false} CachesInAllHistories(s: Sensor, calls: seq<Call>)
    requires Coherent(s) && ValidCalls(calls)
    ensures var t, m := Run(s, calls), Mounting(s.orientation, s.sensitivity);
      && Mounting(t.orientation, t.sensitivity) == LatestMounting(m, calls)
      && t.raw == LatestRaw(s.raw, calls)
      && t.bias == SavedBias(s.bias, calls)
      && Caches(t, RefreshMounting(m, s.bias, calls), RefreshBias(s.bias, calls), Outside(s.bias, calls))
    decreases |calls|
  {
    if calls != [] {
      var before, m := calls[..|calls| - 1], Mounting(s.orientation, s.sensitivity);
      CachesInAllHistories(s, before);
      CallCaches(Run(s, before), RefreshMounting(m, s.bias, before), RefreshBias(s.bias, before),
        Outside(s.bias, before), calls[|calls| - 1]);
    }
  }

  /** For instance: identity mounting, a bias of two units loaded over none and announced
      again. */
  lemma LoadStaleExample()
    ensures var s := Sensor(0x88, 0x4000, [0, 0, 0], [0, 0, 0], [0, 0, 0], [0, 0, 0]);
      && InBounds(s.orientation)
      && !Coherent(After(After(After(s, BuildRaw([0, 0, 0])), LoadSaved([0x2_0000, 0, 0])), SetBias([0x2_0000, 0, 0])))
  {
    assert Column(0x88, 0) == 0 && Column(0x88, 1) == 1 && Column(0x88, 2) == 2;
    assert Sign(0x88, 0) == 1 && Sign(0x88, 1) == 1 && Sign(0x88, 2) == 1;
    assert Calibrated(0x88, 0x4000, [0, 0, 0], [0x2_0000, 0, 0])[0] == Q30(-0x1_0000, 0x8000) == -2;
    assert Calibrated(0x88, 0x4000, [0, 0, 0], [0, 0, 0])[0] == Q30(0, 0x8000) == 0;
  }
}
