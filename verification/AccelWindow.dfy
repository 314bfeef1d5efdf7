/** The sliding accelerometer window of MPLSensor.cpp, over reals. */
module AccelWindow {
  import opened Int32

  const ACCEL_WINDOW_SIZE := 10
  const ACCEL_THRESHOLD := 0.2
  const IDLE_POLL_PERIOD := 400000000
  const DEFAULT_POLL_PERIOD := 40000000

  datatype Sample = Sample(x: real, y: real, z: real)

  const ZERO := Sample(0.0, 0.0, 0.0)

  function Plus(a: Sample, b: Sample): Sample {
    Sample(a.x + b.x, a.y + b.y, a.z + b.z)
  }

  function Minus(a: Sample, b: Sample): Sample {
    Sample(a.x - b.x, a.y - b.y, a.z - b.z)
  }

  function Abs(x: real): real {
    if x < 0.0 then -x else x
  }

  /** No axis differs by more than the bound. */
  predicate Near(a: Sample, b: Sample, bound: real) {
    Abs(a.x - b.x) <= bound && Abs(a.y - b.y) <= bound && Abs(a.z - b.z) <= bound
  }

  function Tenfold(a: Sample): Sample {
    Sample(10.0 * a.x, 10.0 * a.y, 10.0 * a.z)
  }

  // ---------------------------------------------------------------- one sample

  datatype Window = Window(full: bool, index: int, sum: Sample, cells: seq<Sample>, period: int)

  ghost predicate ValidWindow(w: Window) {
    |w.cells| == ACCEL_WINDOW_SIZE && 0 <= w.index < ACCEL_WINDOW_SIZE
  }

  /** `resetAccelWindow`: the cells keep their old contents. */
  function Reset(w: Window): Window {
    w.(full := false, index := 0, sum := ZERO)
  }

  /** The first half of `updateAccelWindow`. */
  function Store(w: Window, v: Sample): Window
    requires ValidWindow(w)
  {
    var sum := if w.full then Minus(w.sum, w.cells[w.index]) else w.sum;
    w.(sum := Plus(sum, v), cells := w.cells[w.index := v], full := w.full || w.index == ACCEL_WINDOW_SIZE - 1)
  }

  /** `isDeviceOrientationStable`, asked before the index moves on. */
  predicate Stable(w: Window)
    requires ValidWindow(w)
  {
    if w.period < DEFAULT_POLL_PERIOD then false
    else if w.period == IDLE_POLL_PERIOD then
      Near(w.cells[w.index], w.cells[if w.index > 0 then w.index - 1 else ACCEL_WINDOW_SIZE - 1], ACCEL_THRESHOLD)
    else w.full && Near(Tenfold(w.cells[w.index]), w.sum, 10.0 * ACCEL_THRESHOLD)
  }

  function Advance(w: Window): Window {
    w.(index := (w.index + 1) % ACCEL_WINDOW_SIZE)
  }

  /** `writeAccelFifoRate`: a failed write leaves the period alone. */
  function SetRate(w: Window, delay: int, ok: bool): Window {
    if ok then w.(period := delay) else w
  }

  /** The unstable branch is taken and starts the window over. */
  predicate StartsOver(w: Window, v: Sample, delay: int)
    requires ValidWindow(w)
  {
    !Stable(Store(w, v)) && w.period != delay
  }

  /** `updateAccelWindow`; `delay` is the period the clients ask for. */
  function Update(w: Window, v: Sample, delay: int, ok: bool): Window
    requires ValidWindow(w)
  {
    var t := Advance(Store(w, v));
    if Stable(Store(w, v)) then
      if t.period != IDLE_POLL_PERIOD then SetRate(t, IDLE_POLL_PERIOD, ok) else t
    else if t.period != delay then SetRate(Reset(t), delay, ok)
    else t
  }

  // ---------------------------------------------------------------- against the samples

  function SumOf(samples: seq<Sample>): Sample {
    if samples == [] then ZERO else Plus(SumOf(samples[..|samples| - 1]), samples[|samples| - 1])
  }

  /** The last ten samples, or all of them while there are fewer. */
  function Recent(samples: seq<Sample>): seq<Sample> {
    if |samples| <= ACCEL_WINDOW_SIZE then samples else samples[|samples| - ACCEL_WINDOW_SIZE..]
  }

  /** The cell that the sample of the given number since the reset goes to. */
  function Cell(number: nat): (cell: nat)
    ensures cell < ACCEL_WINDOW_SIZE
  {
    number % ACCEL_WINDOW_SIZE
  }

  predicate Filed(cells: seq<Sample>, samples: seq<Sample>, k: nat)
    requires |cells| == ACCEL_WINDOW_SIZE && k < |samples|
  {
    cells[Cell(k)] == samples[k]
  }

  /** Each of the last ten samples is in its cell. */
  ghost predicate AllFiled(cells: seq<Sample>, samples: seq<Sample>)
    requires |cells| == ACCEL_WINDOW_SIZE
  {
    forall k: nat :: |samples| - ACCEL_WINDOW_SIZE <= k < |samples| ==> Filed(cells, samples, k)
  }

  /** The window holds the samples since its last reset. */
  ghost predicate Tracks(w: Window, samples: seq<Sample>) {
    && ValidWindow(w)
    && w.index == Cell(|samples|)
    && w.full == (|samples| >= ACCEL_WINDOW_SIZE)
    && w.sum == SumOf(Recent(samples))
    && AllFiled(w.cells, samples)
  }

  lemma ResetTracks(w: Window)
    requires ValidWindow(w)
    ensures Tracks(Reset(w), [])
  {
  }

  lemma {:induction false} SumFront(samples: seq<Sample>)
    requires samples != []
    ensures SumOf(samples) == Plus(samples[0], SumOf(samples[1..]))
  {
    if |samples| == 1 {
      assert samples[..0] == [] && samples[1..] == [];
    } else {
      var init := samples[..|samples| - 1];
      SumFront(init);
      assert samples[1..][..|samples| - 2] == init[1..];
    }
  }

  /** Sliding the window by one: the oldest goes out, the newest comes in. */
  lemma SumSlides(samples: seq<Sample>, v: Sample)
    ensures SumOf(Recent(samples + [v]))
      == if |samples| < ACCEL_WINDOW_SIZE then Plus(SumOf(Recent(samples)), v)
         else Plus(Minus(SumOf(Recent(samples)), samples[|samples| - ACCEL_WINDOW_SIZE]), v)
  {
    if |samples| < ACCEL_WINDOW_SIZE {
      SumBack(samples, v);
    } else {
      var recent := samples[|samples| - ACCEL_WINDOW_SIZE..];
      SumFront(recent);
      SumBack(recent[1..], v);
      assert Recent(samples + [v]) == recent[1..] + [v];
      OutAndIn(samples[|samples| - ACCEL_WINDOW_SIZE], SumOf(recent[1..]), v);
    }
  }

  lemma SumBack(samples: seq<Sample>, v: Sample)
    ensures SumOf(samples + [v]) == Plus(SumOf(samples), v)
  {
    assert (samples + [v])[..|samples|] == samples;
  }

  lemma OutAndIn(first: Sample, rest: Sample, v: Sample)
    ensures Plus(Minus(Plus(first, rest), first), v) == Plus(rest, v)
  {
  }

  lemma CellSteps(n: nat)
    ensures Cell(n + 1) == if Cell(n) == ACCEL_WINDOW_SIZE - 1 then 0 else Cell(n) + 1
    ensures Cell(n + ACCEL_WINDOW_SIZE) == Cell(n)
  {
  }

  lemma CellsApart(k: nat, n: nat)
    requires k < n < k + ACCEL_WINDOW_SIZE
    ensures Cell(k) != Cell(n)
  {
  }

  lemma FullAtNine(n: nat)
    ensures n + 1 >= ACCEL_WINDOW_SIZE <==> n >= ACCEL_WINDOW_SIZE || Cell(n) == ACCEL_WINDOW_SIZE - 1
  {
  }

  lemma CellsTrack(cells: seq<Sample>, samples: seq<Sample>, v: Sample)
    requires |cells| == ACCEL_WINDOW_SIZE && AllFiled(cells, samples)
    ensures AllFiled(cells[Cell(|samples|) := v], samples + [v])
  {
    var cells', samples' := cells[Cell(|samples|) := v], samples + [v];
    forall k: nat | |samples'| - ACCEL_WINDOW_SIZE <= k < |samples'|
      ensures Filed(cells', samples', k)
    {
      if k < |samples| {
        assert Filed(cells, samples, k);
        CellsApart(k, |samples|);
      }
    }
  }

  /** The cell about to be overwritten holds the sample that leaves the last ten. */
  lemma OldestIsNext(cells: seq<Sample>, samples: seq<Sample>)
    requires |cells| == ACCEL_WINDOW_SIZE && AllFiled(cells, samples)
    requires |samples| >= ACCEL_WINDOW_SIZE
    ensures cells[Cell(|samples|)] == samples[|samples| - ACCEL_WINDOW_SIZE]
  {
    CellSteps(|samples| - ACCEL_WINDOW_SIZE);
    assert Filed(cells, samples, |samples| - ACCEL_WINDOW_SIZE);
  }

  lemma StoreTracks(w: Window, samples: seq<Sample>, v: Sample)
    requires Tracks(w, samples)
    ensures Tracks(Advance(Store(w, v)), samples + [v])
  {
    StoreSums(w, samples, v);
    CellsTrack(w.cells, samples, v);
    assert |samples + [v]| == |samples| + 1;
    AdvanceIndex(w.index, |samples|);
    FullAtNine(|samples|);
  }

  lemma StoreSums(w: Window, samples: seq<Sample>, v: Sample)
    requires Tracks(w, samples)
    ensures Store(w, v).sum == SumOf(Recent(samples + [v]))
  {
    SumSlides(samples, v);
    if |samples| >= ACCEL_WINDOW_SIZE {
      OldestIsNext(w.cells, samples);
    }
  }

  lemma AdvanceIndex(index: int, n: nat)
    requires index == Cell(n)
    ensures (index + 1) % ACCEL_WINDOW_SIZE == Cell(n + 1)
  {
  }

  // ---------------------------------------------------------------- one update, by the samples

  /** Two samples differ by at most a fifth on every axis. */
  predicate Close(a: Sample, b: Sample) {
    && b.x - 0.2 <= a.x <= b.x + 0.2
    && b.y - 0.2 <= a.y <= b.y + 0.2
    && b.z - 0.2 <= a.z <= b.z + 0.2
  }

  /** The mean of the last ten samples. */
  function Mean(samples: seq<Sample>): Sample
    requires |samples| >= ACCEL_WINDOW_SIZE
  {
    var sum := SumOf(Recent(samples));
    Sample(sum.x / 10.0, sum.y / 10.0, sum.z / 10.0)
  }

  /** The code compares tenfold values, without a division. */
  lemma TenfoldIsMean(v: Sample, sum: Sample)
    ensures Near(Tenfold(v), sum, 10.0 * ACCEL_THRESHOLD)
      <==> Close(v, Sample(sum.x / 10.0, sum.y / 10.0, sum.z / 10.0))
  {
  }

  /** Ten samples at a period not below the default, the newest close to their mean. */
  predicate Quiet(period: int, samples: seq<Sample>, newest: Sample) {
    period >= DEFAULT_POLL_PERIOD && |samples| >= ACCEL_WINDOW_SIZE && Close(newest, Mean(samples))
  }

  lemma QuietIff(period: int, samples: seq<Sample>, newest: Sample)
    requires |samples| >= ACCEL_WINDOW_SIZE
    ensures Quiet(period, samples, newest)
      <==> period >= DEFAULT_POLL_PERIOD && Near(Tenfold(newest), SumOf(Recent(samples)), 10.0 * ACCEL_THRESHOLD)
  {
    TenfoldIsMean(newest, SumOf(Recent(samples)));
  }

  /** While idle the newest sample is compared with the one before it; right after a reset
      there is none, and it is compared with whatever the last cell was left with. */
  lemma IdleComparesNeighbours(w: Window, samples: seq<Sample>, v: Sample)
    requires Tracks(w, samples) && w.period == IDLE_POLL_PERIOD
    ensures Stable(Store(w, v)) <==> Close(v, Previous(w, samples))
  {
    PreviousCell(w, samples);
    NearIsClose(v, Previous(w, samples));
  }

  lemma PreviousCell(w: Window, samples: seq<Sample>)
    requires Tracks(w, samples)
    ensures Previous(w, samples) == w.cells[if w.index > 0 then w.index - 1 else ACCEL_WINDOW_SIZE - 1]
  {
    if samples != [] {
      CellSteps(|samples| - 1);
      assert Filed(w.cells, samples, |samples| - 1);
    }
  }

  lemma NearIsClose(a: Sample, b: Sample)
    ensures Near(a, b, ACCEL_THRESHOLD) <==> Close(a, b)
  {
  }

  /** The sample before, or what the last cell was left with. */
  function Previous(w: Window, samples: seq<Sample>): Sample
    requires ValidWindow(w)
  {
    if samples == [] then w.cells[ACCEL_WINDOW_SIZE - 1] else samples[|samples| - 1]
  }

  /** The device is steady, by the samples since the reset: close to the one before while idle,
      close to the mean of ten otherwise. */
  predicate Steady(w: Window, samples: seq<Sample>, v: Sample)
    requires ValidWindow(w)
  {
    if w.period == IDLE_POLL_PERIOD then Close(v, Previous(w, samples)) else Quiet(w.period, samples + [v], v)
  }

  lemma StableIsSteady(w: Window, samples: seq<Sample>, v: Sample)
    requires Tracks(w, samples)
    ensures Stable(Store(w, v)) <==> Steady(w, samples, v)
  {
    if w.period == IDLE_POLL_PERIOD {
      IdleComparesNeighbours(w, samples, v);
    } else {
      StoreTracks(w, samples, v);
      if |samples + [v]| >= ACCEL_WINDOW_SIZE {
        QuietIff(w.period, samples + [v], v);
      }
    }
  }

  /** Main result: what the period becomes. With the rate write succeeding it is the idle one
      while the device is steady and what the clients ask for when it is not; a failed write
      leaves it alone. */
  lemma PeriodAfterUpdate(w: Window, samples: seq<Sample>, v: Sample, delay: int, ok: bool)
    requires Tracks(w, samples)
    ensures Update(w, v, delay, ok).period
      == if !ok then w.period else if Steady(w, samples, v) then IDLE_POLL_PERIOD else delay
  {
    StableIsSteady(w, samples, v);
  }

  /** The window starts over exactly when an unsteady device has another period than the
      clients ask for. */
  lemma StartsOverIff(w: Window, samples: seq<Sample>, v: Sample, delay: int)
    requires Tracks(w, samples)
    ensures StartsOver(w, v, delay) <==> !Steady(w, samples, v) && w.period != delay
  {
    StableIsSteady(w, samples, v);
  }

  // ---------------------------------------------------------------- whole runs

  /** A reset, a new sample, or a change of the rate from elsewhere. */
  datatype Call = ResetCall | UpdateCall(v: Sample, delay: int, ok: bool) | RateCall(delay: int, ok: bool)

  function After(w: Window, call: Call): (r: Window)
    requires ValidWindow(w)
    ensures ValidWindow(r)
  {
    match call
    case ResetCall => Reset(w)
    case UpdateCall(v, delay, ok) => Update(w, v, delay, ok)
    case RateCall(delay, ok) => SetRate(w, delay, ok)
  }

  function Run(w: Window, calls: seq<Call>): (r: Window)
    requires ValidWindow(w)
    ensures ValidWindow(r)
    decreases |calls|
  {
    if calls == [] then w else After(Run(w, calls[..|calls| - 1]), calls[|calls| - 1])
  }

  /** The samples since the last reset in a run that started at `w` with one. */
  function Since(w: Window, calls: seq<Call>): seq<Sample>
    requires ValidWindow(w)
    decreases |calls|
  {
    if calls == [] then []
    else
      var before := Run(w, calls[..|calls| - 1]);
      match calls[|calls| - 1]
      case ResetCall => []
      case UpdateCall(v, delay, _) =>
        var samples := Since(w, calls[..|calls| - 1]);
        if !Steady(before, samples, v) && before.period != delay then [] else samples + [v]
      case RateCall(_, _) => Since(w, calls[..|calls| - 1])
  }

  /** Main result: from the first reset on, in every run, the sums are those of the samples
      since the last reset, or of the last ten of them. */
  lemma {:induction false} RunTracks(w: Window, calls: seq<Call>)
    requires ValidWindow(w)
    ensures Tracks(Run(Reset(w), calls), Since(Reset(w), calls))
    decreases |calls|
  {
    if calls == [] {
      ResetTracks(w);
    } else {
      var before := Run(Reset(w), calls[..|calls| - 1]);
      RunTracks(w, calls[..|calls| - 1]);
      ResetTracks(before);
      if calls[|calls| - 1].UpdateCall? {
        var samples, call := Since(Reset(w), calls[..|calls| - 1]), calls[|calls| - 1];
        StoreTracks(before, samples, call.v);
        StartsOverIff(before, samples, call.v, call.delay);
      }
    }
  }

  /** An update moves a non-idle period to the idle one exactly when the rate write succeeds
      and either ten samples stand since the reset, the period is no shorter than the default
      and the newest sample is near their mean -- or the device is not stable and the idle
      period is what the clients asked for. */
  lemma IdleExactlyWhen(w: Window, samples: seq<Sample>, v: Sample, delay: int, ok: bool)
    requires Tracks(w, samples) && w.period != IDLE_POLL_PERIOD
    ensures Update(w, v, delay, ok).period == IDLE_POLL_PERIOD
      <==> ok && (Quiet(w.period, samples + [v], v) || delay == IDLE_POLL_PERIOD)
  {
    PeriodAfterUpdate(w, samples, v, delay, ok);
  }

  /** Main result: the same over every run from the first reset on. */
  lemma IdleInRuns(w: Window, calls: seq<Call>, v: Sample, delay: int, ok: bool)
    requires ValidWindow(w)
    ensures var before := Run(Reset(w), calls);
      before.period != IDLE_POLL_PERIOD ==>
        (Update(before, v, delay, ok).period == IDLE_POLL_PERIOD
         <==> ok && (Quiet(before.period, Since(Reset(w), calls) + [v], v) || delay == IDLE_POLL_PERIOD))
  {
    RunTracks(w, calls);
    var before := Run(Reset(w), calls);
    if before.period != IDLE_POLL_PERIOD {
      IdleExactlyWhen(before, Since(Reset(w), calls), v, delay, ok);
    }
  }

  /** Main result: what the period becomes in every run from the first reset on; in particular
      an idle device that is not steady leaves the idle period, unless it is what the clients ask
      for. */
  lemma PeriodInRuns(w: Window, calls: seq<Call>, v: Sample, delay: int, ok: bool)
    requires ValidWindow(w)
    ensures var before := Run(Reset(w), calls);
      Update(before, v, delay, ok).period
        == if !ok then before.period
           else if Steady(before, Since(Reset(w), calls), v) then IDLE_POLL_PERIOD else delay
  {
    RunTracks(w, calls);
    PeriodAfterUpdate(Run(Reset(w), calls), Since(Reset(w), calls), v, delay, ok);
  }

  /** For instance: one jolt takes an idle device at rest to the period the clients ask for. */
  lemma JoltEndsIdleExample()
    ensures var w := Reset(Window(false, 0, ZERO, seq(ACCEL_WINDOW_SIZE, _ => ZERO), IDLE_POLL_PERIOD));
      ValidWindow(w) && Update(w, Sample(9.8, 0.0, 0.0), 40000000, true).period == 40000000
  {
  }

  /** For instance: an empty window at the default period is not stable, yet goes idle when that
      is the period the clients ask for. */
  lemma IdleWhileUnstableExample()
    ensures var w := Window(false, 0, ZERO, seq(ACCEL_WINDOW_SIZE, _ => ZERO), DEFAULT_POLL_PERIOD);
      && ValidWindow(w) && Tracks(w, [])
      && !Stable(Store(w, ZERO))
      && Update(w, ZERO, IDLE_POLL_PERIOD, true).period == IDLE_POLL_PERIOD
  {
  }

  // ---------------------------------------------------------------- the sensor object

  /** `(long)ns / 1000LL`: cut to 32 bits, then divided towards zero. */
  function Micros(ns: int): int {
    var l := Wrap32(ns);
    if l >= 0 then l / 1000 else -(-l / 1000)
  }

  /** The period in whole microseconds, for every period that 32 bits hold. */
  lemma MicrosMeaning(ns: int)
    requires Fits32(ns)
    ensures ns >= 0 ==> Micros(ns) * 1000 <= ns < (Micros(ns) + 1) * 1000
    ensures ns <= 0 ==> (Micros(ns) - 1) * 1000 < ns <= Micros(ns) * 1000
  {
    WrapExact(ns);
  }

  /** Longer periods come out wrong: 2^32 ns and one microsecond are announced as one. */
  lemma MicrosWrapsExample()
    ensures Micros(0x1_0000_0000 + 1000) == 1
  {
    WrapCongruent(0x1_0000_0000 + 1000, 1000);
  }

  /** The window fields of `MPLSensor`. The source's constructor leaves the sum, the cells and
      the period unset; here they may start at any values. */
  class MPLSensor {
    var mWindowFull: bool
    var mAccelWindowIndex: int
    var mAccelWindowSum: Sample
    const mAccelWindow: array<Sample>
    var mPollPeriod: int
    /** The last sample rate announced to the library, and whether motion detection was last
        switched on. */
    var accelSampleRate: int
    var motionDetect: bool

    ghost predicate Valid()
      reads this, mAccelWindow
    {
      ValidWindow(Now())
    }

    ghost function Now(): Window
      reads this, mAccelWindow
    {
      Window(mWindowFull, mAccelWindowIndex, mAccelWindowSum, mAccelWindow[..], mPollPeriod)
    }

    constructor (sum: Sample, period: int)
      ensures Valid() && fresh(mAccelWindow)
      ensures !mWindowFull && mAccelWindowIndex == 0 && mAccelWindowSum == sum && mPollPeriod == period
    {
      mWindowFull, mAccelWindowIndex, mAccelWindowSum, mPollPeriod := false, 0, sum, period;
      accelSampleRate, motionDetect := 0, false;
      mAccelWindow := new Sample[ACCEL_WINDOW_SIZE];
    }

    method ResetAccelWindow()
      requires Valid()
      modifies `mWindowFull, `mAccelWindowIndex, `mAccelWindowSum
      ensures Now() == Reset(old(Now()))
    {
      mWindowFull := false;
      mAccelWindowIndex := 0;
      mAccelWindowSum := ZERO;
    }

    /** `err` is what the sysfs write gives. */
    method WriteAccelFifoRate(ns: int, err: int) returns (code: int)
      modifies `mPollPeriod, `accelSampleRate
      ensures code == err && Now() == SetRate(old(Now()), ns, err > 0)
      ensures accelSampleRate == if err > 0 then Micros(ns) else old(accelSampleRate)
    {
      if err > 0 {
        accelSampleRate := Micros(ns);
        mPollPeriod := ns;
      }
      code := err;
    }

    method IsDeviceOrientationStable() returns (stable: bool)
      requires Valid()
      ensures stable == Stable(Now())
    {
      stable := true;
      var newest := mAccelWindow[mAccelWindowIndex];
      if mPollPeriod < DEFAULT_POLL_PERIOD {
        stable := false;
      } else if IDLE_POLL_PERIOD == mPollPeriod {
        var prevIndex := if mAccelWindowIndex > 0 then mAccelWindowIndex - 1 else ACCEL_WINDOW_SIZE - 1;
        var diff := Minus(newest, mAccelWindow[prevIndex]);
        if Abs(diff.x) > ACCEL_THRESHOLD || Abs(diff.y) > ACCEL_THRESHOLD || Abs(diff.z) > ACCEL_THRESHOLD {
          stable := false;
        }
      } else if !mWindowFull {
        stable := false;
      } else {
        var diff := Minus(Tenfold(newest), mAccelWindowSum);
        var bound := 10.0 * ACCEL_THRESHOLD;
        if Abs(diff.x) > bound || Abs(diff.y) > bound || Abs(diff.z) > bound {
          stable := false;
        }
      }
    }

    /** The part of `updateAccelWindow` before the question of stability. */
    method StoreSample(v: Sample)
      requires Valid()
      modifies `mWindowFull, `mAccelWindowSum, mAccelWindow
      ensures Now() == Store(old(Now()), v)
    {
      if mWindowFull {
        mAccelWindowSum := Minus(mAccelWindowSum, mAccelWindow[mAccelWindowIndex]);
      }
      mAccelWindow[mAccelWindowIndex] := v;
      mAccelWindowSum := Plus(mAccelWindowSum, v);
      if ACCEL_WINDOW_SIZE - 1 == mAccelWindowIndex {
        mWindowFull := true;
      }
    }

    /** `err` is what the sysfs write of a rate gives, should there be one. */
    method UpdateAccelWindow(v: Sample, delay: int, err: int)
      requires Valid()
      modifies this, mAccelWindow
      ensures Valid() && Now() == Update(old(Now()), v, delay, err > 0)
      ensures motionDetect
        == if Stable(Store(old(Now()), v)) then old(motionDetect) || old(mPollPeriod) != IDLE_POLL_PERIOD
           else old(motionDetect) && !StartsOver(old(Now()), v, delay)
    {
      StoreSample(v);
      var stable := IsDeviceOrientationStable();
      mAccelWindowIndex := (mAccelWindowIndex + 1) % ACCEL_WINDOW_SIZE;
      if stable {
        if IDLE_POLL_PERIOD != mPollPeriod {
          var _ := WriteAccelFifoRate(IDLE_POLL_PERIOD, err);
          motionDetect := true;
        }
      } else if mPollPeriod != delay {
        motionDetect := false;
        ResetAccelWindow();
        var _ := WriteAccelFifoRate(delay, err);
      }
    }
  }
}
