/** The hint rate limiter of nvpowerhal.cpp and the interaction boost it keeps up. */
module PowerHints {
  import opened TimeoutPoker
  import opened PokeHandlers

  const MAX_POWER_HINT_COUNT := 0x1f
  /** Numbered by the platform's hardware/power.h, which is not part of this model. */
  const POWER_HINT_INTERACTION := 2
  const INTERACTION_INTERVAL := 90000

  const MS := 1000000
  const CPU_FREQ_MIN := "/dev/cpu_freq_min"

  // ---------------------------------------------------------------- the rate limiter

  /** The difference of two clock readings as `uint64_t`. */
  function Elapsed(last: nat, t: nat): int {
    if t >= last then t - last else t - last + 0x1_0000_0000_0000_0000
  }

  /** It is their difference modulo 2^64. */
  lemma ElapsedMeaning(last: nat, t: nat)
    requires last < 0x1_0000_0000_0000_0000 && t < 0x1_0000_0000_0000_0000
    ensures 0 <= Elapsed(last, t) < 0x1_0000_0000_0000_0000
    ensures exists k :: last + Elapsed(last, t) == t + k * 0x1_0000_0000_0000_0000
  {
    var k := if t >= last then 0 else 1;
    assert last + Elapsed(last, t) == t + k * 0x1_0000_0000_0000_0000;
  }

  /** `check_hint` turns the hint away; zero means "never" and "no limit". */
  predicate Limited(last: nat, interval: nat, t: nat) {
    last != 0 && interval != 0 && Elapsed(last, t) < interval
  }

  /** The accepted ones among hints at the given times. */
  function Accepted(last: nat, interval: nat, times: seq<nat>): seq<nat>
    decreases |times|
  {
    if times == [] then []
    else if Limited(last, interval, times[0]) then Accepted(last, interval, times[1..])
    else [times[0]] + Accepted(times[0], interval, times[1..])
  }

  ghost predicate Ascending(last: nat, times: seq<nat>) {
    && (forall i :: 0 <= i < |times| ==> last <= times[i])
    && (forall i, j :: 0 <= i < j < |times| ==> times[i] <= times[j])
  }

  /** Two accepted hints in a row are at least the interval apart, unless the clock read zero
      at the first. */
  lemma {:induction false} AcceptedApart(last: nat, interval: nat, times: seq<nat>)
    requires Ascending(last, times)
    ensures var a := Accepted(last, interval, times);
      && Ascending(last, a)
      && (a != [] && last != 0 ==> a[0] >= last + interval)
      && forall i :: 0 < i < |a| && a[i - 1] != 0 ==> a[i] >= a[i - 1] + interval
    decreases |times|
  {
    if times != [] {
      if Limited(last, interval, times[0]) {
        AcceptedApart(last, interval, times[1..]);
      } else {
        AcceptedApart(times[0], interval, times[1..]);
      }
    }
  }

  predicate SoonAfter(b: nat, t: nat, interval: nat) {
    b <= t < b + interval
  }

  /** A hint is turned away only when one was accepted less than the interval before. */
  lemma {:induction false} TurnedAwayOnlySoon(last: nat, interval: nat, times: seq<nat>, k: nat)
    requires Ascending(last, times) && k < |times|
    ensures var a := Accepted(last, interval, times);
      times[k] in a || exists b :: (b in a || b == last) && SoonAfter(b, times[k], interval)
    decreases |times|
  {
    var a := Accepted(last, interval, times);
    if Limited(last, interval, times[0]) {
      if k > 0 {
        TurnedAwayOnlySoon(last, interval, times[1..], k - 1);
      } else {
        assert SoonAfter(last, times[0], interval);
      }
    } else if k > 0 {
      TurnedAwayOnlySoon(times[0], interval, times[1..], k - 1);
      if times[k] !in a {
        var b :| (b in Accepted(times[0], interval, times[1..]) || b == times[0]) && SoonAfter(b, times[k], interval);
        assert b in a;
      }
    }
  }

  // ---------------------------------------------------------------- hints and the poker together

  /** The frequencies of the interaction and of the animation boost. */
  datatype Boosts = Boosts(interaction: int, animation: int)

  function InteractionRequest(b: Boosts): Event {
    OpenTimed(CPU_FREQ_MIN, b.interaction, 100 * MS)
  }

  function AnimationRequest(b: Boosts): Event {
    OpenTimed(CPU_FREQ_MIN, b.animation, 1200 * MS)
  }

  /** The poker, `hint_time` of the interaction hint, and for the record the instants of the
      first, the last accepted and the last hint, in nanoseconds. */
  datatype Hal = Hal(poker: Poker, hintTime: nat, began: int, accepted: int, lastHint: int)

  /** The microsecond clock of `check_hint`. */
  function Micros(now: int): int {
    now / 1000
  }

  /** An interaction hint in `common_power_hint`. */
  function Hinted(h: Hal, b: Boosts): Hal
    requires h.poker.now >= 0
  {
    var now := h.poker.now;
    if Limited(h.hintTime, INTERACTION_INTERVAL, Micros(now)) then h.(lastHint := now)
    else Hal(
      Send(Send(h.poker, 0, InteractionRequest(b)), 0, AnimationRequest(b)),
      Micros(now), if h.hintTime == 0 then now else h.began, now, now)
  }

  datatype HalStep = Hint | Poke(step: Step)

  /** No opening request is waiting. */
  ghost predicate Settled(p: Poker) {
    p.thread == Idle && forall k :: k in p.queued ==> p.queued[k].Timeout?
  }

  ghost predicate Possible(h: Hal, s: HalStep) {
    match s
    case Hint => h.poker.now >= 0
    case Poke(step) => OpenInRange(h.poker) && Enabled(h.poker, step)
  }

  function HalNext(h: Hal, s: HalStep, b: Boosts): Hal
    requires Possible(h, s)
  {
    match s
    case Hint => Hinted(h, b)
    case Poke(step) => h.(poker := Next(h.poker, step))
  }

  /** Hints come after the clock's first microsecond and at most `gap` apart, the looper opens
      what is asked before time goes on, and `open` succeeds. */
  ghost predicate Allowed(h: Hal, s: HalStep, gap: nat) {
    && Possible(h, s)
    && match s
      case Hint => h.poker.now >= 1000
      case Poke(Open(fd)) => fd >= 0
      case Poke(Tick(d)) => Settled(h.poker) && (h.hintTime != 0 ==> h.poker.now + d <= h.lastHint + gap)
      case Poke(_) => true
  }

  /** The steps lead from `h` to `h'`. */
  ghost predicate Leads(h: Hal, steps: seq<HalStep>, h': Hal, b: Boosts, gap: nat)
    decreases |steps|
  {
    if steps == [] then h' == h
    else Allowed(h, steps[0], gap) && Leads(HalNext(h, steps[0], b), steps[1..], h', b, gap)
  }

  /** The first moment, with no interaction hint before it. */
  function First(now: int): Hal {
    Hal(Start(now), 0, 0, 0, 0)
  }

  // ---------------------------------------------------------------- coverage

  /** The descriptor holds an interaction boost. */
  predicate Holds(p: Poker, fd: int, b: Boosts)
    requires fd in p.open && p.open[fd] < |p.lives|
  {
    var l := LifeOf(p, fd);
    l.node == CPU_FREQ_MIN && l.val == b.interaction && l.timeout == 100 * MS
  }

  /** An interaction boost is open that was opened at the given instant. */
  ghost predicate BoostSince(p: Poker, since: int, b: Boosts)
    requires OpenInRange(p)
  {
    exists fd :: fd in p.open && Holds(p, fd, b) && LifeOf(p, fd).since == since
  }

  /** An interaction boost is open and its time is not over. */
  ghost predicate Boosted(p: Poker, b: Boosts)
    requires OpenInRange(p)
  {
    exists fd :: fd in p.open && Holds(p, fd, b) && p.now < Expiry(LifeOf(p, fd))
  }

  /** The interaction request of an accepted hint is on its way. */
  ghost predicate Asked(p: Poker, b: Boosts) {
    p.thread == Running(InteractionRequest(b)) || exists k :: k in p.queued && p.queued[k] == InteractionRequest(b)
  }

  /** What the hints so far leave behind. */
  ghost predicate Times(h: Hal) {
    && h.hintTime == Micros(h.accepted)
    && 0 <= h.began <= h.accepted <= h.lastHint <= h.poker.now <= h.lastHint + 10 * MS
    && Micros(h.lastHint) - h.hintTime < INTERACTION_INTERVAL
  }

  ghost predicate CoverInv(h: Hal, b: Boosts) {
    && Inv(h.poker)
    && (h.hintTime != 0 ==>
          && Times(h)
          && (|| BoostSince(h.poker, h.accepted, b)
              || (h.poker.now == h.accepted && Asked(h.poker, b) && (h.accepted == h.began || Boosted(h.poker, b)))))
  }

  /** The boost of the last accepted hint is not over when the next hint may come. */
  lemma NotOver(h: Hal)
    requires Times(h)
    ensures h.poker.now < h.accepted + 100 * MS
  {
  }

  /** A step before a descriptor's time leaves it open. */
  lemma StepStaysOpen(p: Poker, step: Step, fd: int)
    requires Inv(p) && Enabled(p, step) && fd in p.open && Next(p, step).now < Expiry(LifeOf(p, fd))
    ensures var q := Next(p, step);
      fd in q.open && q.open[fd] == p.open[fd] < |q.lives| && LifeOf(q, fd) == LifeOf(p, fd)
  {
  }

  lemma BoostedStays(p: Poker, step: Step, b: Boosts)
    requires Inv(p) && Enabled(p, step) && !step.Tick? && Boosted(p, b)
    ensures OpenInRange(Next(p, step)) && Boosted(Next(p, step), b)
  {
    StepKeeps(p, step);
    var fd :| fd in p.open && Holds(p, fd, b) && p.now < Expiry(LifeOf(p, fd));
    StepStaysOpen(p, step, fd);
  }

  lemma BoostSinceStays(p: Poker, step: Step, since: int, b: Boosts)
    requires Inv(p) && Enabled(p, step) && BoostSince(p, since, b) && Next(p, step).now < since + 100 * MS
    ensures OpenInRange(Next(p, step)) && BoostSince(Next(p, step), since, b)
  {
    StepKeeps(p, step);
    var fd :| fd in p.open && Holds(p, fd, b) && LifeOf(p, fd).since == since;
    StepStaysOpen(p, step, fd);
  }

  /** A request on its way stays on its way until its descriptor is open. */
  lemma AskedStays(p: Poker, step: Step, b: Boosts)
    requires Inv(p) && Enabled(p, step) && !step.Tick? && (step.Open? ==> step.fd >= 0) && Asked(p, b)
    ensures var q := Next(p, step); OpenInRange(q) && (Asked(q, b) || BoostSince(q, p.now, b))
  {
    StepKeeps(p, step);
    var q := Next(p, step);
    if p.thread == Running(InteractionRequest(b)) {
      if step.Open? {
        assert Holds(q, step.fd, b);
      }
    } else {
      var k :| k in p.queued && p.queued[k] == InteractionRequest(b);
      assert k in q.queued ==> q.queued[k] == InteractionRequest(b);
    }
  }

  lemma PokeCovers(h: Hal, step: Step, b: Boosts)
    requires CoverInv(h, b) && Allowed(h, Poke(step), 10 * MS)
    ensures CoverInv(HalNext(h, Poke(step), b), b)
  {
    var p, q := h.poker, Next(h.poker, step);
    StepKeeps(p, step);
    if h.hintTime != 0 {
      NotOver(HalNext(h, Poke(step), b));
      if BoostSince(p, h.accepted, b) {
        BoostSinceStays(p, step, h.accepted, b);
      } else {
        AskedStays(p, step, b);
        if h.accepted != h.began {
          BoostedStays(p, step, b);
        }
      }
    }
  }

  /** A request leaves what is open alone and is on its way, and so are those before it. */
  lemma SendCovers(p: Poker, node: string, val: int, timeout: nat, b: Boosts)
    requires Inv(p)
    ensures var q := Send(p, 0, OpenTimed(node, val, timeout));
      && Inv(q)
      && (Asked(p, b) || OpenTimed(node, val, timeout) == InteractionRequest(b) ==> Asked(q, b))
      && (Boosted(p, b) ==> Boosted(q, b))
  {
    var q := Next(p, Push(node, val, timeout));
    PushKeeps(p, node, val, timeout);
    if Boosted(p, b) {
      BoostedStays(p, Push(node, val, timeout), b);
    }
    if OpenTimed(node, val, timeout) == InteractionRequest(b) {
      assert q.queued[p.key] == InteractionRequest(b);
    } else if Asked(p, b) && p.thread != Running(InteractionRequest(b)) {
      var k :| k in p.queued && p.queued[k] == InteractionRequest(b);
      assert q.queued[k] == InteractionRequest(b);
    }
  }

  lemma HintCovers(h: Hal, b: Boosts)
    requires CoverInv(h, b) && Allowed(h, Hint, 10 * MS)
    ensures CoverInv(HalNext(h, Hint, b), b)
  {
    var h' := HalNext(h, Hint, b);
    if h.hintTime != 0 {
      NotOver(h);
      if BoostSince(h.poker, h.accepted, b) {
        assert Boosted(h.poker, b);
      }
    }
    BothSent(h.poker, b);
  }

  lemma BothSent(p: Poker, b: Boosts)
    requires Inv(p)
    ensures var q := Send(Send(p, 0, InteractionRequest(b)), 0, AnimationRequest(b));
      Inv(q) && Asked(q, b) && (Boosted(p, b) ==> Boosted(q, b))
  {
    SendCovers(p, CPU_FREQ_MIN, b.interaction, 100 * MS, b);
    SendCovers(Send(p, 0, InteractionRequest(b)), CPU_FREQ_MIN, b.animation, 1200 * MS, b);
  }

  // ---------------------------------------------------------------- runs

  lemma {:induction false} LeadsCovers(h: Hal, steps: seq<HalStep>, h': Hal, b: Boosts)
    requires CoverInv(h, b) && Leads(h, steps, h', b, 10 * MS)
    ensures CoverInv(h', b)
    decreases |steps|
  {
    if steps != [] {
      match steps[0] {
        case Hint => HintCovers(h, b);
        case Poke(step) => PokeCovers(h, step, b);
      }
      LeadsCovers(HalNext(h, steps[0], b), steps[1..], h', b);
    }
  }

  /** Main result: from the first interaction hint on, for as long as the hints keep coming at
      most ten milliseconds apart, a descriptor holding the interaction boost frequency is open
      at every instant, whichever hints the limiter turned away -- only in the instant of the
      very first hint the looper may not have opened it yet. */
  lemma AlwaysBoosted(now: int, steps: seq<HalStep>, h: Hal, b: Boosts)
    requires Leads(First(now), steps, h, b, 10 * MS) && h.hintTime != 0
    requires h.poker.now > h.began || Settled(h.poker)
    ensures OpenInRange(h.poker) && Boosted(h.poker, b)
  {
    LeadsCovers(First(now), steps, h, b);
    NotOver(h);
  }

  // ---------------------------------------------------------------- ten milliseconds is tight

  const TEN_MS := 10 * MS
  const LONGER := TEN_MS + 1

  lemma Before(h: Hal, s: HalStep, steps: seq<HalStep>, h': Hal, b: Boosts)
    requires Allowed(h, s, LONGER) && Leads(HalNext(h, s, b), steps, h', b, LONGER)
    ensures Leads(h, [s] + steps, h', b, LONGER)
  {
    assert ([s] + steps)[1..] == steps;
  }

  /** The first hint at one microsecond has been handled: the interaction boost is descriptor
      3, the animation boost descriptor 4. The clock and the last hint have moved on. */
  function AfterFirst(now: int, lastHint: int, b: Boosts): Hal {
    var lives := [
      Life(3, CPU_FREQ_MIN, b.interaction, 1000, 100 * MS, StillOpen),
      Life(4, CPU_FREQ_MIN, b.animation, 1000, 1200 * MS, StillOpen)];
    Hal(Poker(4, map[2 := Timeout(3), 3 := Timeout(4)], map[2 := 1000 + 100 * MS, 3 := 1000 + 1200 * MS],
              map[3 := 0, 4 := 1], lives, 0, now, Idle),
        1, 1000, 1000, lastHint)
  }

  /** A hint turned away after a wait. */
  lemma TurnedAway(now: int, d: nat, steps: seq<HalStep>, h': Hal, b: Boosts)
    requires now >= 1000 && d <= LONGER && now + d < 1000 + 90 * MS
    requires Leads(AfterFirst(now + d, now + d, b), steps, h', b, LONGER)
    ensures Leads(AfterFirst(now, now, b), [Poke(Tick(d))] + ([Hint] + steps), h', b, LONGER)
  {
    Before(AfterFirst(now + d, now, b), Hint, steps, h', b);
    Before(AfterFirst(now, now, b), Poke(Tick(d)), [Hint] + steps, h', b);
  }

  /** n hints turned away ten milliseconds apart. */
  lemma {:induction false} ManyTurnedAway(now: int, n: nat, rest: seq<HalStep>, h': Hal, b: Boosts)
    returns (steps: seq<HalStep>)
    requires 1000 <= now && now + n * TEN_MS < 1000 + 90 * MS
    requires Leads(AfterFirst(now + n * TEN_MS, now + n * TEN_MS, b), rest, h', b, LONGER)
    ensures Leads(AfterFirst(now, now, b), steps, h', b, LONGER)
    decreases n
  {
    if n == 0 {
      steps := rest;
    } else {
      var later := ManyTurnedAway(now + TEN_MS, n - 1, rest, h', b);
      steps := [Poke(Tick(TEN_MS))] + ([Hint] + later);
      TurnedAway(now, TEN_MS, later, h', b);
    }
  }

  /** What the run ends in: a hint would come next, and only the animation boost is open. */
  function Lapsed(b: Boosts): Hal {
    var lives := [
      Life(3, CPU_FREQ_MIN, b.interaction, 1000, 100 * MS, ClosedAt(1000 + 100 * MS)),
      Life(4, CPU_FREQ_MIN, b.animation, 1000, 1200 * MS, StillOpen)];
    Hal(Poker(4, map[3 := Timeout(4)], map[3 := 1000 + 1200 * MS], map[4 := 1], lives, 0, 1000 + 100 * MS, Idle),
        1, 1000, 1000, 1000 + 90 * MS - 1)
  }

  /** The last hint turned away comes a nanosecond before the limiter lets go; then the looper
      closes the boost when it is due. */
  lemma BoostCloses(b: Boosts) returns (steps: seq<HalStep>)
    ensures Leads(AfterFirst(1000 + 100 * MS, 1000 + 90 * MS - 1, b), steps, Lapsed(b), b, LONGER)
  {
    var h0 := AfterFirst(1000 + 100 * MS, 1000 + 90 * MS - 1, b);
    var h1 := HalNext(h0, Poke(Deliver(2)), b);
    var h2 := HalNext(h1, Poke(Remove), b);
    var h3 := HalNext(h2, Poke(Close), b);
    assert h2.poker.queued == map[3 := Timeout(4)] && h2.poker.due == map[3 := 1000 + 1200 * MS];
    assert h3.poker.open == map[4 := 1];
    assert h3.poker.lives == Lapsed(b).poker.lives;
    Before(h2, Poke(Close), [], h3, b);
    Before(h1, Poke(Remove), [Poke(Close)] + [], h3, b);
    Before(h0, Poke(Deliver(2)), [Poke(Remove)] + ([Poke(Close)] + []), h3, b);
    steps := [Poke(Deliver(2))] + ([Poke(Remove)] + ([Poke(Close)] + []));
  }

  /** The first hint is accepted and the looper opens the interaction boost. */
  function AfterOpening(b: Boosts): Hal {
    Hal(Poker(3, map[1 := AnimationRequest(b), 2 := Timeout(3)], map[1 := 1000, 2 := 1000 + 100 * MS],
              map[3 := 0], [Life(3, CPU_FREQ_MIN, b.interaction, 1000, 100 * MS, StillOpen)], 0, 1000, Idle),
        1, 1000, 1000, 1000)
  }

  lemma InteractionOpens(rest: seq<HalStep>, h': Hal, b: Boosts) returns (steps: seq<HalStep>)
    requires Leads(AfterOpening(b), rest, h', b, LONGER)
    ensures Leads(First(1000), steps, h', b, LONGER)
  {
    var h0 := First(1000);
    var h1 := HalNext(h0, Hint, b);
    assert h1.poker.queued == map[0 := InteractionRequest(b), 1 := AnimationRequest(b)];
    var h2 := HalNext(h1, Poke(Deliver(0)), b);
    assert h2.poker.due == map[1 := 1000];
    var h3 := HalNext(h2, Poke(Remove), b);
    assert h3.poker.queued == map[1 := AnimationRequest(b)];
    var h4 := HalNext(h3, Poke(Open(3)), b);
    assert HalNext(h4, Poke(Arm), b) == AfterOpening(b);
    var s3 := [Poke(Open(3))] + ([Poke(Arm)] + rest);
    Before(h4, Poke(Arm), rest, h', b);
    Before(h3, Poke(Open(3)), [Poke(Arm)] + rest, h', b);
    Before(h2, Poke(Remove), s3, h', b);
    Before(h1, Poke(Deliver(0)), [Poke(Remove)] + s3, h', b);
    steps := [Hint] + ([Poke(Deliver(0))] + ([Poke(Remove)] + s3));
    Before(h0, Hint, [Poke(Deliver(0))] + ([Poke(Remove)] + s3), h', b);
  }

  /** The looper is about to run the animation request. */
  function BeforeAnimation(b: Boosts): Hal {
    var h := AfterOpening(b);
    h.(poker := h.poker.(queued := map[2 := Timeout(3)], due := map[2 := 1000 + 100 * MS],
                         thread := Running(AnimationRequest(b))))
  }

  lemma AnimationArrives(rest: seq<HalStep>, h': Hal, b: Boosts) returns (steps: seq<HalStep>)
    requires Leads(BeforeAnimation(b), rest, h', b, LONGER)
    ensures Leads(AfterOpening(b), steps, h', b, LONGER)
  {
    var h0 := AfterOpening(b);
    var h1 := HalNext(h0, Poke(Deliver(1)), b);
    assert h1.poker.due == map[2 := 1000 + 100 * MS];
    assert HalNext(h1, Poke(Remove), b).poker.queued == map[2 := Timeout(3)];
    Before(h1, Poke(Remove), rest, h', b);
    steps := [Poke(Deliver(1))] + ([Poke(Remove)] + rest);
    Before(h0, Poke(Deliver(1)), [Poke(Remove)] + rest, h', b);
  }

  lemma AnimationOpens(rest: seq<HalStep>, h': Hal, b: Boosts) returns (steps: seq<HalStep>)
    requires Leads(AfterFirst(1000, 1000, b), rest, h', b, LONGER)
    ensures Leads(BeforeAnimation(b), steps, h', b, LONGER)
  {
    var h0 := BeforeAnimation(b);
    var h1 := HalNext(h0, Poke(Open(4)), b);
    assert HalNext(h1, Poke(Arm), b) == AfterFirst(1000, 1000, b);
    Before(h1, Poke(Arm), rest, h', b);
    steps := [Poke(Open(4))] + ([Poke(Arm)] + rest);
    Before(h0, Poke(Open(4)), [Poke(Arm)] + rest, h', b);
  }

  /** Main result: ten milliseconds is the limit. With hints allowed one nanosecond further
      apart there is a run, whatever the frequencies, in which the hints keep coming and the
      interaction boost lapses between them. */
  lemma TenMillisecondsIsTight(b: Boosts) returns (steps: seq<HalStep>, h: Hal)
    ensures Leads(First(1000), steps, h, b, LONGER)
    ensures h.hintTime != 0 && h.poker.now <= h.lastHint + LONGER && Settled(h.poker)
    ensures OpenInRange(h.poker) && !Boosted(h.poker, b)
  {
    h := Lapsed(b);
    steps := BoostCloses(b);
    Before(AfterFirst(1000 + 90 * MS - 1, 1000 + 90 * MS - 1, b), Poke(Tick(LONGER)), steps, h, b);
    steps := [Poke(Tick(LONGER))] + steps;
    TurnedAway(1000 + 80 * MS, TEN_MS - 1, steps, h, b);
    steps := [Poke(Tick(TEN_MS - 1))] + ([Hint] + steps);
    steps := ManyTurnedAway(1000, 8, steps, h, b);
    steps := AnimationOpens(steps, h, b);
    steps := AnimationArrives(steps, h, b);
    steps := InteractionOpens(steps, h, b);
  }

  // ---------------------------------------------------------------- the module object

  /** The hint fields of `powerhal_info`. */
  class PowerHal {
    const hintTime: array<nat>
    const hintInterval: array<nat>
    const mTimeoutPoker: PokeHandler
    var boosts: Boosts
    /** The record of interaction hints: the instants of the first, the last accepted and the
        last one. */
    ghost var began: int
    ghost var accepted: int
    ghost var lastHint: int

    ghost predicate Valid()
      reads this, hintTime, hintInterval, mTimeoutPoker
    {
      && hintTime.Length == hintInterval.Length == MAX_POWER_HINT_COUNT
      && hintTime != hintInterval
      && hintInterval[POWER_HINT_INTERACTION] == INTERACTION_INTERVAL
      && Inv(mTimeoutPoker.State())
    }

    ghost function State(): Hal
      requires hintTime.Length == MAX_POWER_HINT_COUNT
      reads this, hintTime, mTimeoutPoker
    {
      Hal(mTimeoutPoker.State(), hintTime[POWER_HINT_INTERACTION], began, accepted, lastHint)
    }

    /** The part of `common_power_open` about hints; `intervals` has those of the other hints. */
    constructor (time: int, b: Boosts, intervals: seq<nat>)
      requires |intervals| == MAX_POWER_HINT_COUNT
      ensures Valid() && fresh(hintTime) && fresh(hintInterval) && fresh(mTimeoutPoker)
      ensures State().poker == Start(time) && forall h :: 0 <= h < MAX_POWER_HINT_COUNT ==> hintTime[h] == 0
      ensures hintInterval[..] == intervals[POWER_HINT_INTERACTION := INTERACTION_INTERVAL]
    {
      var all := intervals[POWER_HINT_INTERACTION := INTERACTION_INTERVAL];
      hintTime := new nat[MAX_POWER_HINT_COUNT](_ => 0);
      hintInterval := new nat[MAX_POWER_HINT_COUNT](h requires 0 <= h < |all| => all[h]);
      mTimeoutPoker := new PokeHandler(time);
      boosts := b;
      began, accepted, lastHint := 0, 0, 0;
    }

    /** `time` is the reading of the monotonic clock in microseconds. */
    method CheckHint(hint: nat, time: nat) returns (result: int, t: nat)
      requires Valid()
      ensures result
        == if hint >= MAX_POWER_HINT_COUNT || Limited(hintTime[hint], hintInterval[hint], time) then -1 else 0
      ensures result == 0 ==> t == time
    {
      t := 0;
      if hint >= MAX_POWER_HINT_COUNT {
        return -1, t;
      }
      if hintTime[hint] != 0 && hintInterval[hint] != 0 && Elapsed(hintTime[hint], time) < hintInterval[hint] {
        return -1, t;
      }
      return 0, time;
    }

    method RequestBoosts()
      requires Inv(mTimeoutPoker.State())
      modifies mTimeoutPoker
      ensures Inv(mTimeoutPoker.State())
      ensures mTimeoutPoker.State() ==
        Send(Send(old(mTimeoutPoker.State()), 0, InteractionRequest(boosts)), 0, AnimationRequest(boosts))
    {
      mTimeoutPoker.RequestPmQosTimed(CPU_FREQ_MIN, boosts.interaction, 100 * MS);
      mTimeoutPoker.RequestPmQosTimed(CPU_FREQ_MIN, boosts.animation, 1200 * MS);
    }

    /** `common_power_hint` with an interaction hint. */
    method InteractionHint()
      requires Valid() && mTimeoutPoker.now >= 0
      modifies this`began, this`accepted, this`lastHint, hintTime, mTimeoutPoker
      ensures Valid() && State() == Hinted(old(State()), boosts)
      ensures forall h :: 0 <= h < MAX_POWER_HINT_COUNT && h != POWER_HINT_INTERACTION ==>
        hintTime[h] == old(hintTime[h])
    {
      var result, t := CheckHint(POWER_HINT_INTERACTION, mTimeoutPoker.now / 1000);
      lastHint := mTimeoutPoker.now;
      if result < 0 {
        return;
      }
      began := if hintTime[POWER_HINT_INTERACTION] == 0 then mTimeoutPoker.now else began;
      accepted := mTimeoutPoker.now;
      RequestBoosts();
      hintTime[POWER_HINT_INTERACTION] := t;
    }
  }
}
