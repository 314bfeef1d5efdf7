/** The timed QoS requests of timeoutpoker.cpp: a keyed event table served by one looper
    thread, with events pushed from any thread in between. */
module TimeoutPoker {

  /** The events of timeoutpoker.h: open a QoS node for a while, close it again. */
  datatype Event =
    | OpenTimed(node: string, val: int, timeout: nat)
    | Timeout(fd: int)

  datatype Ending = StillOpen | ClosedAt(time: int)

  /** One descriptor from its opening to its closing. */
  datatype Life = Life(fd: int, node: string, val: int, since: int, timeout: nat, end: Ending)

  /** Where the looper thread is in `handleMessage`: waiting, about to look the key up, about
      to run the event, or holding a descriptor it has opened and not yet scheduled to close. */
  datatype Thread = Idle | Received(key: nat) | Running(event: Event) | Holding(fd: int, timeout: nat)

  /** `mKey`, `mQueuedEvents`, the looper's undelivered messages with the time each is due,
      the process's open descriptors (each with the number of its life), every life so far,
      the number of `close` calls on a descriptor that was not open, the clock and the looper
      thread. */
  datatype Poker = Poker(
    key: nat, queued: map<nat, Event>, due: map<nat, int>,
    open: map<int, nat>, lives: seq<Life>, stray: nat, now: int, thread: Thread)

  /** What can happen next. */
  datatype Step =
    | Tick(d: nat)
    | Push(node: string, val: int, timeout: nat)
    | Deliver(key: nat)
    | Remove
    | Open(fd: int)
    | Close
    | Arm

  // ---------------------------------------------------------------- the operations

  /** `sendEventDelayed`, atomic under the lock. */
  function Send(p: Poker, delay: nat, e: Event): Poker {
    p.(key := p.key + 1, queued := p.queued[p.key := e], due := p.due[p.key := p.now + delay])
  }

  /** `open` gave `fd`; the life starts. */
  function Opened(p: Poker, fd: int, e: Event): Poker
    requires e.OpenTimed?
  {
    p.(open := p.open[fd := |p.lives|],
       lives := p.lives + [Life(fd, e.node, e.val, p.now, e.timeout, StillOpen)])
  }

  ghost predicate OpenInRange(p: Poker) {
    forall fd :: fd in p.open ==> p.open[fd] < |p.lives|
  }

  /** `close(fd)`. */
  function Closed(p: Poker, fd: int): Poker
    requires fd in p.open ==> p.open[fd] < |p.lives|
  {
    if fd in p.open then
      p.(open := p.open - {fd},
         lives := p.lives[p.open[fd] := p.lives[p.open[fd]].(end := ClosedAt(p.now))])
    else
      p.(stray := p.stray + 1)
  }

  /** The looper delivers a message once and not before it is due; `open` gives a negative
      number or a descriptor the process does not have open. */
  predicate Enabled(p: Poker, step: Step) {
    match step
    case Tick(_) => true
    case Push(_, _, _) => true
    case Deliver(key) => p.thread == Idle && key in p.due && p.due[key] <= p.now
    case Remove => p.thread.Received?
    case Open(fd) => p.thread.Running? && p.thread.event.OpenTimed? && fd !in p.open
    case Close => p.thread.Running? && p.thread.event.Timeout?
    case Arm => p.thread.Holding?
  }

  function Next(p: Poker, step: Step): Poker
    requires Enabled(p, step) && OpenInRange(p)
  {
    match step
    case Tick(d) => p.(now := p.now + d)
    case Push(node, val, timeout) => Send(p, 0, OpenTimed(node, val, timeout))
    case Deliver(key) => p.(due := p.due - {key}, thread := Received(key))
    case Remove => Removed(p)
    case Open(fd) =>
      if fd < 0 then p.(thread := Idle)
      else Opened(p, fd, p.thread.event).(thread := Holding(fd, p.thread.event.timeout))
    case Close => Closed(p, p.thread.event.fd).(thread := Idle)
    case Arm => Send(p, p.thread.timeout, Timeout(p.thread.fd)).(thread := Idle)
  }

  /** `removeEventByKey`, atomic under the lock; without an event there is nothing to run. */
  function Removed(p: Poker): Poker
    requires p.thread.Received?
  {
    if p.thread.key in p.queued then
      p.(queued := p.queued - {p.thread.key}, thread := Running(p.queued[p.thread.key]))
    else
      p.(thread := Idle)
  }

  // ---------------------------------------------------------------- what every step keeps

  /** A closing event for the descriptor is in the table. */
  ghost predicate Armed(p: Poker, fd: int) {
    exists k :: k in p.queued && p.queued[k] == Timeout(fd)
  }

  /** The looper thread is on its way from opening the descriptor or to closing it. */
  predicate InHand(t: Thread, fd: int) {
    (t.Holding? && t.fd == fd) || t == Running(Timeout(fd))
  }

  /** The life of an open descriptor. */
  function LifeOf(p: Poker, fd: int): Life
    requires fd in p.open && p.open[fd] < |p.lives|
  {
    p.lives[p.open[fd]]
  }

  function Expiry(l: Life): int {
    l.since + l.timeout
  }

  /** The keys of the table are those of the undelivered messages and of the one in delivery,
      and the next key is new. */
  ghost predicate KeysMatch(p: Poker) {
    && (forall k :: k in p.queued <==> k in p.due || p.thread == Received(k))
    && (forall k :: k in p.queued ==> k < p.key)
    && (p.thread.Received? ==> p.thread.key !in p.due)
  }

  /** The open descriptors are the lives that have not ended. */
  ghost predicate LivesMatch(p: Poker) {
    && (forall fd :: fd in p.open ==>
          0 <= fd && p.open[fd] < |p.lives| && LifeOf(p, fd).fd == fd && LifeOf(p, fd).end == StillOpen)
    && (forall i :: 0 <= i < |p.lives| && p.lives[i].end == StillOpen ==>
          p.lives[i].fd in p.open && p.open[p.lives[i].fd] == i)
    && (forall i :: 0 <= i < |p.lives| ==> p.lives[i].since <= p.now)
    && p.stray == 0
  }

  /** No life ended before its time. */
  ghost predicate NoneEarly(p: Poker) {
    forall i :: 0 <= i < |p.lives| && p.lives[i].end.ClosedAt? ==>
      Expiry(p.lives[i]) <= p.lives[i].end.time <= p.now
  }

  /** A closing event is for an open descriptor and is due no earlier than its time. */
  ghost predicate TimeoutsDue(p: Poker)
    requires OpenInRange(p)
  {
    forall k :: k in p.queued && p.queued[k].Timeout? ==>
      && p.queued[k].fd in p.open
      && Expiry(LifeOf(p, p.queued[k].fd)) <= if k in p.due then p.due[k] else p.now
  }

  ghost predicate OneEach(p: Poker) {
    forall j, k :: j in p.queued && k in p.queued && p.queued[j].Timeout? && p.queued[j] == p.queued[k] ==> j == k
  }

  /** Every open descriptor has a closing event or is in the looper thread's hands, not both. */
  ghost predicate Watched(p: Poker) {
    && (forall fd :: fd in p.open ==> Armed(p, fd) || InHand(p.thread, fd))
    && (forall fd :: InHand(p.thread, fd) ==> !Armed(p, fd))
  }

  ghost predicate ThreadFits(p: Poker)
    requires OpenInRange(p)
  {
    match p.thread
    case Holding(fd, timeout) => fd in p.open && LifeOf(p, fd).timeout == timeout
    case Running(Timeout(fd)) => fd in p.open && Expiry(LifeOf(p, fd)) <= p.now
    case _ => true
  }

  ghost predicate Inv(p: Poker) {
    && KeysMatch(p) && LivesMatch(p) && NoneEarly(p)
    && TimeoutsDue(p) && OneEach(p) && Watched(p) && ThreadFits(p)
  }

  function Start(now: int): Poker {
    Poker(0, map[], map[], map[], [], 0, now, Idle)
  }

  lemma TickKeeps(p: Poker, d: nat)
    requires Inv(p)
    ensures Inv(Next(p, Tick(d)))
  {
    var q := Next(p, Tick(d));
    assert forall fd :: fd in p.open ==> (Armed(p, fd) <==> Armed(q, fd));
  }

  lemma PushKeeps(p: Poker, node: string, val: int, timeout: nat)
    requires Inv(p)
    ensures Inv(Next(p, Push(node, val, timeout)))
  {
    var q := Next(p, Push(node, val, timeout));
    SendArms(p, 0, OpenTimed(node, val, timeout));
  }

  /** A new event arms its own descriptor and no other. */
  lemma SendArms(p: Poker, delay: nat, e: Event)
    requires KeysMatch(p)
    ensures forall fd :: Armed(Send(p, delay, e), fd) <==> Armed(p, fd) || e == Timeout(fd)
  {
    var q := Send(p, delay, e);
    forall fd
      ensures Armed(q, fd) <==> Armed(p, fd) || e == Timeout(fd)
    {
      if e == Timeout(fd) {
        assert q.queued[p.key] == Timeout(fd);
      } else if Armed(p, fd) {
        var k :| k in p.queued && p.queued[k] == Timeout(fd);
        assert q.queued[k] == Timeout(fd);
      }
    }
  }

  /** A request enters under a new key, is due at once, and touches nothing else. */
  lemma PushIsDue(p: Poker, node: string, val: int, timeout: nat)
    requires Inv(p)
    ensures var q := Next(p, Push(node, val, timeout));
      && p.key !in p.queued && p.key in q.due && q.due[p.key] == p.now
      && q.queued == p.queued + map[p.key := OpenTimed(node, val, timeout)]
      && q.due - {p.key} == p.due
      && q == p.(key := q.key, queued := q.queued, due := q.due)
      && (p.thread == Idle ==> Enabled(q, Deliver(p.key)))
  {
    assert p.key !in p.due;
  }

  lemma DeliverKeeps(p: Poker, key: nat)
    requires Inv(p) && Enabled(p, Deliver(key))
    ensures Inv(Next(p, Deliver(key)))
  {
    var q := Next(p, Deliver(key));
    assert forall fd :: Armed(p, fd) <==> Armed(q, fd);
  }

  /** Taking an event out disarms its own descriptor and no other. */
  lemma RemoveDisarms(p: Poker)
    requires KeysMatch(p) && OneEach(p) && p.thread.Received?
    ensures forall fd :: Armed(Removed(p), fd) <==> Armed(p, fd) && p.queued[p.thread.key] != Timeout(fd)
  {
    var q := Removed(p);
    forall fd
      ensures Armed(q, fd) <==> Armed(p, fd) && p.queued[p.thread.key] != Timeout(fd)
    {
      if Armed(p, fd) && p.queued[p.thread.key] != Timeout(fd) {
        var k :| k in p.queued && p.queued[k] == Timeout(fd);
        assert q.queued[k] == Timeout(fd);
      }
    }
  }

  lemma RemoveKeeps(p: Poker)
    requires Inv(p) && Enabled(p, Remove)
    ensures Inv(Next(p, Remove))
  {
    RemoveDisarms(p);
    RemoveWatched(p);
    RemoveDue(p);
  }

  lemma RemoveWatched(p: Poker)
    requires OpenInRange(p) && KeysMatch(p) && OneEach(p) && Watched(p) && Enabled(p, Remove)
    ensures Watched(Next(p, Remove)) && OneEach(Next(p, Remove)) && KeysMatch(Next(p, Remove))
  {
    RemoveDisarms(p);
    if p.queued[p.thread.key].Timeout? {
      KeyArms(p);
    }
  }

  /** The event in delivery arms its own descriptor. */
  lemma KeyArms(p: Poker)
    requires KeysMatch(p) && p.thread.Received? && p.queued[p.thread.key].Timeout?
    ensures Armed(p, p.queued[p.thread.key].fd)
  {
  }

  lemma RemoveDue(p: Poker)
    requires OpenInRange(p) && KeysMatch(p) && TimeoutsDue(p) && Enabled(p, Remove)
    ensures var q := Next(p, Remove); OpenInRange(q) && TimeoutsDue(q) && ThreadFits(q)
  {
  }

  lemma OpenKeeps(p: Poker, fd: int)
    requires Inv(p) && Enabled(p, Open(fd))
    ensures Inv(Next(p, Open(fd)))
  {
    if Armed(p, fd) {
      ArmedIsOpen(p, fd);
    }
    OpenLives(p, fd);
    OpenWatched(p, fd);
    OpenDue(p, fd);
  }

  lemma OpenWatched(p: Poker, fd: int)
    requires OpenInRange(p) && Watched(p) && !Armed(p, fd) && Enabled(p, Open(fd))
    ensures Watched(Next(p, Open(fd)))
  {
    var q := Next(p, Open(fd));
    assert forall d :: Armed(p, d) <==> Armed(q, d);
  }

  lemma ArmedIsOpen(p: Poker, fd: int)
    requires OpenInRange(p) && TimeoutsDue(p) && Armed(p, fd)
    ensures fd in p.open
  {
  }

  lemma OpenDue(p: Poker, fd: int)
    requires OpenInRange(p) && TimeoutsDue(p) && Enabled(p, Open(fd))
    ensures var q := Next(p, Open(fd)); OpenInRange(q) && TimeoutsDue(q) && ThreadFits(q)
  {
  }

  lemma OpenLives(p: Poker, fd: int)
    requires LivesMatch(p) && NoneEarly(p) && Enabled(p, Open(fd))
    ensures LivesMatch(Next(p, Open(fd))) && NoneEarly(Next(p, Open(fd)))
  {
  }

  lemma CloseKeeps(p: Poker)
    requires Inv(p) && Enabled(p, Close)
    ensures Inv(Next(p, Close))
  {
    CloseLives(p);
    CloseWatched(p);
    CloseDue(p);
  }

  lemma CloseLives(p: Poker)
    requires LivesMatch(p) && NoneEarly(p) && ThreadFits(p) && Enabled(p, Close)
    ensures LivesMatch(Next(p, Close)) && NoneEarly(Next(p, Close))
  {
  }

  lemma CloseWatched(p: Poker)
    requires OpenInRange(p) && Watched(p) && Enabled(p, Close)
    ensures Watched(Next(p, Close))
  {
    var q := Next(p, Close);
    assert forall d :: Armed(p, d) <==> Armed(q, d);
  }

  lemma CloseDue(p: Poker)
    requires LivesMatch(p) && Watched(p) && TimeoutsDue(p) && Enabled(p, Close)
    ensures var q := Next(p, Close); OpenInRange(q) && TimeoutsDue(q) && ThreadFits(q)
  {
    assert InHand(p.thread, p.thread.event.fd);
    assert !Armed(p, p.thread.event.fd);
  }

  lemma ArmKeeps(p: Poker)
    requires Inv(p) && Enabled(p, Arm)
    ensures Inv(Next(p, Arm))
  {
    SendArms(p, p.thread.timeout, Timeout(p.thread.fd));
  }

  lemma StepKeeps(p: Poker, step: Step)
    requires Inv(p) && Enabled(p, step)
    ensures Inv(Next(p, step))
  {
    match step
    case Tick(d) => TickKeeps(p, d);
    case Push(node, val, timeout) => PushKeeps(p, node, val, timeout);
    case Deliver(key) => DeliverKeeps(p, key);
    case Remove => RemoveKeeps(p);
    case Open(fd) => OpenKeeps(p, fd);
    case Close => CloseKeeps(p);
    case Arm => ArmKeeps(p);
  }

  // ---------------------------------------------------------------- runs

  /** The steps lead from `p` to `q`. */
  ghost predicate Leads(p: Poker, steps: seq<Step>, q: Poker)
    decreases |steps|
  {
    if steps == [] then q == p
    else OpenInRange(p) && Enabled(p, steps[0]) && Leads(Next(p, steps[0]), steps[1..], q)
  }

  ghost predicate Reachable(p: Poker) {
    exists now: int, steps :: Leads(Start(now), steps, p)
  }

  lemma {:induction false} LeadsKeeps(p: Poker, steps: seq<Step>, q: Poker)
    requires Inv(p) && Leads(p, steps, q)
    ensures Inv(q)
    decreases |steps|
  {
    if steps != [] {
      StepKeeps(p, steps[0]);
      LeadsKeeps(Next(p, steps[0]), steps[1..], q);
    }
  }

  /** Main result: the invariant holds in every state of every run. */
  lemma ReachableKeeps(p: Poker)
    requires Reachable(p)
    ensures Inv(p)
  {
    var now: int, steps :| Leads(Start(now), steps, p);
    LeadsKeeps(Start(now), steps, p);
  }

  /** Main result: in every reachable state the table holds exactly the keys of the looper's
      messages, the one in delivery included. */
  lemma KeysArePending(p: Poker)
    requires Reachable(p)
    ensures p.queued.Keys == p.due.Keys + if p.thread.Received? then {p.thread.key} else {}
  {
    ReachableKeeps(p);
  }

  /** The keys of the closing events for a descriptor. */
  function Closers(p: Poker, fd: int): set<nat> {
    set k | k in p.queued && p.queued[k] == Timeout(fd)
  }

  /** Main result: in every reachable state an open descriptor has exactly one closing event,
      unless the looper thread has just opened it or is about to close it; then it has none. */
  lemma ExactlyOneTimeout(p: Poker, fd: int)
    requires Reachable(p) && fd in p.open
    ensures |Closers(p, fd)| == if InHand(p.thread, fd) then 0 else 1
  {
    ReachableKeeps(p);
    if InHand(p.thread, fd) {
      assert !Armed(p, fd);
      assert Closers(p, fd) == {};
    } else {
      assert Armed(p, fd);
      var k :| k in p.queued && p.queued[k] == Timeout(fd);
      OnlyCloser(p, k);
      assert Closers(p, fd) == {k};
    }
  }

  lemma OnlyCloser(p: Poker, k: nat)
    requires OneEach(p) && k in p.queued && p.queued[k].Timeout?
    ensures forall j :: j in p.queued && p.queued[j] == p.queued[k] ==> j == k
  {
  }

  /** Main result: `close` is never called on a descriptor that is not open, and no descriptor
      is closed before its opening time plus its timeout. */
  lemma ClosedOnTime(p: Poker, l: nat)
    requires Reachable(p) && l < |p.lives|
    ensures p.stray == 0
    ensures p.lives[l].end.ClosedAt? ==> p.lives[l].since + p.lives[l].timeout <= p.lives[l].end.time
  {
    ReachableKeeps(p);
  }

  /** Main result: when the table is empty and the looper thread idle, every descriptor ever
      opened has been closed. */
  lemma DrainedIsClosed(p: Poker)
    requires Reachable(p) && p.queued == map[] && p.thread == Idle
    ensures p.open == map[]
    ensures forall l :: 0 <= l < |p.lives| ==> p.lives[l].end.ClosedAt?
  {
    ReachableKeeps(p);
    NoneLeft(p);
  }

  lemma NoneLeft(p: Poker)
    requires Inv(p) && p.queued == map[] && p.thread == Idle
    ensures p.open == map[]
    ensures forall l :: 0 <= l < |p.lives| ==> p.lives[l].end.ClosedAt?
  {
    forall fd
      ensures fd !in p.open
    {
      assert !Armed(p, fd);
      assert !InHand(p.thread, fd);
    }
  }

  /** A life that a step leaves as it was, or only ends. */
  predicate Continues(l: Life, m: Life) {
    m == l || (l.end == StillOpen && m == l.(end := m.end))
  }

  lemma StepContinues(p: Poker, step: Step)
    requires Inv(p) && Enabled(p, step)
    ensures var q := Next(p, step);
      && p.now <= q.now && |p.lives| <= |q.lives|
      && forall l :: 0 <= l < |p.lives| ==> Continues(p.lives[l], q.lives[l])
  {
  }

  /** Main result: from any state that keeps the invariant on, a life keeps its opening, and
      once it has ended it keeps its end: with `ClosedOnTime` and `DrainedIsClosed`, each
      descriptor is closed exactly once. */
  lemma {:induction false} LifeContinues(p: Poker, steps: seq<Step>, q: Poker, l: nat)
    requires Inv(p) && Leads(p, steps, q) && l < |p.lives|
    ensures p.now <= q.now && l < |q.lives| && Continues(p.lives[l], q.lives[l])
    decreases |steps|
  {
    if steps != [] {
      var next := Next(p, steps[0]);
      StepKeeps(p, steps[0]);
      StepContinues(p, steps[0]);
      assert Continues(p.lives[l], next.lives[l]);
      LifeContinues(next, steps[1..], q, l);
    }
  }

  /** Main result: a descriptor stays open until its time. */
  lemma StaysOpen(p: Poker, steps: seq<Step>, q: Poker, fd: int)
    requires Inv(p) && Leads(p, steps, q) && fd in p.open && q.now < Expiry(LifeOf(p, fd))
    ensures fd in q.open && q.open[fd] == p.open[fd]
  {
    var l := p.open[fd];
    LeadsKeeps(p, steps, q);
    LifeContinues(p, steps, q, l);
    EndedBefore(q, l);
  }

  lemma EndedBefore(p: Poker, l: nat)
    requires Inv(p) && l < |p.lives| && p.now < Expiry(p.lives[l])
    ensures p.lives[l].end == StillOpen
  {
  }

  // ---------------------------------------------------------------- the looper catches up

  /** The keys of the opening events. */
  function Openers(queued: map<nat, Event>): set<nat> {
    set k | k in queued && queued[k].OpenTimed?
  }

  function EventWork(queued: map<nat, Event>): nat {
    3 * |queued| + 4 * |Openers(queued)|
  }

  /** The looper thread's steps still to come: three to run a closing event, and four more
      before that to run the opening event it comes from. */
  function Work(p: Poker): int {
    EventWork(p.queued) + ThreadWork(p.thread)
  }

  function ThreadWork(t: Thread): int {
    match t
    case Idle => 0
    case Received(_) => -1
    case Running(Timeout(_)) => 1
    case Running(OpenTimed(_, _, _)) => 5
    case Holding(_, _) => 4
  }

  predicate ByLooper(step: Step) {
    !step.Tick? && !step.Push?
  }

  lemma AddedWork(queued: map<nat, Event>, k: nat, e: Event)
    requires k !in queued
    ensures EventWork(queued[k := e]) == EventWork(queued) + if e.OpenTimed? then 7 else 3
  {
    assert queued[k := e].Keys == queued.Keys + {k};
    assert Openers(queued[k := e]) == if e.OpenTimed? then Openers(queued) + {k} else Openers(queued);
  }

  lemma RemovedWork(queued: map<nat, Event>, k: nat)
    requires k in queued
    ensures EventWork(queued - {k}) == EventWork(queued) - if queued[k].OpenTimed? then 7 else 3
  {
    assert (queued - {k})[k := queued[k]] == queued;
    AddedWork(queued - {k}, k, queued[k]);
  }

  lemma SameQueueWorks(p: Poker, step: Step)
    requires OpenInRange(p) && Enabled(p, step) && ByLooper(step) && !step.Remove? && !step.Arm?
    ensures Next(p, step).queued == p.queued && ThreadWork(Next(p, step).thread) < ThreadWork(p.thread)
  {
  }

  /** Every step of the looper thread leaves less to do. */
  lemma LooperWorks(p: Poker, step: Step)
    requires OpenInRange(p) && KeysMatch(p) && Enabled(p, step) && ByLooper(step)
    ensures Work(Next(p, step)) < Work(p)
  {
    if step.Remove? {
      RemovedWork(p.queued, p.thread.key);
    } else if step.Arm? {
      AddedWork(p.queued, p.key, Timeout(p.thread.fd));
    } else {
      SameQueueWorks(p, step);
    }
  }

  lemma WorkIsNatural(p: Poker)
    requires Inv(p)
    ensures Work(p) >= 0
    ensures Work(p) == 0 ==> p.queued == map[] && p.thread == Idle
  {
    if p.queued != map[] {
      var k :| k in p.queued;
      assert |p.queued.Keys - {k}| < |p.queued.Keys|;
    }
  }

  /** Main result: once every message is due, the looper thread has a step to take until
      nothing is left. */
  lemma NeverStuck(p: Poker)
    requires Inv(p) && (p.queued != map[] || p.thread != Idle)
    requires forall k :: k in p.due ==> p.due[k] <= p.now
    ensures exists step :: ByLooper(step) && Enabled(p, step)
  {
    match p.thread
    case Idle =>
      var k :| k in p.queued;
      assert Enabled(p, Deliver(k));
    case Received(_) => assert Enabled(p, Remove);
    case Running(Timeout(_)) => assert Enabled(p, Close);
    case Running(OpenTimed(_, _, _)) => assert Enabled(p, Open(-1));
    case Holding(_, _) => assert Enabled(p, Arm);
  }

  function LooperSteps(steps: seq<Step>): nat {
    if steps == [] then 0 else (if ByLooper(steps[0]) then 1 else 0) + LooperSteps(steps[1..])
  }

  lemma StepWork(p: Poker, step: Step)
    requires Inv(p) && Enabled(p, step) && !step.Push?
    ensures Inv(Next(p, step)) && Work(Next(p, step)) <= Work(p) - if ByLooper(step) then 1 else 0
  {
    StepKeeps(p, step);
    if ByLooper(step) {
      LooperWorks(p, step);
    }
  }

  lemma {:induction false} WorkSpent(p: Poker, steps: seq<Step>, q: Poker)
    requires Inv(p) && Leads(p, steps, q)
    requires forall i :: 0 <= i < |steps| ==> !steps[i].Push?
    ensures Inv(q) && LooperSteps(steps) <= Work(p) - Work(q)
    decreases |steps|
  {
    if steps != [] {
      StepWork(p, steps[0]);
      WorkSpent(Next(p, steps[0]), steps[1..], q);
    }
  }

  /** Main result: with no new requests, the looper thread takes at most `Work(p)` more steps
      from any state that keeps the invariant, and after that many nothing is queued and
      every descriptor is closed. */
  lemma CatchesUp(p: Poker, steps: seq<Step>, q: Poker)
    requires Inv(p) && Leads(p, steps, q)
    requires forall i :: 0 <= i < |steps| ==> !steps[i].Push?
    ensures Inv(q) && LooperSteps(steps) <= Work(p) - Work(q) <= Work(p)
    ensures LooperSteps(steps) == Work(p) ==> q.queued == map[] && q.thread == Idle && q.open == map[]
  {
    WorkSpent(p, steps, q);
    WorkIsNatural(q);
    if LooperSteps(steps) == Work(p) {
      NoneLeft(q);
    }
  }
}
