/** The handler object of timeoutpoker.cpp. Each method does one step of `TimeoutPoker`, or
    the looper thread's steps one after the other when no other thread comes in between. */
module PokeHandlers {
  import opened TimeoutPoker

  datatype Option<T> = None | Some(value: T)

  /** All that an event's `run` does, `fd` being what `open` would give. */
  function Ran(p: Poker, fd: int): (q: Poker)
    requires Inv(p) && p.thread.Running? && fd !in p.open
    ensures Inv(q) && q.thread == Idle
  {
    if p.thread.event.Timeout? then
      CloseKeeps(p);
      Next(p, Close)
    else
      OpenKeeps(p, fd);
      var held := Next(p, Open(fd));
      if held.thread.Holding? then
        ArmKeeps(held);
        Next(held, Arm)
      else held
  }

  /** All that `handleMessage` does for one message. */
  function Handled(p: Poker, fd: int): (q: Poker)
    requires Inv(p) && p.thread.Received? && fd !in p.open
    ensures Inv(q) && q.thread == Idle
  {
    RemoveKeeps(p);
    Ran(Next(p, Remove), fd)
  }

  /** Handling the message of an opening request opens the descriptor with what
      was asked and schedules its closing after the timeout, or does nothing when `open`
      fails; handling a closing message closes exactly its own descriptor. */
  lemma HandledMeaning(p: Poker, fd: int)
    requires Inv(p) && p.thread.Received? && fd !in p.open
    ensures p.thread.key in p.queued
    ensures var q := Handled(p, fd);
      match p.queued[p.thread.key]
      case Timeout(closing) =>
        closing in p.open && q.open == p.open - {closing} && q.queued == p.queued - {p.thread.key} && q.due == p.due
      case OpenTimed(node, val, timeout) =>
        if fd < 0 then q.open == p.open && q.queued == p.queued - {p.thread.key} && q.due == p.due
        else
          && q.open == p.open[fd := |p.lives|]
          && q.lives == p.lives + [Life(fd, node, val, p.now, timeout, StillOpen)]
          && q.queued == (p.queued - {p.thread.key})[p.key := Timeout(fd)]
          && q.due == p.due[p.key := p.now + timeout]
  {
    RemoveKeeps(p);
    RanMeaning(Next(p, Remove), fd);
  }

  lemma RanMeaning(p: Poker, fd: int)
    requires Inv(p) && p.thread.Running? && fd !in p.open
    ensures var q := Ran(p, fd);
      match p.thread.event
      case Timeout(closing) =>
        closing in p.open && q.open == p.open - {closing} && q.queued == p.queued && q.due == p.due
      case OpenTimed(node, val, timeout) =>
        if fd < 0 then q.open == p.open && q.queued == p.queued && q.due == p.due
        else
          && q.open == p.open[fd := |p.lives|]
          && q.lives == p.lives + [Life(fd, node, val, p.now, timeout, StillOpen)]
          && q.queued == p.queued[p.key := Timeout(fd)]
          && q.due == p.due[p.key := p.now + timeout]
  {
  }

  class PokeHandler {
    var mKey: nat
    var mQueuedEvents: map<nat, Event>
    /** The looper's undelivered messages, the process's descriptors and their history, the
        clock, and where the looper thread is. */
    var messages: map<nat, int>
    var fds: map<int, nat>
    var lives: seq<Life>
    var stray: nat
    var now: int
    var thread: Thread

    ghost function State(): Poker
      reads this
    {
      Poker(mKey, mQueuedEvents, messages, fds, lives, stray, now, thread)
    }

    constructor (time: int)
      ensures State() == Start(time) && Inv(State())
    {
      mKey, mQueuedEvents, messages := 0, map[], map[];
      fds, lives, stray, now, thread := map[], [], 0, time, Idle;
    }

    method GenerateNewKey() returns (key: nat)
      modifies `mKey
      ensures key == old(mKey) && mKey == key + 1
    {
      key := mKey;
      mKey := mKey + 1;
    }

    method SendEventDelayed(delay: nat, ev: Event)
      modifies `mKey, `mQueuedEvents, `messages
      ensures State() == Send(old(State()), delay, ev)
    {
      var key := GenerateNewKey();
      mQueuedEvents := mQueuedEvents[key := ev];
      messages := messages[key := now + delay];
    }

    method RemoveEventByKey(what: nat) returns (e: Option<Event>)
      requires thread == Received(what)
      modifies `mQueuedEvents, `thread
      ensures State() == Removed(old(State()))
      ensures e == if what in old(mQueuedEvents) then Some(old(mQueuedEvents[what])) else None
    {
      if what in mQueuedEvents {
        e := Some(mQueuedEvents[what]);
        mQueuedEvents := mQueuedEvents - {what};
        thread := Running(e.value);
      } else {
        e := None;
        thread := Idle;
      }
    }

    method TimeoutRequest(fd: int)
      requires thread == Running(Timeout(fd)) && OpenInRange(State())
      modifies `fds, `lives, `stray, `thread
      ensures State() == Next(old(State()), Close)
    {
      if fd in fds {
        lives := lives[fds[fd] := lives[fds[fd]].(end := ClosedAt(now))];
        fds := fds - {fd};
      } else {
        stray := stray + 1;
      }
      thread := Idle;
    }

    /** `result` is what `open` gave. */
    method OpenPmQosNode(filename: string, val: int, timeout: nat, result: int)
      requires thread == Running(OpenTimed(filename, val, timeout)) && OpenInRange(State()) && result !in fds
      modifies `fds, `lives, `thread
      ensures State() == Next(old(State()), Open(result))
    {
      if result < 0 {
        thread := Idle;
        return;
      }
      fds := fds[result := |lives|];
      lives := lives + [Life(result, filename, val, now, timeout, StillOpen)];
      thread := Holding(result, timeout);
    }

    method OpenPmQosTimed(filename: string, val: int, timeout: nat, fd: int)
      requires thread == Running(OpenTimed(filename, val, timeout)) && Inv(State()) && fd !in fds
      modifies this
      ensures var held := Next(old(State()), Open(fd));
        OpenInRange(held) && State() == if fd < 0 then held else Next(held, Arm)
    {
      OpenKeeps(State(), fd);
      OpenPmQosNode(filename, val, timeout, fd);
      if fd < 0 {
        return;
      }
      SendEventDelayed(timeout, Timeout(fd));
      thread := Idle;
    }

    /** The event's `run`. */
    method Run(e: Event, fd: int)
      requires Inv(State()) && thread == Running(e) && fd !in fds
      modifies this
      ensures State() == Ran(old(State()), fd)
    {
      match e
      case Timeout(closing) => TimeoutRequest(closing);
      case OpenTimed(node, val, timeout) => OpenPmQosTimed(node, val, timeout, fd);
    }

    method HandleMessage(what: nat, fd: int)
      requires Inv(State()) && thread == Received(what) && fd !in fds
      modifies this
      ensures State() == Handled(old(State()), fd) && Inv(State())
    {
      RemoveKeeps(State());
      var e := RemoveEventByKey(what);
      if e == None {
        return;
      }
      Run(e.value, fd);
    }

    method RequestPmQosTimed(filename: string, val: int, timeout: nat)
      requires Inv(State())
      modifies this
      ensures State() == Send(old(State()), 0, OpenTimed(filename, val, timeout)) && Inv(State())
    {
      PushKeeps(State(), filename, val, timeout);
      SendEventDelayed(0, OpenTimed(filename, val, timeout));
    }
  }
}
