/** `NvsInput::readEvents` of nvs_input.cpp: kernel input events folded into sensor events. */
module NvsInput {
  import opened InputEventReader

  const EV_SYN := 0
  const EV_REL := 2
  const EV_ABS := 3
  const REL_Z := 2

  /** The fields of `sensors_event_t` that change; `data` has 16 cells. */
  datatype SensorEvent = SensorEvent(timestamp: int, data: seq<real>)

  type Pending = e: SensorEvent | |e.data| == 16 witness SensorEvent(0, seq(16, i => 0.0))

  // ---------------------------------------------------------------- the fold

  datatype Folded = Folded(pending: Pending, out: seq<SensorEvent>)

  /** The cell an axis code is stored in: codes beyond Z go to cell 0. */
  function Axis(code: nat): nat {
    if code > REL_Z then 0 else code
  }

  predicate IsAxis(e: InputEvent) {
    e.kind == EV_ABS || e.kind == EV_REL
  }

  predicate IsSyn(e: InputEvent) {
    e.kind == EV_SYN
  }

  function Scaled(value: int, divisor: nat): real {
    if divisor > 1 then value as real / divisor as real else value as real
  }

  /** What one kernel event does to the pending event. */
  function Absorb(p: Pending, e: InputEvent, divisor: nat): Pending {
    if IsAxis(e) then p.(data := p.data[Axis(e.code) := Scaled(e.value, divisor)])
    else if IsSyn(e) then p.(timestamp := e.time)
    else p
  }

  /** One pass over a whole stream. */
  function Fold(p: Pending, events: seq<InputEvent>, divisor: nat): Folded {
    if events == [] then Folded(p, [])
    else
      var last := events[|events| - 1];
      var front := Fold(p, events[..|events| - 1], divisor);
      var now := Absorb(front.pending, last, divisor);
      Folded(now, if IsSyn(last) then front.out + [now] else front.out)
  }

  lemma {:induction false} FoldAppend(p: Pending, a: seq<InputEvent>, b: seq<InputEvent>, divisor: nat)
    ensures var f := Fold(p, a, divisor);
      var g := Fold(f.pending, b, divisor);
      Fold(p, a + b, divisor) == Folded(g.pending, f.out + g.out)
  {
    if b == [] {
      assert a + b == a;
    } else {
      var init := b[..|b| - 1];
      assert (a + b)[..|a + b| - 1] == a + init;
      FoldAppend(p, a, init, divisor);
    }
  }

  // ---------------------------------------------------------------- what the fold means

  function Syncs(events: seq<InputEvent>): nat {
    if events == [] then 0
    else Syncs(events[..|events| - 1]) + if IsSyn(events[|events| - 1]) then 1 else 0
  }

  /** The latest value written to a cell, `initial` if there is none. */
  function Latest(events: seq<InputEvent>, cell: nat, initial: real, divisor: nat): real {
    if events == [] then initial
    else
      var e := events[|events| - 1];
      if IsAxis(e) && Axis(e.code) == cell then Scaled(e.value, divisor)
      else Latest(events[..|events| - 1], cell, initial, divisor)
  }

  lemma {:induction false} PendingIsLatest(p: Pending, events: seq<InputEvent>, divisor: nat, cell: nat)
    requires cell < 16
    ensures Fold(p, events, divisor).pending.data[cell] == Latest(events, cell, p.data[cell], divisor)
  {
    if events != [] {
      PendingIsLatest(p, events[..|events| - 1], divisor, cell);
    }
  }

  lemma {:induction false} OneOutputPerSync(p: Pending, events: seq<InputEvent>, divisor: nat)
    ensures |Fold(p, events, divisor).out| == Syncs(events)
  {
    if events != [] {
      OneOutputPerSync(p, events[..|events| - 1], divisor);
    }
  }

  lemma {:induction false} SyncsGrow(events: seq<InputEvent>, i: nat)
    requires i < |events| && IsSyn(events[i])
    ensures Syncs(events[..i]) < Syncs(events)
    decreases |events|
  {
    if i < |events| - 1 {
      assert events[..|events| - 1][..i] == events[..i];
      SyncsGrow(events[..|events| - 1], i);
    }
  }

  /** Every EV_SYN yields one output, in order, stamped with its time and holding on every
      axis the latest value that came before it. */
  lemma {:induction false} OutputAtSync(p: Pending, events: seq<InputEvent>, divisor: nat, i: nat, cell: nat)
    requires i < |events| && IsSyn(events[i]) && cell < 16
    ensures |Fold(p, events, divisor).out| == Syncs(events) > Syncs(events[..i])
    ensures var out := Fold(p, events, divisor).out[Syncs(events[..i])];
      && |out.data| == 16
      && out.timestamp == events[i].time
      && out.data[cell] == Latest(events[..i], cell, p.data[cell], divisor)
    decreases |events|
  {
    OneOutputPerSync(p, events, divisor);
    SyncsGrow(events, i);
    var init := events[..|events| - 1];
    OneOutputPerSync(p, init, divisor);
    if i == |events| - 1 {
      PendingIsLatest(p, init, divisor, cell);
    } else {
      assert init[..i] == events[..i];
      OutputAtSync(p, init, divisor, i, cell);
    }
  }

  // ---------------------------------------------------------------- one call

  /** How many of the queued events a call that may emit `count` outputs consumes. */
  function Consumed(queue: seq<InputEvent>, count: nat): (k: nat)
    ensures k <= |queue|
  {
    if count == 0 || queue == [] then 0
    else 1 + Consumed(queue[1..], if IsSyn(queue[0]) then count - 1 else count)
  }

  /** A call stops as early as it can: it emits at most `count` outputs, leaves events behind
      only when it has emitted `count`, and then the last one it took was an EV_SYN. */
  lemma {:induction false} ConsumedMeaning(queue: seq<InputEvent>, count: nat)
    ensures var k := Consumed(queue, count);
      && Syncs(queue[..k]) <= count
      && (k < |queue| ==> Syncs(queue[..k]) == count)
      && (k > 0 && Syncs(queue[..k]) == count ==> IsSyn(queue[k - 1]))
    decreases |queue|
  {
    if count > 0 && queue != [] {
      var rest := if IsSyn(queue[0]) then count - 1 else count;
      var k := Consumed(queue[1..], rest);
      ConsumedMeaning(queue[1..], rest);
      SyncsFront(queue[..k + 1]);
      assert queue[..k + 1][1..] == queue[1..][..k];
    }
  }

  lemma {:induction false} SyncsFront(events: seq<InputEvent>)
    requires events != []
    ensures Syncs(events) == (if IsSyn(events[0]) then 1 else 0) + Syncs(events[1..])
  {
    if |events| == 1 {
      assert events[..0] == [] && events[1..] == [];
    } else {
      var init := events[..|events| - 1];
      SyncsFront(init);
      assert events[1..][..|events| - 2] == init[1..];
    }
  }

  // ---------------------------------------------------------------- whole runs

  datatype Call = Enable(on: bool) | Read(count: int, result: ReadResult)

  /** `consumed`, `received` and `out` are everything so far. */
  datatype State = State(enabled: bool, pending: Pending, queue: seq<InputEvent>,
                         consumed: seq<InputEvent>, received: seq<InputEvent>, out: seq<SensorEvent>)

  function After(s: State, call: Call, divisor: nat): State {
    match call
    case Enable(on) => s.(enabled := on)
    case Read(count, result) =>
      if count < 1 || !s.enabled || (!result.Got?) then s
      else
        Taken(s.(queue := s.queue + result.events, received := s.received + result.events), count, divisor)
  }

  /** The loop of a call that may emit `count` outputs. */
  function Taken(s: State, count: nat, divisor: nat): State {
    var k := Consumed(s.queue, count);
    var f := Fold(s.pending, s.queue[..k], divisor);
    s.(pending := f.pending, queue := s.queue[k..], consumed := s.consumed + s.queue[..k], out := s.out + f.out)
  }

  function Run(s: State, calls: seq<Call>, divisor: nat): State {
    if calls == [] then s else After(Run(s, calls[..|calls| - 1], divisor), calls[|calls| - 1], divisor)
  }

  predicate Fresh(s: State) {
    s.queue == [] && s.consumed == [] && s.received == [] && s.out == []
  }

  /** Nothing read is lost, repeated or reordered, and the outputs are the one-pass fold over
      what has been consumed. */
  predicate Conserved(p: Pending, t: State, divisor: nat) {
    && t.consumed + t.queue == t.received
    && Fold(p, t.consumed, divisor) == Folded(t.pending, t.out)
  }

  lemma CallConserves(p: Pending, t: State, call: Call, divisor: nat)
    requires Conserved(p, t, divisor)
    ensures Conserved(p, After(t, call, divisor), divisor)
  {
    if call.Read? && call.count >= 1 && call.result.Got? {
      var queue := t.queue + call.result.events;
      var k := Consumed(queue, call.count);
      FoldAppend(p, t.consumed, queue[..k], divisor);
      Regroup(t.consumed, t.queue, call.result.events, k);
    }
  }

  lemma Regroup(consumed: seq<InputEvent>, queue: seq<InputEvent>, more: seq<InputEvent>, k: nat)
    requires k <= |queue + more|
    ensures (consumed + (queue + more)[..k]) + (queue + more)[k..] == (consumed + queue) + more
  {
  }

  /** Main result: for any sequence of calls, with any split of the kernel stream into reads
      and any counts. */
  lemma {:induction false} RunConserves(s: State, calls: seq<Call>, divisor: nat)
    requires Fresh(s)
    ensures Conserved(s.pending, Run(s, calls, divisor), divisor)
  {
    if calls != [] {
      RunConserves(s, calls[..|calls| - 1], divisor);
      CallConserves(s.pending, Run(s, calls[..|calls| - 1], divisor), calls[|calls| - 1], divisor);
    }
  }

  // ---------------------------------------------------------------- what comes out of a run

  function EnabledAfter(on: bool, calls: seq<Call>): bool {
    if calls == [] then on
    else if calls[|calls| - 1].Enable? then calls[|calls| - 1].on
    else EnabledAfter(on, calls[..|calls| - 1])
  }

  /** The last call reads from the kernel, and successfully. */
  predicate Reads(on: bool, calls: seq<Call>)
    requires calls != []
  {
    var last := calls[|calls| - 1];
    last.Read? && last.count >= 1 && last.result.Got? && EnabledAfter(on, calls[..|calls| - 1])
  }

  /** The events of all successful reads made while enabled. */
  function Arrived(on: bool, calls: seq<Call>): seq<InputEvent> {
    if calls == [] then []
    else if Reads(on, calls) then Arrived(on, calls[..|calls| - 1]) + calls[|calls| - 1].result.events
    else Arrived(on, calls[..|calls| - 1])
  }

  function Min(a: int, b: int): int {
    if a < b then a else b
  }

  /** How many outputs the calls owe: each read that succeeds makes as many as it may of those
      that the EV_SYNs so far call for and that have not been made. */
  function Owed(on: bool, calls: seq<Call>): int {
    if calls == [] then 0
    else
      var before := Owed(on, calls[..|calls| - 1]);
      if Reads(on, calls) then before + Min(calls[|calls| - 1].count, Syncs(Arrived(on, calls)) - before)
      else before
  }

  /** Nothing that arrives is dropped on the way into the buffer. */
  lemma {:induction false} RunReceives(s: State, calls: seq<Call>, divisor: nat)
    ensures var t := Run(s, calls, divisor);
      t.enabled == EnabledAfter(s.enabled, calls) && t.received == s.received + Arrived(s.enabled, calls)
  {
    if calls == [] {
      assert s.received + [] == s.received;
    } else {
      RunReceives(s, calls[..|calls| - 1], divisor);
      var last := calls[|calls| - 1];
      if Reads(s.enabled, calls) {
        assert (s.received + Arrived(s.enabled, calls[..|calls| - 1])) + last.result.events
          == s.received + (Arrived(s.enabled, calls[..|calls| - 1]) + last.result.events);
      }
    }
  }

  lemma {:induction false} SyncsAppend(a: seq<InputEvent>, b: seq<InputEvent>)
    ensures Syncs(a + b) == Syncs(a) + Syncs(b)
  {
    if b == [] {
      assert a + b == a;
    } else {
      assert (a + b)[..|a + b| - 1] == a + b[..|b| - 1];
      SyncsAppend(a, b[..|b| - 1]);
    }
  }

  /** What the loop emits and what it leaves. */
  lemma TakenEmits(s: State, count: nat, divisor: nat)
    ensures |Taken(s, count, divisor).out| == |s.out| + Min(count, Syncs(s.queue))
  {
    var k := Consumed(s.queue, count);
    ConsumedMeaning(s.queue, count);
    OneOutputPerSync(s.pending, s.queue[..k], divisor);
    assert s.queue == s.queue[..k] + s.queue[k..];
    SyncsAppend(s.queue[..k], s.queue[k..]);
    if k == |s.queue| {
      assert s.queue[k..] == [];
    }
  }

  /** A call that reads makes as many outputs as it may, up to one for each EV_SYN in the buffer
      and in what it has read. */
  lemma ReadEmits(s: State, count: int, events: seq<InputEvent>, divisor: nat)
    requires s.enabled && count >= 1
    ensures |After(s, Read(count, Got(events)), divisor).out| == |s.out| + Min(count, Syncs(s.queue + events))
  {
    TakenEmits(s.(queue := s.queue + events, received := s.received + events), count, divisor);
  }

  /** The same against everything received so far. */
  lemma CallEmitsOfAll(p: Pending, s: State, call: Call, all: seq<InputEvent>, divisor: nat)
    requires Conserved(p, s, divisor) && s.enabled && call.Read? && call.count >= 1 && call.result.Got?
    requires all == s.received + call.result.events
    ensures |After(s, call, divisor).out| == |s.out| + Min(call.count, Syncs(all) - |s.out|)
  {
    ReadEmits(s, call.count, call.result.events, divisor);
    OneOutputPerSync(p, s.consumed, divisor);
    SyncsOfQueue(s.consumed, s.queue, call.result.events);
  }

  lemma SyncsOfQueue(consumed: seq<InputEvent>, queue: seq<InputEvent>, events: seq<InputEvent>)
    ensures Syncs((consumed + queue) + events) == Syncs(consumed) + Syncs(queue + events)
  {
    assert (consumed + queue) + events == consumed + (queue + events);
    SyncsAppend(consumed, queue + events);
  }

  /** A call that does not read puts nothing out. */
  lemma OtherwiseNothing(s: State, calls: seq<Call>, divisor: nat)
    requires calls != [] && !Reads(s.enabled, calls)
    ensures Run(s, calls, divisor).out == Run(s, calls[..|calls| - 1], divisor).out
  {
    RunReceives(s, calls[..|calls| - 1], divisor);
  }

  lemma ArrivedStep(on: bool, calls: seq<Call>)
    requires calls != [] && Reads(on, calls)
    ensures [] + Arrived(on, calls[..|calls| - 1]) + calls[|calls| - 1].result.events == Arrived(on, calls)
  {
  }

  lemma ReadInRun(s: State, calls: seq<Call>, divisor: nat)
    requires Fresh(s) && calls != [] && Reads(s.enabled, calls)
    ensures var before := Run(s, calls[..|calls| - 1], divisor);
      |Run(s, calls, divisor).out|
        == |before.out| + Min(calls[|calls| - 1].count, Syncs(Arrived(s.enabled, calls)) - |before.out|)
  {
    var before, last := Run(s, calls[..|calls| - 1], divisor), calls[|calls| - 1];
    RunReceives(s, calls[..|calls| - 1], divisor);
    ArrivedStep(s.enabled, calls);
    assert before.received + last.result.events == Arrived(s.enabled, calls);
    RunConserves(s, calls[..|calls| - 1], divisor);
    CallEmitsOfAll(s.pending, before, last, Arrived(s.enabled, calls), divisor);
    assert Run(s, calls, divisor) == After(before, last, divisor);
  }

  lemma {:induction false} RunEmits(s: State, calls: seq<Call>, divisor: nat)
    requires Fresh(s)
    ensures |Run(s, calls, divisor).out| == Owed(s.enabled, calls)
  {
    if calls != [] {
      RunEmits(s, calls[..|calls| - 1], divisor);
      if Reads(s.enabled, calls) {
        ReadInRun(s, calls, divisor);
      } else {
        OtherwiseNothing(s, calls, divisor);
      }
    }
  }

  /** Main result: what a run puts out is, without any mention of buffers, the one-pass fold
      over everything that arrived while enabled, cut to as many outputs as the calls owe. */
  lemma RunOutputs(s: State, calls: seq<Call>, divisor: nat)
    requires Fresh(s)
    ensures var all, n := Fold(s.pending, Arrived(s.enabled, calls), divisor).out, Owed(s.enabled, calls);
      0 <= n <= |all| && Run(s, calls, divisor).out == all[..n]
  {
    var t := Run(s, calls, divisor);
    RunConserves(s, calls, divisor);
    RunEmits(s, calls, divisor);
    RunReceives(s, calls, divisor);
    FoldAppend(s.pending, t.consumed, t.queue, divisor);
    assert t.consumed + t.queue == Arrived(s.enabled, calls);
  }

  // ---------------------------------------------------------------- one sample

  lemma FoldStep(p: Pending, events: seq<InputEvent>, e: InputEvent, divisor: nat)
    ensures var f := Fold(p, events, divisor);
      var now := Absorb(f.pending, e, divisor);
      Fold(p, events + [e], divisor) == Folded(now, if IsSyn(e) then f.out + [now] else f.out)
  {
    assert (events + [e])[..|events|] == events;
  }

  /** Relative and absolute axes alike: three axis events and an EV_SYN make one output with the
      three values in the first three cells, divided when there is a divisor above one. */
  lemma SampleComesOut(p: Pending, kinds: seq<int>, x: int, y: int, z: int, t: int, times: seq<int>, divisor: nat)
    requires |kinds| == |times| == 3 && forall i :: 0 <= i < 3 ==> kinds[i] == 2 || kinds[i] == 3
    ensures var events :=
        [InputEvent(times[0], kinds[0], 0, x), InputEvent(times[1], kinds[1], 1, y),
         InputEvent(times[2], kinds[2], 2, z)] + [InputEvent(t, 0, 0, 0)];
      var d := if divisor > 1 then divisor as real else 1.0;
      var sample := SensorEvent(t, [x as real / d, y as real / d, z as real / d] + p.data[3..]);
      Fold(p, events, divisor) == Folded(sample, [sample])
  {
    var a, b := InputEvent(times[0], kinds[0], 0, x), InputEvent(times[1], kinds[1], 1, y);
    var c, syn := InputEvent(times[2], kinds[2], 2, z), InputEvent(t, 0, 0, 0);
    assert [] + [a] == [a] && [a] + [b] == [a, b] && [a, b] + [c] == [a, b, c];
    FoldStep(p, [], a, divisor);
    FoldStep(p, [a], b, divisor);
    FoldStep(p, [a, b], c, divisor);
    FoldStep(p, [a, b, c], syn, divisor);
    var d := if divisor > 1 then divisor as real else 1.0;
    assert p.data[0 := x as real / d][1 := y as real / d][2 := z as real / d]
      == [x as real / d, y as real / d, z as real / d] + p.data[3..];
  }

  /** A code beyond Z overwrites the first cell; an event of any other kind changes nothing. */
  lemma StrayEvents(p: Pending, e: InputEvent, divisor: nat)
    ensures (e.kind == 2 || e.kind == 3) && e.code > 2 ==>
      Absorb(p, e, divisor) == Absorb(p, e.(code := 0), divisor)
    ensures e.kind != 0 && e.kind != 2 && e.kind != 3 ==> Absorb(p, e, divisor) == p && !IsSyn(e)
  {
  }

  // ---------------------------------------------------------------- the driver

  class Input {
    var enabled: bool
    var pending: Pending
    const divisor: nat
    const reader: CircularReader
    ghost var consumed: seq<InputEvent>
    ghost var received: seq<InputEvent>
    ghost var out: seq<SensorEvent>

    ghost predicate Valid()
      reads this, reader, reader.buffer
    {
      reader.Valid()
    }

    ghost function Now(): State
      reads this, reader
    {
      State(enabled, pending, reader.unread, consumed, received, out)
    }

    constructor (first: Pending, divisor: nat)
      ensures Valid() && Fresh(Now()) && !enabled && pending == first && this.divisor == divisor
      ensures fresh(reader) && fresh(reader.buffer)
    {
      enabled, pending, this.divisor := false, first, divisor;
      consumed, received, out := [], [], [];
      reader := new CircularReader(32);
    }

    /** `enable`; `written` is what writing the setting gives when the driver has a node for it. */
    method SetEnabled(on: bool, hasNode: bool, written: int) returns (err: int)
      requires Valid()
      modifies this`enabled
      ensures Valid() && err == if hasNode && written <= 0 then written else 0
      ensures Now() == if hasNode && written <= 0 then old(Now()) else After(old(Now()), Enable(on), divisor)
    {
      err := 0;
      if hasNode {
        err := written;
        if err > 0 {
          enabled := on;
          err := 0;
        }
      } else {
        enabled := on;
      }
    }

    /** `processEvent`. */
    method ProcessEvent(code: nat, value: int)
      modifies this`pending
      ensures pending == old(pending).(data := old(pending).data[Axis(code) := Scaled(value, divisor)])
    {
      var cell := code;
      if cell > REL_Z {
        cell := 0;
      }
      var v := value as real;
      if divisor > 1 {
        v := v / divisor as real;
      }
      pending := pending.(data := pending.data[cell := v]);
    }

    /** `readEvents`. `result` is what the read inside `fill` does; with a full buffer there
        is no read. */
    method ReadEvents(data: array?<SensorEvent>, count: int, result: ReadResult) returns (n: int)
      requires Valid() && (data != null && count > 0 ==> count <= data.Length)
      requires Touched(result) <= reader.freeSpace
      requires reader.freeSpace == 0 ==> result == Got([])
      requires result.Failed? ==> result.errno > 0
      modifies this, reader, reader.buffer, data
      ensures Valid()
      ensures data == null ==> n == -EINVAL && Now() == old(Now())
      ensures data != null ==> Now() == After(old(Now()), Read(count, result), divisor)
      ensures count < 1 ==> n == -EINVAL
      ensures data != null && count >= 1 && !enabled ==> n == 0
      ensures data != null && count >= 1 && enabled && result.Failed? ==> n == -result.errno
      ensures data != null && count >= 1 && enabled && result.Fragment? ==> n == -EINVAL
      ensures data != null && count >= 1 && enabled && result.Got? ==>
        n == Min(count, Syncs(old(reader.unread) + result.events))
      ensures data != null && n >= 0 ==> n <= count && n <= data.Length
      ensures data != null && n >= 0 ==> out == old(out) + data[..n] && data[n..] == old(data[..])[n..]
    {
      if count < 1 || data == null {
        return -EINVAL;
      }
      if !enabled {
        return 0;
      }
      n := reader.Fill(result);
      if n < 0 {
        return;
      }
      received := received + result.events;
      TakenEmits(Now(), count, divisor);
      n := TakeEvents(data, count);
    }

    /** The part of `readEvents` after the read. */
    method TakeEvents(data: array<SensorEvent>, count: nat) returns (n: nat)
      requires Valid() && count <= data.Length
      modifies this`pending, this`consumed, this`out, reader, data
      ensures Valid() && n <= count && Now() == Taken(old(Now()), count, divisor)
      ensures out == old(out) + data[..n] && data[n..] == old(data[..])[n..]
    {
      ghost var queue := reader.unread;
      n := Drain(data, count);
      consumed := consumed + queue[..Consumed(queue, count)];
      out := out + data[..n];
    }

    /** The loop of `readEvents`. */
    method Drain(data: array<SensorEvent>, count: nat) returns (n: nat)
      requires Valid() && count <= data.Length
      modifies this`pending, reader, data
      ensures Valid() && n <= count
      ensures var queue := old(reader.unread);
        var k := Consumed(queue, count);
        && reader.unread == queue[k..]
        && Fold(old(pending), queue[..k], divisor) == Folded(pending, data[..n])
        && data[n..] == old(data[..])[n..]
    {
      ghost var queue, first, was := reader.unread, pending, data[..];
      ghost var k := 0;
      n := 0;
      assert queue[..0] == [];
      while true
        invariant Valid() && n <= count <= data.Length && k <= |queue| && reader.unread == queue[k..]
        invariant Draining(first, queue, was, count, k, Emitted(pending, data[..], n), divisor)
        decreases |reader.unread|
      {
        var available, at := reader.ReadEvent();
        if n == count || available == 0 {
          DrainEnd(first, queue, was, count, k, Emitted(pending, data[..], n), divisor);
          break;
        }
        DrainStep(first, queue, was, count, k, Emitted(pending, data[..], n), divisor);
        n := HandleEvent(data, n, reader.buffer[at]);
        reader.Next();
        k := k + 1;
      }
    }

    /** The body of the loop, for one event; `n` outputs are already in `data`. */
    method HandleEvent(data: array<SensorEvent>, n: nat, event: InputEvent) returns (m: nat)
      requires n < data.Length
      modifies this`pending, data
      ensures m <= data.Length
      ensures Emitted(pending, data[..], m) == Emit(Emitted(old(pending), old(data[..]), n), event, divisor)
    {
      m := n;
      if event.kind == EV_ABS || event.kind == EV_REL {
        ProcessEvent(event.code, event.value);
      } else if event.kind == EV_SYN {
        pending := pending.(timestamp := event.time);
        data[m] := pending;
        m := m + 1;
      }
    }
  }

  /** The pending event and the caller's buffer, of which the first n cells are filled. */
  datatype Emitted = Emitted(pending: Pending, data: seq<SensorEvent>, n: nat)

  function Emit(m: Emitted, e: InputEvent, divisor: nat): Emitted
    requires m.n < |m.data|
  {
    var now := Absorb(m.pending, e, divisor);
    if IsSyn(e) then Emitted(now, m.data[m.n := now], m.n + 1) else Emitted(now, m.data, m.n)
  }

  /** k events of the queue are done. */
  ghost predicate Draining(first: Pending, queue: seq<InputEvent>, was: seq<SensorEvent>, count: nat, k: nat,
                           m: Emitted, divisor: nat) {
    && k <= |queue| && m.n <= count <= |was| == |m.data|
    && Consumed(queue, count) == k + Consumed(queue[k..], count - m.n)
    && Fold(first, queue[..k], divisor) == Folded(m.pending, m.data[..m.n])
    && m.data[m.n..] == was[m.n..]
  }

  lemma DrainStep(first: Pending, queue: seq<InputEvent>, was: seq<SensorEvent>, count: nat, k: nat,
                  m: Emitted, divisor: nat)
    requires Draining(first, queue, was, count, k, m, divisor) && k < |queue| && m.n < count
    ensures Draining(first, queue, was, count, k + 1, Emit(m, queue[k], divisor), divisor)
    ensures queue[k..][1..] == queue[k + 1..]
  {
    assert queue[k..][1..] == queue[k + 1..];
    assert queue[..k + 1][..k] == queue[..k];
    var now := Absorb(m.pending, queue[k], divisor);
    if IsSyn(queue[k]) {
      assert m.data[m.n := now][..m.n + 1] == m.data[..m.n] + [now];
      assert m.data[m.n := now][m.n + 1..] == m.data[m.n..][1..] == was[m.n..][1..] == was[m.n + 1..];
    }
  }

  lemma DrainEnd(first: Pending, queue: seq<InputEvent>, was: seq<SensorEvent>, count: nat, k: nat,
                 m: Emitted, divisor: nat)
    requires Draining(first, queue, was, count, k, m, divisor) && (k == |queue| || m.n == count)
    ensures k == Consumed(queue, count)
  {
    if k == |queue| {
      assert queue[k..] == [];
    }
  }
}
