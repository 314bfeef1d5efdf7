/** The camera hints of nvpowerhal.cpp: one caller of `set_camera_hint`, the thread that sends
    the regular hints, and the mutex, condition variable and exit flag between them. */
module HintsThread {

  const CAMERA_TARGET_FPS := 30

  /** The hints of `set_camera_hint`: one of the use cases by its index, `hinted` saying whether
      its capabilities name any throughput hint, and the rest. */
  datatype CameraHint =
    | Usecase(index: int, hinted: bool)
    | Perf
    | Fps
    | Reset
    | Other

  /** Where the worker is in `regular_hints_threadfunc`: before the lock, at the test of the
      flag, in the timed wait, on its way out of it, out of it with the lock held, at the test
      of the error, and at the two halves of a round of hints. */
  datatype Pc =
    | Top | Locked | Waiting | Woken(timedOut: bool) | Returned(timedOut: bool) | Deciding(timedOut: bool)
    | FpsRound | PhsRound

  /** Where the caller is: outside, having made its last call; in `set_camera_fps`; at the
      decision to launch and in `send_regular_hints`; in `wait_for_regular_hints_thread`; in
      `reset_camera_hint`. */
  datatype Caller =
    | Outside(last: CameraHint)
    | SettingFps
    | Launching(call: CameraHint) | SendLocking(call: CameraHint) | SendHolding(call: CameraHint)
    | Checking | ExitLocking | ExitHolding | Signalling | Joining
    | Resetting

  datatype Owner = Free | ByCaller | ByWorker(id: nat)

  /** The fields of `powerhal_info` that matter here, the live threads, and for the record the
      rounds of hints finished since the exit flag was last set and whether the thread behind
      the handle was woken with neither a timeout nor a signal. */
  datatype State = State(
    handle: nat, exit: bool, target: int, fdGpu: int, usecase: int,
    owner: Owner, workers: map<nat, Pc>, nextId: nat, caller: Caller,
    rounds: nat, spurious: bool)

  datatype Step =
    | Call(hint: CameraHint)
    | CallerStep(fd: int, created: bool, woken: nat)
    | WorkerStep(id: nat, fd: int)
    | TimeOut(id: nat)
    | SpuriousWakeup(id: nat)

  /** `common_power_camera_init`. */
  function Start(): State {
    State(0, false, 0, -1, -1, Free, map[], 1, Outside(Other), 0, false)
  }

  ghost predicate SomeoneWaits(s: State) {
    exists id :: id in s.workers && s.workers[id] == Waiting
  }

  /** The caller can go on: locks are taken when free, the join returns when the thread has
      ended, and a signal wakes a waiting thread when there is one. */
  ghost predicate CallerEnabled(s: State, woken: nat) {
    match s.caller
    case Outside(_) => false
    case SendLocking(_) => s.owner == Free
    case ExitLocking => s.owner == Free
    case Signalling => SomeoneWaits(s) ==> woken in s.workers && s.workers[woken] == Waiting
    case Joining => s.handle !in s.workers
    case _ => true
  }

  predicate WorkerEnabled(s: State, id: nat) {
    id in s.workers && s.workers[id] != Waiting && (s.workers[id].Top? || s.workers[id].Woken? ==> s.owner == Free)
  }

  ghost predicate Enabled(s: State, step: Step) {
    match step
    case Call(_) => s.caller.Outside?
    case CallerStep(_, _, woken) => CallerEnabled(s, woken)
    case WorkerStep(id, _) => WorkerEnabled(s, id)
    case TimeOut(id) => id in s.workers && s.workers[id] == Waiting
    case SpuriousWakeup(id) => id in s.workers && s.workers[id] == Waiting
  }

  /** `set_camera_fps`; `fd` is what `NvOsSetFpsTarget` gives. */
  function FpsSet(s: State, fd: int): State {
    if s.fdGpu == -1 then s.(fdGpu := fd) else s
  }

  function Called(s: State, hint: CameraHint): State {
    match hint
    case Usecase(index, _) => s.(usecase := index, caller := Launching(hint))
    case Fps => s.(target := CAMERA_TARGET_FPS, caller := SettingFps)
    case Reset => s.(caller := Checking)
    case _ => s.(caller := Launching(hint))
  }

  /** `send_regular_hints` under the lock, and the unlock. */
  function Sent(s: State, call: CameraHint, created: bool): State {
    var t := s.(owner := Free, caller := Outside(call));
    if s.handle != 0 || !created then t
    else t.(handle := s.nextId, workers := s.workers[s.nextId := Top], nextId := s.nextId + 1, spurious := false)
  }

  function CallerNext(s: State, fd: int, created: bool, woken: nat): State {
    match s.caller
    case Outside(_) => s
    case SettingFps => FpsSet(s, fd).(caller := Launching(Fps))
    case Launching(call) =>
      if s.target != 0 || (call.Usecase? && call.hinted) then s.(caller := SendLocking(call))
      else s.(caller := Outside(call))
    case SendLocking(call) => s.(owner := ByCaller, caller := SendHolding(call))
    case SendHolding(call) => Sent(s, call, created)
    case Checking => s.(caller := if s.handle != 0 then ExitLocking else Resetting)
    case ExitLocking => s.(owner := ByCaller, caller := ExitHolding)
    case ExitHolding => s.(exit := true, rounds := 0, owner := Free, caller := Signalling)
    case Signalling =>
      var t := s.(caller := Joining);
      if woken in s.workers && s.workers[woken] == Waiting then t.(workers := s.workers[woken := Woken(false)]) else t
    case Joining => s.(handle := 0, exit := false, caller := Resetting)
    case Resetting => s.(fdGpu := -1, target := 0, usecase := -1, caller := Launching(Reset))
  }

  /** The worker goes to `pc`. */
  function At(s: State, id: nat, pc: Pc): State {
    s.(workers := s.workers[id := pc])
  }

  function Ended(s: State, id: nat): State {
    s.(workers := s.workers - {id})
  }

  function WorkerNext(s: State, id: nat, fd: int): State
    requires id in s.workers
  {
    match s.workers[id]
    case Top => At(s, id, Locked).(owner := ByWorker(id))
    case Locked => if s.exit then Ended(s, id).(owner := Free) else At(s, id, Waiting).(owner := Free)
    case Waiting => s
    case Woken(t) => At(s, id, Returned(t)).(owner := ByWorker(id))
    case Returned(t) => At(s, id, Deciding(t)).(owner := Free)
    case Deciding(t) => if t then At(s, id, FpsRound) else Ended(s, id)
    case FpsRound => At(if s.target != 0 then FpsSet(s, fd) else s, id, PhsRound)
    case PhsRound => At(s, id, Top).(rounds := s.rounds + 1)
  }

  function Next(s: State, step: Step): State
    requires Enabled(s, step)
  {
    match step
    case Call(hint) => Called(s, hint)
    case CallerStep(fd, created, woken) => CallerNext(s, fd, created, woken)
    case WorkerStep(id, fd) => WorkerNext(s, id, fd)
    case TimeOut(id) => At(s, id, Woken(true))
    case SpuriousWakeup(id) => At(s, id, Woken(false)).(spurious := true)
  }

  // ---------------------------------------------------------------- what every step keeps

  /** Only the thread behind the handle is alive. */
  ghost predicate OneWorker(s: State) {
    && s.handle < s.nextId && 0 < s.nextId
    && forall id :: id in s.workers ==> id == s.handle != 0
  }

  predicate HoldsLock(pc: Pc) {
    pc.Locked? || pc.Returned?
  }

  ghost predicate LockFits(s: State) {
    && (s.owner == ByCaller <==> s.caller.SendHolding? || s.caller.ExitHolding?)
    && (s.owner.ByWorker? ==> s.owner.id in s.workers && HoldsLock(s.workers[s.owner.id]))
    && (forall id :: id in s.workers && HoldsLock(s.workers[id]) ==> s.owner == ByWorker(id))
  }

  /** Leaving the loop whatever happens. */
  predicate Doomed(pc: Pc) {
    (pc.Woken? || pc.Returned? || pc.Deciding?) && !pc.timedOut
  }

  ghost predicate ExitFits(s: State) {
    && (s.exit <==> s.caller.Signalling? || s.caller.Joining?)
    && (s.caller.ExitLocking? || s.caller.ExitHolding? || s.exit ==> s.handle != 0)
    && (s.caller.Joining? ==> forall id :: id in s.workers ==> s.workers[id] != Waiting)
    && (s.exit ==> s.rounds <= 1 && forall id :: id in s.workers ==>
          s.rounds <= if s.workers[id].Top? || s.workers[id].Locked? then 1 else 0)
  }

  /** Without a spurious wakeup the thread behind the handle is there and stays. */
  ghost predicate AliveFits(s: State) {
    && (s.handle != 0 && !s.exit && !s.spurious ==> s.handle in s.workers && !Doomed(s.workers[s.handle]))
    && (s.spurious ==> forall id :: id in s.workers ==> Doomed(s.workers[id]))
  }

  /** What a reset leaves behind. */
  predicate IsReset(s: State) {
    s.handle == 0 && s.target == 0 && s.fdGpu == -1 && s.usecase == -1
  }

  predicate ResetFits(s: State) {
    && (s.caller == Launching(Reset) || s.caller == Outside(Reset) ==> IsReset(s))
    && (s.caller.Resetting? ==> s.handle == 0)
    && (s.caller.SendLocking? || s.caller.SendHolding? ==> !s.caller.call.Reset?)
  }

  ghost predicate Inv(s: State) {
    OneWorker(s) && LockFits(s) && ExitFits(s) && AliveFits(s) && ResetFits(s)
  }

  lemma CallKeeps(s: State, hint: CameraHint)
    requires Inv(s) && Enabled(s, Call(hint))
    ensures Inv(Next(s, Call(hint)))
  {
  }

  lemma CallerKeeps(s: State, fd: int, created: bool, woken: nat)
    requires Inv(s) && CallerEnabled(s, woken)
    ensures Inv(CallerNext(s, fd, created, woken))
  {
  }

  lemma WorkerKeeps(s: State, id: nat, fd: int)
    requires Inv(s) && WorkerEnabled(s, id)
    ensures Inv(WorkerNext(s, id, fd))
  {
  }

  lemma WakeKeeps(s: State, id: nat)
    requires Inv(s) && id in s.workers && s.workers[id] == Waiting
    ensures Inv(At(s, id, Woken(true)))
    ensures Inv(At(s, id, Woken(false)).(spurious := true))
  {
  }

  lemma StepKeeps(s: State, step: Step)
    requires Inv(s) && Enabled(s, step)
    ensures Inv(Next(s, step))
  {
    match step
    case Call(hint) => CallKeeps(s, hint);
    case CallerStep(fd, created, woken) => CallerKeeps(s, fd, created, woken);
    case WorkerStep(id, fd) => WorkerKeeps(s, id, fd);
    case TimeOut(id) => WakeKeeps(s, id);
    case SpuriousWakeup(id) => WakeKeeps(s, id);
  }

  // ---------------------------------------------------------------- runs

  /** The steps lead from `s` to `t`. */
  ghost predicate Leads(s: State, steps: seq<Step>, t: State)
    decreases |steps|
  {
    if steps == [] then t == s
    else Enabled(s, steps[0]) && Leads(Next(s, steps[0]), steps[1..], t)
  }

  lemma {:induction false} LeadsKeeps(s: State, steps: seq<Step>, t: State)
    requires Inv(s) && Leads(s, steps, t)
    ensures Inv(t)
    decreases |steps|
  {
    if steps != [] {
      StepKeeps(s, steps[0]);
      LeadsKeeps(Next(s, steps[0]), steps[1..], t);
    }
  }

  /** Main result: in every reachable state at most one worker is alive, the one behind the
      handle. */
  lemma AtMostOneWorker(steps: seq<Step>, s: State)
    requires Leads(Start(), steps, s)
    ensures s.workers.Keys <= {s.handle} && |s.workers| <= 1
  {
    LeadsKeeps(Start(), steps, s);
    if s.workers.Keys == {s.handle} {
    } else {
      assert s.workers.Keys == {};
    }
  }

  /** Main result: once the exit flag is set, at most one more round of hints is finished. */
  lemma AtMostOneMoreRound(steps: seq<Step>, s: State)
    requires Leads(Start(), steps, s) && s.exit
    ensures s.rounds <= 1
  {
    LeadsKeeps(Start(), steps, s);
  }

  /** Main result: when the call with `CAMERA_HINT_RESET` has returned there is no worker, the
      fields are as they were at the start, and nothing happens before the next call. */
  lemma AfterReset(steps: seq<Step>, s: State)
    requires Leads(Start(), steps, s) && s.caller == Outside(Reset)
    ensures s.workers == map[] && s.handle == 0 && !s.exit
    ensures s.target == 0 && s.fdGpu == -1 && s.usecase == -1
    ensures forall step :: Enabled(s, step) ==> step.Call?
  {
    LeadsKeeps(Start(), steps, s);
  }

  // ---------------------------------------------------------------- progress

  /** The worker's steps to its end once the exit flag is set and it is not waiting. */
  function Rank(pc: Pc): nat {
    match pc
    case Locked => 1
    case Top => 2
    case PhsRound => 3
    case FpsRound => 4
    case Deciding(t) => if t then 5 else 1
    case Returned(t) => if t then 6 else 2
    case Woken(t) => if t then 7 else 3
    case Waiting => 8
  }

  /** A worker that the join waits for can step, and its step brings its end nearer. */
  lemma JoinMoves(s: State, fd: int)
    requires Inv(s) && s.caller.Joining? && s.handle in s.workers
    ensures Rank(s.workers[s.handle]) <= 7 && WorkerEnabled(s, s.handle)
    ensures var t := WorkerNext(s, s.handle, fd);
      && t.handle == s.handle && t.caller == s.caller && t.target == s.target && t.usecase == s.usecase
      && (s.handle in t.workers ==> Rank(t.workers[s.handle]) < Rank(s.workers[s.handle]))
  {
  }

  /** Main result: no lost wakeup blocks the join. While it waits for the worker, the worker
      can take a step, nothing else can, and every step brings the worker's end nearer: it is
      there after at most seven. */
  lemma JoinReturns(steps: seq<Step>, s: State, fd: int)
    requires Leads(Start(), steps, s) && s.caller.Joining? && s.workers != map[]
    ensures s.handle in s.workers && Rank(s.workers[s.handle]) <= 7
    ensures WorkerEnabled(s, s.handle)
    ensures forall step :: Enabled(s, step) ==> step.WorkerStep? && step.id == s.handle
    ensures var t := WorkerNext(s, s.handle, fd);
      s.handle in t.workers ==> Rank(t.workers[s.handle]) < Rank(s.workers[s.handle])
  {
    LeadsKeeps(Start(), steps, s);
    var id :| id in s.workers;
    assert id == s.handle;
    JoinMoves(s, fd);
  }

  /** A worker that holds the lock the caller wants lets go of it in one step. */
  lemma LockMoves(s: State, fd: int)
    requires Inv(s) && (s.caller.ExitLocking? || s.caller.SendLocking?) && s.owner != Free
    ensures s.owner.ByWorker? && WorkerEnabled(s, s.owner.id)
    ensures var t := WorkerNext(s, s.owner.id, fd);
      t.owner == Free && t == s.(owner := Free, workers := t.workers)
  {
  }

  /** Main result: the caller is never stuck: it can go on, or the worker holding what it
      waits for can. */
  lemma NoDeadlock(steps: seq<Step>, s: State)
    requires Leads(Start(), steps, s) && !s.caller.Outside?
    ensures (exists woken: nat :: CallerEnabled(s, woken)) || WorkerEnabled(s, s.handle)
  {
    LeadsKeeps(Start(), steps, s);
    if s.caller.Signalling? && SomeoneWaits(s) {
      var id :| id in s.workers && s.workers[id] == Waiting;
      assert CallerEnabled(s, id);
    } else if s.caller.SendLocking? || s.caller.ExitLocking? {
      if s.owner == Free {
        assert CallerEnabled(s, 0);
      } else {
        assert s.owner.ByWorker?;
      }
    } else if s.caller.Joining? {
      if s.handle !in s.workers {
        assert CallerEnabled(s, 0);
      }
    } else {
      assert CallerEnabled(s, 0);
    }
  }

  // ---------------------------------------------------------------- what the hints do

  /** No regular hints were asked for, and none are about to be. */
  predicate Unasked(s: State) {
    && s.handle == 0 && s.target == 0
    && !s.caller.SettingFps? && !s.caller.SendLocking? && !s.caller.SendHolding?
    && (s.caller.Launching? ==> !Asks(s.caller.call))
  }

  predicate Asks(hint: CameraHint) {
    hint.Fps? || (hint.Usecase? && hint.hinted)
  }

  /** Main result: no thread is started unless an FPS hint or a use case with throughput hints
      is given. */
  lemma {:induction false} NoneUnlessAsked(s: State, steps: seq<Step>, t: State)
    requires Inv(s) && Unasked(s) && Leads(s, steps, t)
    requires forall i :: 0 <= i < |steps| ==> !(steps[i].Call? && Asks(steps[i].hint))
    ensures Unasked(t) && t.workers == map[]
    decreases |steps|
  {
    if steps == [] {
      assert forall id :: id !in s.workers;
    } else {
      StepKeeps(s, steps[0]);
      StaysUnasked(s, steps[0]);
      NoneUnlessAsked(Next(s, steps[0]), steps[1..], t);
    }
  }

  lemma StaysUnasked(s: State, step: Step)
    requires Inv(s) && Unasked(s) && Enabled(s, step) && !(step.Call? && Asks(step.hint))
    ensures Unasked(Next(s, step))
  {
  }

  /** A reset is under way. */
  predicate InReset(caller: Caller) {
    || caller.Checking? || caller.ExitLocking? || caller.ExitHolding?
    || caller.Signalling? || caller.Joining? || caller.Resetting?
  }

  /** Main result: the descriptor of the frame rate target, once it is set up, stays the same in
      every run without a reset: it is only modified, by the caller and the worker alike. */
  lemma {:induction false} DescriptorKept(s: State, steps: seq<Step>, t: State)
    requires s.fdGpu != -1 && !InReset(s.caller) && Leads(s, steps, t)
    requires forall i :: 0 <= i < |steps| ==> steps[i] != Call(Reset)
    ensures t.fdGpu == s.fdGpu && !InReset(t.caller)
    decreases |steps|
  {
    if steps != [] {
      KeepsDescriptor(s, steps[0]);
      DescriptorKept(Next(s, steps[0]), steps[1..], t);
    }
  }

  lemma KeepsDescriptor(s: State, step: Step)
    requires s.fdGpu != -1 && !InReset(s.caller) && Enabled(s, step) && step != Call(Reset)
    ensures Next(s, step).fdGpu == s.fdGpu && !InReset(Next(s, step).caller)
  {
  }

  /** A state with one worker, at `pc`. */
  function With(s: State, id: nat, pc: Pc, owner: Owner): State {
    s.(workers := map[id := pc], owner := owner)
  }

  /** The latest use case given, `usecase` if there was none. */
  function LatestUsecase(usecase: int, steps: seq<Step>): int
    decreases |steps|
  {
    if steps == [] then usecase
    else LatestUsecase(if steps[0].Call? && steps[0].hint.Usecase? then steps[0].hint.index else usecase, steps[1..])
  }

  /** Thirty once an FPS hint was given. */
  function LatestTarget(target: int, steps: seq<Step>): int
    decreases |steps|
  {
    if steps == [] then target else LatestTarget(if steps[0] == Call(Fps) then 30 else target, steps[1..])
  }

  /** Main result: in every run without a reset the use case is the latest one given, and the frame
      rate target is thirty from the first FPS hint on. */
  lemma {:induction false} HintsAreStored(s: State, steps: seq<Step>, t: State)
    requires !InReset(s.caller) && Leads(s, steps, t)
    requires forall i :: 0 <= i < |steps| ==> steps[i] != Call(Reset)
    ensures t.usecase == LatestUsecase(s.usecase, steps) && t.target == LatestTarget(s.target, steps)
    decreases |steps|
  {
    if steps != [] {
      StoresHint(s, steps[0]);
      HintsAreStored(Next(s, steps[0]), steps[1..], t);
    }
  }

  lemma StoresHint(s: State, step: Step)
    requires !InReset(s.caller) && Enabled(s, step) && step != Call(Reset)
    ensures !InReset(Next(s, step).caller)
    ensures Next(s, step).usecase == if step.Call? && step.hint.Usecase? then step.hint.index else s.usecase
    ensures Next(s, step).target == if step == Call(Fps) then 30 else s.target
  {
  }

  /** The worker's steps from the end of one wait to the next wait. */
  function RoundOf(id: nat, fd: int): seq<Step> {
    var go := WorkerStep(id, fd);
    [TimeOut(id)] + ([go] + ([go] + ([go] + ([go] + ([go] + ([go] + ([go] + [])))))))
  }

  /** The state when the hints are sent and the worker waits again. */
  function Rounded(s: State, fd: int): State {
    s.(rounds := s.rounds + 1, fdGpu := if s.target != 0 && s.fdGpu == -1 then fd else s.fdGpu)
  }

  lemma GoesToWait(s: State, id: nat, fd: int)
    requires !s.exit
    ensures var go := WorkerStep(id, fd);
      Leads(With(s, id, Top, Free), [go] + ([go] + []), With(s, id, Waiting, Free))
  {
    var end := With(s, id, Waiting, Free);
    Goes(With(s, id, Locked, ByWorker(id)), id, fd, end, [], end);
    Goes(With(s, id, Top, Free), id, fd, With(s, id, Locked, ByWorker(id)), [WorkerStep(id, fd)] + [], end);
  }

  lemma SendsHints(s: State, id: nat, fd: int, rest: seq<Step>, t: State)
    requires Leads(With(Rounded(s, fd), id, Top, Free), rest, t)
    ensures var go := WorkerStep(id, fd); Leads(With(s, id, FpsRound, Free), [go] + ([go] + rest), t)
  {
    var r := s.(fdGpu := Rounded(s, fd).fdGpu);
    SetsTarget(s, id, fd);
    Goes(With(r, id, PhsRound, Free), id, fd, With(Rounded(s, fd), id, Top, Free), rest, t);
    Goes(With(s, id, FpsRound, Free), id, fd, With(r, id, PhsRound, Free), [WorkerStep(id, fd)] + rest, t);
  }

  lemma SetsTarget(s: State, id: nat, fd: int)
    ensures WorkerNext(With(s, id, FpsRound, Free), id, fd)
      == With(s.(fdGpu := Rounded(s, fd).fdGpu), id, PhsRound, Free)
    ensures WorkerNext(With(s, id, PhsRound, Free), id, fd) == With(s.(rounds := s.rounds + 1), id, Top, Free)
  {
  }

  lemma TakesTimeout(s: State, id: nat, fd: int, rest: seq<Step>, t: State)
    requires Leads(With(s, id, FpsRound, Free), rest, t)
    ensures var go := WorkerStep(id, fd); Leads(With(s, id, Returned(true), ByWorker(id)), [go] + ([go] + rest), t)
  {
    Goes(With(s, id, Deciding(true), Free), id, fd, With(s, id, FpsRound, Free), rest, t);
    Goes(With(s, id, Returned(true), ByWorker(id)), id, fd, With(s, id, Deciding(true), Free),
      [WorkerStep(id, fd)] + rest, t);
  }

  lemma LeavesWait(s: State, id: nat, fd: int, rest: seq<Step>, t: State)
    requires s.workers == map[id := Waiting] && s.owner == Free
    requires Leads(With(s, id, Returned(true), ByWorker(id)), rest, t)
    ensures Leads(s, [TimeOut(id)] + ([WorkerStep(id, fd)] + rest), t)
  {
    Goes(With(s, id, Woken(true), Free), id, fd, With(s, id, Returned(true), ByWorker(id)), rest, t);
    assert Next(s, TimeOut(id)) == With(s, id, Woken(true), Free);
    Before(s, TimeOut(id), [WorkerStep(id, fd)] + rest, t);
  }

  /** Main result: a timeout makes the worker send one round of hints and wait again; a frame
      rate target gets its descriptor then if it has none. */
  lemma RoundAfterTimeout(s: State, id: nat, fd: int)
    requires s.workers == map[id := Waiting] && s.owner == Free && !s.exit
    ensures Leads(s, RoundOf(id, fd), Rounded(s, fd))
  {
    var go, t := WorkerStep(id, fd), Rounded(s, fd);
    GoesToWait(t, id, fd);
    assert With(t, id, Waiting, Free) == t;
    SendsHints(s, id, fd, [go] + ([go] + []), t);
    TakesTimeout(s, id, fd, [go] + ([go] + ([go] + ([go] + []))), t);
    LeavesWait(s, id, fd, [go] + ([go] + ([go] + ([go] + ([go] + ([go] + []))))), t);
  }

  /** One step of the only worker, and what follows. */
  lemma Goes(s: State, id: nat, fd: int, u: State, rest: seq<Step>, t: State)
    requires WorkerEnabled(s, id) && WorkerNext(s, id, fd) == u && Leads(u, rest, t)
    ensures Leads(s, [WorkerStep(id, fd)] + rest, t)
  {
    Before(s, WorkerStep(id, fd), rest, t);
  }

  // ---------------------------------------------------------------- spurious wakeups

  /** Some worker is alive and not on its way out. */
  ghost predicate HintsGoOn(s: State) {
    exists id :: id in s.workers && !Doomed(s.workers[id])
  }

  /** Main result: between calls the regular hints go on exactly when a thread was launched
      and has not been woken spuriously: a wakeup that is no timeout ends it for good. */
  lemma HintsGoOnExactlyWhen(steps: seq<Step>, s: State)
    requires Leads(Start(), steps, s) && s.caller.Outside?
    ensures HintsGoOn(s) <==> s.handle != 0 && !s.spurious
  {
    LeadsKeeps(Start(), steps, s);
  }

  /** The handle of a thread that was woken spuriously, and no reset under way. */
  predicate OffForGood(s: State) {
    && s.handle != 0 && s.spurious
    && !s.caller.Checking? && !s.caller.ExitLocking? && !s.caller.ExitHolding?
    && !s.caller.Signalling? && !s.caller.Joining? && !s.caller.Resetting?
  }

  /** After a spurious wakeup no call but a reset brings the hints back: the handle is still
      there, so nothing is launched. */
  lemma {:induction false} NeverRelaunched(s: State, steps: seq<Step>, t: State)
    requires Inv(s) && OffForGood(s) && Leads(s, steps, t)
    requires forall i :: 0 <= i < |steps| ==> steps[i] != Call(Reset)
    ensures OffForGood(t) && !HintsGoOn(t)
    decreases |steps|
  {
    if steps != [] {
      StepKeeps(s, steps[0]);
      NeverRelaunched(Next(s, steps[0]), steps[1..], t);
    }
  }

  lemma Before(s: State, step: Step, steps: seq<Step>, t: State)
    requires Enabled(s, step) && Leads(Next(s, step), steps, t)
    ensures Leads(s, [step] + steps, t)
  {
    assert ([step] + steps)[1..] == steps;
  }

  /** A state from which the caller or one worker is on its own. */
  function Alone(workers: map<nat, Pc>, caller: Caller, target: int, fdGpu: int, spurious: bool): State {
    State(1, false, target, fdGpu, 0, Free, workers, 2, caller, 0, spurious)
  }

  /** With the handle left behind, an FPS hint returns without a thread. */
  lemma FpsHintInVain() returns (steps: seq<Step>)
    ensures Leads(Alone(map[], Outside(Usecase(0, true)), 0, -1, true), steps,
                  Alone(map[], Outside(Fps), CAMERA_TARGET_FPS, 5, true))
  {
    var go := CallerStep(5, true, 0);
    var s0 := Alone(map[], Outside(Usecase(0, true)), 0, -1, true);
    var s1 := Next(s0, Call(Fps));
    var s2 := Next(s1, go);
    var s3 := Next(s2, go);
    var s4 := Next(s3, go);
    Before(s4, go, [], Next(s4, go));
    Before(s3, go, [go] + [], Next(s4, go));
    Before(s2, go, [go] + ([go] + []), Next(s4, go));
    Before(s1, go, [go] + ([go] + ([go] + [])), Next(s4, go));
    steps := [Call(Fps)] + ([go] + ([go] + ([go] + ([go] + []))));
    Before(s0, Call(Fps), [go] + ([go] + ([go] + ([go] + []))), Next(s4, go));
  }

  /** The worker goes to wait, is woken spuriously, and ends. */
  lemma WokenForNothing() returns (steps: seq<Step>)
    ensures Leads(Alone(map[1 := Top], Outside(Usecase(0, true)), 0, -1, false), steps,
                  Alone(map[], Outside(Usecase(0, true)), 0, -1, true))
  {
    var go := WorkerStep(1, 0);
    var s0 := Alone(map[1 := Top], Outside(Usecase(0, true)), 0, -1, false);
    var s1 := Next(s0, go);
    var s2 := Next(s1, go);
    assert s2.workers == map[1 := Waiting];
    var s3 := Next(s2, SpuriousWakeup(1));
    assert s3.workers == map[1 := Woken(false)];
    var s4 := Next(s3, go);
    var s5 := Next(s4, go);
    assert s5.workers == map[1 := Deciding(false)];
    var t := Next(s5, go);
    assert t.workers == map[];
    Before(s5, go, [], t);
    Before(s4, go, [go] + [], t);
    Before(s3, go, [go] + ([go] + []), t);
    var rest := [go] + ([go] + ([go] + []));
    Before(s2, SpuriousWakeup(1), rest, t);
    Before(s1, go, [SpuriousWakeup(1)] + rest, t);
    Before(s0, go, [go] + ([SpuriousWakeup(1)] + rest), t);
    steps := [go] + ([go] + ([SpuriousWakeup(1)] + rest));
  }

  /** A use case launches the thread. */
  lemma UsecaseLaunches() returns (steps: seq<Step>)
    ensures Leads(Start(), steps, Alone(map[1 := Top], Outside(Usecase(0, true)), 0, -1, false))
  {
    var call, go := Call(Usecase(0, true)), CallerStep(0, true, 0);
    var s1 := Next(Start(), call);
    var s2 := Next(s1, go);
    var s3 := Next(s2, go);
    var t := Next(s3, go);
    assert t.workers == map[1 := Top];
    Before(s3, go, [], t);
    Before(s2, go, [go] + [], t);
    Before(s1, go, [go] + ([go] + []), t);
    Before(Start(), call, [go] + ([go] + ([go] + [])), t);
    steps := [call] + ([go] + ([go] + ([go] + [])));
  }

  lemma {:induction false} Joined(s: State, first: seq<Step>, t: State, second: seq<Step>, u: State)
    requires Leads(s, first, t) && Leads(t, second, u)
    ensures Leads(s, first + second, u)
    decreases |first|
  {
    if first == [] {
      assert first + second == second;
    } else {
      Joined(Next(s, first[0]), first[1..], t, second, u);
      assert (first + second)[1..] == first[1..] + second;
    }
  }

  /** Main result: the regular hints can be lost for good. In this run a use case launches the
      thread, the thread is woken spuriously and ends, and the FPS hint that follows returns
      with the frame rate target set, the handle in place and no thread to send it. */
  lemma HintsCanBeLost() returns (steps: seq<Step>, s: State)
    ensures Leads(Start(), steps, s)
    ensures s.caller == Outside(Fps) && s.target == CAMERA_TARGET_FPS && s.handle != 0 && s.workers == map[]
  {
    var one := UsecaseLaunches();
    var two := WokenForNothing();
    var three := FpsHintInVain();
    s := Alone(map[], Outside(Fps), CAMERA_TARGET_FPS, 5, true);
    Joined(Alone(map[1 := Top], Outside(Usecase(0, true)), 0, -1, false), two,
      Alone(map[], Outside(Usecase(0, true)), 0, -1, true), three, s);
    Joined(Start(), one, Alone(map[1 := Top], Outside(Usecase(0, true)), 0, -1, false), two + three, s);
    steps := one + (two + three);
  }
}
