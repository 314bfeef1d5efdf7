/** The object behind the camera hints of nvpowerhal.cpp. Whole calls of `set_camera_hint` are
    run against a worker that goes on while the caller waits for the lock and in the join; every
    piece of code between two such points is a step of `HintsThread`. */
module CameraPowers {
  import opened HintsThread

  class CameraPower {
    var regularHintsThread: nat
    var exitHintsThread: bool
    var targetFps: int
    var fdGpu: int
    var usecaseIndex: int
    var waitMutex: Owner
    /** The live threads and the next thread handle. */
    var threads: map<nat, Pc>
    var nextThread: nat
    /** Where the caller is, and the record of the rounds and the spurious wakeups. */
    ghost var caller: Caller
    ghost var rounds: nat
    ghost var spurious: bool

    ghost function Now(): State
      reads this
    {
      State(regularHintsThread, exitHintsThread, targetFps, fdGpu, usecaseIndex,
            waitMutex, threads, nextThread, caller, rounds, spurious)
    }

    /** `common_power_camera_init`. */
    constructor ()
      ensures Now() == Start() && Inv(Now())
    {
      regularHintsThread, exitHintsThread := 0, false;
      targetFps, fdGpu, usecaseIndex := 0, -1, -1;
      waitMutex, threads, nextThread, caller := Free, map[], 1, Outside(Other);
      rounds, spurious := 0, false;
    }

    // -------------------------------------------------------------- the worker

    /** The next step of `regular_hints_threadfunc` in the thread `id`. */
    method WorkerGoesOn(id: nat, fd: int)
      requires Inv(Now()) && WorkerEnabled(Now(), id)
      modifies `waitMutex, `threads, `fdGpu, `rounds
      ensures Now() == WorkerNext(old(Now()), id, fd) && Inv(Now())
    {
      WorkerKeeps(Now(), id, fd);
      var pc := threads[id];
      if pc.Top? {
        waitMutex, threads := ByWorker(id), threads[id := Locked];
      } else if pc.Locked? {
        threads := if exitHintsThread then threads - {id} else threads[id := Waiting];
        waitMutex := Free;
      } else if pc.Woken? {
        waitMutex, threads := ByWorker(id), threads[id := Returned(pc.timedOut)];
      } else if pc.Returned? {
        waitMutex, threads := Free, threads[id := Deciding(pc.timedOut)];
      } else if pc.Deciding? {
        threads := if pc.timedOut then threads[id := FpsRound] else threads - {id};
      } else if pc.FpsRound? {
        if targetFps != 0 {
          SetCameraFps(fd);
        }
        threads := threads[id := PhsRound];
      } else {
        rounds := rounds + 1;
        threads := threads[id := Top];
      }
    }

    // -------------------------------------------------------------- pieces of the caller's code

    method SetCameraFps(fd: int)
      modifies `fdGpu
      ensures Now() == FpsSet(old(Now()), fd)
    {
      if fdGpu == -1 {
        fdGpu := fd;
      }
    }

    /** `pthread_mutex_lock`: the worker goes on until it lets go of the lock. */
    method Lock(fd: int)
      requires Inv(Now()) && (caller.ExitLocking? || caller.SendLocking?)
      modifies `waitMutex, `threads, `fdGpu, `rounds, `caller
      ensures Inv(Now()) && rounds == old(rounds) && fdGpu == old(fdGpu)
      ensures caller == if old(caller).ExitLocking? then ExitHolding else SendHolding(old(caller).call)
    {
      while waitMutex != Free
        invariant Inv(Now()) && Now() == old(Now()).(owner := waitMutex, workers := threads)
        decreases waitMutex != Free
      {
        LockMoves(Now(), fd);
        WorkerGoesOn(waitMutex.id, fd);
      }
      CallerKeeps(Now(), fd, false, 0);
      waitMutex := ByCaller;
      caller := if caller.ExitLocking? then ExitHolding else SendHolding(caller.call);
    }

    /** `send_regular_hints`; `created` is whether `pthread_create` succeeds. */
    method SendRegularHints(ghost call: CameraHint, created: bool, fd: int)
      requires Inv(Now()) && caller == SendLocking(call)
      modifies this
      ensures Inv(Now()) && caller == Outside(call)
      ensures targetFps == old(targetFps) && usecaseIndex == old(usecaseIndex) && fdGpu == old(fdGpu)
      ensures regularHintsThread
        == if old(regularHintsThread) == 0 && created then old(nextThread) else old(regularHintsThread)
    {
      Lock(fd);
      CreateThread(call, created);
    }

    /** The part of it under the lock. */
    method CreateThread(ghost call: CameraHint, created: bool)
      requires Inv(Now()) && caller == SendHolding(call)
      modifies `regularHintsThread, `threads, `nextThread, `spurious, `waitMutex, `caller
      ensures Inv(Now()) && Now() == Sent(old(Now()), call, created)
      ensures caller == Outside(call)
      ensures regularHintsThread
        == if old(regularHintsThread) == 0 && created then old(nextThread) else old(regularHintsThread)
    {
      CallerKeeps(Now(), 0, created, 0);
      if regularHintsThread == 0 && created {
        regularHintsThread := nextThread;
        threads := threads[nextThread := Top];
        nextThread := nextThread + 1;
        spurious := false;
      }
      waitMutex := Free;
      caller := Outside(call);
    }

    /** Sets the exit flag under the lock. */
    method RaiseExitFlag(fd: int)
      requires Inv(Now()) && caller.ExitLocking?
      modifies `waitMutex, `threads, `fdGpu, `rounds, `caller, `exitHintsThread
      ensures Inv(Now()) && caller.Signalling? && rounds == 0
    {
      Lock(fd);
      CallerKeeps(Now(), fd, false, 0);
      exitHintsThread := true;
      rounds := 0;
      waitMutex, caller := Free, Signalling;
    }

    /** `pthread_cond_signal`, which wakes the worker if it waits. */
    method Signal()
      requires Inv(Now()) && caller.Signalling?
      modifies `threads, `caller
      ensures Inv(Now()) && Now() == CallerNext(old(Now()), 0, false, regularHintsThread)
      ensures caller.Joining? && forall id :: id in threads ==> threads[id] != Waiting
    {
      CallerKeeps(Now(), 0, false, regularHintsThread);
      if regularHintsThread in threads && threads[regularHintsThread] == Waiting {
        threads := threads[regularHintsThread := Woken(false)];
      }
      caller := Joining;
    }

    /** `pthread_join`: the worker goes on until it has ended. */
    method Join(fd: int)
      requires Inv(Now()) && caller.Joining?
      modifies `waitMutex, `threads, `fdGpu, `rounds
      ensures Inv(Now()) && threads == map[] && rounds <= 1
    {
      while regularHintsThread in threads
        invariant Inv(Now())
        decreases if regularHintsThread in threads then 1 + Rank(threads[regularHintsThread]) else 0
      {
        JoinMoves(Now(), fd);
        WorkerGoesOn(regularHintsThread, fd);
      }
      assert forall id :: id in threads ==> id == regularHintsThread;
    }

    /** `wait_for_regular_hints_thread`. */
    method WaitForRegularHintsThread(fd: int)
      requires Inv(Now()) && caller.Checking?
      modifies this
      ensures Inv(Now()) && caller.Resetting? && threads == map[]
      ensures regularHintsThread == 0 && !exitHintsThread
    {
      CallerKeeps(Now(), fd, false, 0);
      if regularHintsThread == 0 {
        caller := Resetting;
        assert forall id :: id !in threads;
        return;
      }
      caller := ExitLocking;
      RaiseExitFlag(fd);
      Signal();
      Join(fd);
      ClearThread();
    }

    /** The last lines of it. */
    method ClearThread()
      requires Inv(Now()) && caller.Joining? && regularHintsThread !in threads
      modifies `regularHintsThread, `exitHintsThread, `caller
      ensures Now() == CallerNext(old(Now()), 0, false, 0)
      ensures Inv(Now()) && caller.Resetting? && regularHintsThread == 0 && !exitHintsThread
    {
      CallerKeeps(Now(), 0, false, 0);
      regularHintsThread := 0;
      exitHintsThread := false;
      caller := Resetting;
    }

    method ResetCameraHint()
      requires Inv(Now()) && caller.Resetting?
      modifies `fdGpu, `targetFps, `usecaseIndex, `caller
      ensures Now() == CallerNext(old(Now()), 0, false, 0)
      ensures Inv(Now()) && caller == Launching(Reset) && IsReset(Now())
    {
      CallerKeeps(Now(), 0, false, 0);
      if fdGpu != -1 {
        fdGpu := -1;
      }
      targetFps := 0;
      if usecaseIndex != -1 {
        usecaseIndex := -1;
      }
      caller := Launching(Reset);
    }

    // -------------------------------------------------------------- a whole call

    /** The switch of `set_camera_hint`. */
    method Switch(hint: CameraHint, fd: int)
      requires Inv(Now()) && caller.Outside?
      modifies this
      ensures Inv(Now()) && caller == Launching(hint)
      ensures hint.Reset? ==> IsReset(Now()) && threads == map[]
      ensures !hint.Reset? ==> regularHintsThread == old(regularHintsThread) && nextThread == old(nextThread)
      ensures !hint.Reset? && !hint.Fps? ==> Now() == Called(old(Now()), hint)
      ensures !hint.Reset? ==> fdGpu == if hint.Fps? && old(fdGpu) == -1 then fd else old(fdGpu)
      ensures !hint.Reset? ==> targetFps == if hint.Fps? then CAMERA_TARGET_FPS else old(targetFps)
      ensures !hint.Reset? ==> usecaseIndex == if hint.Usecase? then hint.index else old(usecaseIndex)
    {
      if hint.Fps? {
        FpsHint(fd);
      } else if hint.Reset? {
        ResetHint(fd);
      } else {
        CallKeeps(Now(), hint);
        if hint.Usecase? {
          usecaseIndex := hint.index;
        }
        caller := Launching(hint);
      }
    }

    method FpsHint(fd: int)
      requires Inv(Now()) && caller.Outside?
      modifies `targetFps, `fdGpu, `caller
      ensures Now() == CallerNext(Called(old(Now()), Fps), fd, false, 0)
      ensures Inv(Now()) && caller == Launching(Fps) && targetFps == CAMERA_TARGET_FPS
    {
      CallKeeps(Now(), Fps);
      targetFps := CAMERA_TARGET_FPS;
      caller := SettingFps;
      CallerKeeps(Now(), fd, false, 0);
      SetCameraFps(fd);
      caller := Launching(Fps);
    }

    method ResetHint(fd: int)
      requires Inv(Now()) && caller.Outside?
      modifies this
      ensures Inv(Now()) && caller == Launching(Reset) && IsReset(Now()) && threads == map[]
    {
      CallKeeps(Now(), Reset);
      caller := Checking;
      WaitForRegularHintsThread(fd);
      ResetCameraHint();
    }

    /** `set_camera_hint`: the call returns whatever the worker was doing. A reset leaves no thread
        and the fields as at the start; any other hint that asks for the regular hints leaves a
        handle when a thread can be created, keeps one that is there, and the hints then go on
        unless the thread behind it was woken spuriously. */
    method SetCameraHint(hint: CameraHint, created: bool, fd: int)
      requires Inv(Now()) && caller.Outside?
      modifies this
      ensures Inv(Now()) && caller == Outside(hint)
      ensures hint.Reset? ==> IsReset(Now()) && threads == map[] && !exitHintsThread
      ensures !hint.Reset? ==> targetFps == if hint.Fps? then CAMERA_TARGET_FPS else old(targetFps)
      ensures !hint.Reset? ==> usecaseIndex == if hint.Usecase? then hint.index else old(usecaseIndex)
      ensures !hint.Reset? ==> fdGpu == if hint.Fps? && old(fdGpu) == -1 then fd else old(fdGpu)
      ensures !hint.Reset? && old(regularHintsThread) != 0 ==> regularHintsThread == old(regularHintsThread)
      ensures !hint.Reset? && old(regularHintsThread) == 0 ==>
        (regularHintsThread != 0 <==> created && (targetFps != 0 || (hint.Usecase? && hint.hinted)))
      ensures HintsGoOn(Now()) <==> regularHintsThread != 0 && !spurious
    {
      Switch(hint, fd);
      CallerKeeps(Now(), fd, created, 0);
      if targetFps != 0 || (hint.Usecase? && hint.hinted) {
        caller := SendLocking(hint);
        SendRegularHints(hint, created, fd);
      } else {
        caller := Outside(hint);
      }
    }
  }
}
