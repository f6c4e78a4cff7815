/**
 The fields and methods of PersistentTranscriber that run under `mu`, each proved
 against the operations on a Slot that the transition system is made of. The startup
 loop and every branch are written as in internal/speech/whispercpp/persistent.go.
 */
module WhisperObject {
  import opened Prelude
  import W = WhisperProtocol

  class Transcriber {
    var closed: bool
    var cancelled: bool
    var process: Option<nat>
    var procs: seq<W.Process>

    function View(): W.Slot
      reads this
    {
      W.Slot(closed, cancelled, process, procs)
    }

    predicate Valid()
      reads this
    {
      process.Some? ==> process.value < |procs|
    }

    constructor ()
      ensures Valid() && View() == W.Slot(false, false, None, [])
    {
      closed, cancelled, process, procs := false, false, None, [];
    }

    method RunningLocked() returns (running: bool)
      requires Valid()
      modifies this`process
      ensures Valid() && running == W.IsRunning(old(View())) && View() == W.CheckRunning(old(View()))
      ensures running <==> old(process.Some? && !procs[process.value].exited)
      ensures process == if running then old(process) else None
    {
      if process.None? {
        return false;
      }
      if procs[process.value].exited {
        process := None;
        return false;
      }
      return true;
    }

    method StopProcessLocked(p: nat)
      requires p < |procs|
      modifies this`procs
      ensures |procs| == old(|procs|)
      ensures View().(process := None) == W.StopAndClear(old(View()), p)
    {
      if procs[p].exited {
        return;
      }
      procs := procs[p := procs[p].(signalled := true)];
    }

    /** `launchLocked` and the assignment to the slot. */
    method LaunchLocked() returns (p: nat)
      modifies this`process, this`procs
      ensures View() == W.Launch(old(View())) && p == |old(procs)|
    {
      p := |procs|;
      procs := procs + [W.Process(false, false, false)];
      process := Some(p);
    }

    /** `waitReadyLocked`: meanwhile the process may exit. */
    method WaitReadyLocked(p: nat, outcome: W.Attempt) returns (ready: bool)
      requires p < |procs|
      modifies this`procs
      ensures ready == outcome.Ready?
      ensures ready ==> View() == W.MarkReady(old(View()), p)
      ensures !ready ==> View() == if outcome.NotReady? && outcome.exits then W.ExitOf(old(View()), p) else old(View())
    {
      ready := outcome.Ready?;
      if ready {
        procs := procs[p := procs[p].(ready := true)];
      } else if outcome.NotReady? && outcome.exits {
        procs := procs[p := procs[p].(exited := true)];
      }
    }

    /** One launch-and-probe attempt of `startLocked`. */
    method StartAttempt(outcome: W.Attempt) returns (ready: bool)
      requires Valid() && (outcome.Ready? || outcome.NotReady?)
      modifies this`process, this`procs
      ensures Valid() && ready == outcome.Ready?
      ensures ready ==> View() == W.MarkReady(W.Launch(old(View())), |old(procs)|)
      ensures !ready ==> View() == W.GiveUpOn(old(View()), outcome.exits)
    {
      var launched := LaunchLocked();
      ready := WaitReadyLocked(launched, outcome);
      if !ready {
        StopProcessLocked(launched);
        process := None;
      }
    }

    /** `startLocked`: at most three attempts. */
    method StartLocked(script: nat -> W.Attempt) returns (ok: bool)
      requires Valid() && process.None?
      modifies this`process, this`procs
      ensures Valid() && (View(), ok) == W.StartRun(old(View()), 0, script)
    {
      var attempt := 0;
      while attempt < W.STARTUP_ATTEMPTS
        invariant attempt <= W.STARTUP_ATTEMPTS
        invariant Valid() && process.None? && cancelled == old(cancelled)
        invariant W.StartRun(View(), attempt, script) == W.StartRun(old(View()), 0, script)
      {
        var outcome := script(attempt);
        if outcome.PortFails? || outcome.LaunchFails? {
          return false;
        }
        var ready := StartAttempt(outcome);
        if ready {
          return true;
        }
        if outcome.contextDone || cancelled {
          return false;
        }
        attempt := attempt + 1;
      }
      return false;
    }

    /** `Start`, and the critical section of `Transcribe` up to the choice of its process. */
    method Acquire(script: nat -> W.Attempt) returns (p: Option<nat>)
      requires Valid()
      modifies this`process, this`procs
      ensures Valid()
      ensures old(closed) ==> p.None? && View() == old(View())
      ensures old(!closed && process.Some? && !procs[process.value].exited) ==>
        p == old(process) && View() == old(View())
      ensures old(!closed && (process.None? || procs[process.value].exited)) ==>
        var (next, ok) := W.StartRun(W.Slot(false, old(cancelled), None, old(procs)), 0, script);
        View() == next && p == if ok then next.process else None
    {
      if closed {
        return None;
      }
      var running := RunningLocked();
      if !running {
        var ok := StartLocked(script);
        if !ok {
          return None;
        }
      }
      return process;
    }

    method DiscardProcess(p: nat)
      requires Valid() && p < |procs|
      modifies this`process, this`procs
      ensures Valid() && View() == W.Discard(old(View()), p)
    {
      if process != Some(p) {
        return;
      }
      StopProcessLocked(p);
      process := None;
    }

    /** The locked part of `Close`; the caller then waits for the returned process. */
    method Close() returns (p: Option<nat>)
      requires Valid()
      modifies this`closed, this`cancelled, this`process
      ensures Valid() && View() == W.CloseDown(old(View()))
      ensures p == if old(closed) then None else old(process)
    {
      if closed {
        return None;
      }
      closed := true;
      cancelled := true;
      p := process;
      process := None;
    }
  }
}
