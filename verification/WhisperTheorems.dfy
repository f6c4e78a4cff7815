/**
 What the whisper supervisor guarantees in every interleaving: one inference at a time,
 a mutex-guarded slot that holds only ready processes, bounded startup, no unattended
 process, discards that hit only their own process, and a final close.
 */
module WhisperTheorems {
  import opened Prelude
  import opened WhisperProtocol

  /** The token is in the channel or with exactly one Transcribe past the acquire, so
      the deferred return never blocks and at most one inference runs. */
  lemma OneToken(steps: seq<Step>, t: State)
    requires Reached(steps, t)
    ensures t.tokens + Holders(t.threads) == 1
    ensures forall i, j | 0 <= i < |t.threads| && 0 <= j < |t.threads| ::
        HoldsToken(t.threads[i]) && HoldsToken(t.threads[j]) ==> i == j
    ensures forall i | 0 <= i < |t.threads| && t.threads[i].pc.ReturningToken? :: ActEnabled(t, i, ReturnToken)
    ensures forall i, j | 0 <= i < |t.threads| && 0 <= j < |t.threads| ::
        t.threads[i].pc.Using? && t.threads[j].pc.Using? ==> i == j
  {
    ReachedIsInv(steps, t);
    forall i, j | 0 <= i < |t.threads| && 0 <= j < |t.threads| && HoldsToken(t.threads[i]) && HoldsToken(t.threads[j])
      ensures i == j
    {
      if i != j {
        HoldersAtLeast(t.threads, i, j);
      }
    }
    forall i | 0 <= i < |t.threads| && (t.threads[i].pc.ReturningToken? || t.threads[i].pc.Using?)
      ensures HoldsToken(t.threads[i]) && t.tokens == 0
    {
      assert ThreadInv(t, i);
      HoldersUpdate(t.threads, i, t.threads[i].(pc := Finished));
    }
  }

  /** At most one caller is inside a critical section, and `mu` names it. */
  lemma MutualExclusion(steps: seq<Step>, t: State, i: nat, j: nat)
    requires Reached(steps, t) && i < |t.threads| && j < |t.threads|
    requires HoldsLock(t.threads[i]) && HoldsLock(t.threads[j])
    ensures i == j && t.mu == Some(i)
  {
    ReachedIsInv(steps, t);
    assert ThreadInv(t, i) && ThreadInv(t, j);
  }

  /** Whenever `mu` is free, a process in the slot passed readiness and is the latest
      launched; every process used by an inference passed readiness. */
  lemma FreeSlotIsReady(steps: seq<Step>, t: State)
    requires Reached(steps, t)
    ensures t.mu.None? && t.slot.process.Some? ==>
      t.slot.process.value == |t.slot.procs| - 1 && t.slot.procs[t.slot.process.value].ready
    ensures forall i | 0 <= i < |t.threads| && t.threads[i].pc.Using? ::
      t.threads[i].pc.p < |t.slot.procs| && t.slot.procs[t.threads[i].pc.p].ready
  {
    ReachedIsInv(steps, t);
    forall i | 0 <= i < |t.threads| && t.threads[i].pc.Using?
      ensures t.threads[i].pc.p < |t.slot.procs| && t.slot.procs[t.threads[i].pc.p].ready
    {
      assert ThreadInv(t, i);
    }
  }

  /** `startLocked` is running. */
  predicate Starting(pc: Pc) {
    pc.Launching? || pc.AwaitingReady? || pc.Stopping? || pc.Retrying?
  }

  /** The lifetime context ends exactly when the transcriber is closed, hence never
      while a startup is in progress. */
  lemma LifetimeEndsWithClose(steps: seq<Step>, t: State)
    requires Reached(steps, t)
    ensures t.slot.cancelled <==> t.slot.closed
    ensures t.slot.closed ==> t.slot.process.None?
    ensures (exists i :: 0 <= i < |t.threads| && Starting(t.threads[i].pc)) ==> !t.slot.cancelled
  {
    ReachedIsInv(steps, t);
    if i :| 0 <= i < |t.threads| && Starting(t.threads[i].pc) {
      assert ThreadInv(t, i);
    }
  }

  /** No process is leaked: outside the slot every launched process has exited or was
      sent a kill signal, by a stop or by the end of the lifetime context. */
  lemma NothingRunsUnattended(steps: seq<Step>, t: State, p: nat)
    requires Reached(steps, t) && p < |t.slot.procs| && t.slot.process != Some(p)
    ensures t.slot.procs[p].exited || t.slot.procs[p].signalled || t.slot.closed
  {
    ReachedIsInv(steps, t);
    assert Attended(t.slot, p);
  }

  lemma ClosedStep(s: State, step: Step)
    requires Inv(s) && s.slot.closed && Enabled(s, step)
    ensures Apply(s, step).slot.closed && |Apply(s, step).slot.procs| == |s.slot.procs|
  {
    if step.Act? {
      assert ThreadInv(s, step.i);
    }
  }

  /** After Close nothing is launched any more and the slot stays empty, whatever
      callers were queued or half-way. */
  lemma {:induction false} ClosedIsFinal(s: State, steps: seq<Step>)
    requires Inv(s) && s.slot.closed && Legal(s, steps)
    ensures After(s, steps).slot.closed && After(s, steps).slot.process.None?
    ensures |After(s, steps).slot.procs| == |s.slot.procs|
    decreases |steps|
  {
    if steps != [] {
      ClosedStep(s, steps[0]);
      StepKeepsInv(s, steps[0]);
      ClosedIsFinal(Apply(s, steps[0]), steps[1..]);
    }
  }

  /* ------------------------------------------------------------------ */
  /* Bounded startup                                                    */
  /* ------------------------------------------------------------------ */

  /** Caller `i` stays inside one `startLocked` from `s` through all of `steps`. */
  ghost predicate StaysInStart(s: State, steps: seq<Step>, i: nat)
    requires Legal(s, steps)
    decreases |steps|
  {
    && i < |s.threads| && Starting(s.threads[i].pc)
    && (steps != [] ==> StaysInStart(Apply(s, steps[0]), steps[1..], i))
  }

  lemma LaunchIsCounted(s: State, step: Step, i: nat)
    requires Inv(s) && Enabled(s, step) && i < |s.threads| && Starting(s.threads[i].pc)
    requires i < |Apply(s, step).threads| && Starting(Apply(s, step).threads[i].pc)
    ensures |Apply(s, step).slot.procs| - Apply(s, step).threads[i].pc.k == |s.slot.procs| - s.threads[i].pc.k
  {
    assert ThreadInv(s, i);
    if step.Act? {
      assert ThreadInv(s, step.i);
    }
  }

  /** One `startLocked` launches at most three processes, whatever happens around it. */
  lemma {:induction false} AtMostThreeLaunches(s: State, steps: seq<Step>, i: nat)
    requires Inv(s) && Legal(s, steps) && StaysInStart(s, steps, i)
    ensures i < |After(s, steps).threads| && Starting(After(s, steps).threads[i].pc)
    ensures |After(s, steps).slot.procs| - After(s, steps).threads[i].pc.k == |s.slot.procs| - s.threads[i].pc.k
    ensures s.threads[i].pc == Launching(0) ==> |After(s, steps).slot.procs| <= |s.slot.procs| + STARTUP_ATTEMPTS
    decreases |steps|
  {
    if steps != [] {
      LaunchIsCounted(s, steps[0], i);
      StepKeepsInv(s, steps[0]);
      AtMostThreeLaunches(Apply(s, steps[0]), steps[1..], i);
    } else {
      assert ThreadInv(s, i);
    }
    RunKeepsInv(s, steps);
    assert ThreadInv(After(s, steps), i);
  }

  /** A startup that a caller leaves without readiness leaves the slot empty, and one that
      succeeds leaves its own process there, ready and the latest; every other process ever
      launched, those of this startup included, has exited or was sent a kill signal. */
  lemma StartupLeavesNothingBehind(steps: seq<Step>, t: State, i: nat, action: Action)
    requires Reached(steps, t) && ActEnabled(t, i, action) && Starting(t.threads[i].pc)
    requires !Starting(ActStep(t, i, action).threads[i].pc)
    ensures var slot := ActStep(t, i, action).slot;
      && (if action == ProbeSucceeds
          then slot.process == Some(|slot.procs| - 1) && |slot.procs| > 0 && slot.procs[|slot.procs| - 1].ready
          else slot.process.None?)
      && !slot.closed
      && forall p | 0 <= p < |slot.procs| && slot.process != Some(p) :: slot.procs[p].exited || slot.procs[p].signalled
  {
    ReachedIsInv(steps, t);
    assert ThreadInv(t, i);
    ActKeepsSlot(t, i, action);
    var slot := ActStep(t, i, action).slot;
    forall p | 0 <= p < |slot.procs| && slot.process != Some(p)
      ensures slot.procs[p].exited || slot.procs[p].signalled
    {
      assert Attended(slot, p);
    }
  }

  /** A process that is given up on has exited by itself or is sent a kill signal. */
  lemma GiveUpOutcome(slot: Slot, exits: bool)
    ensures GiveUpOn(slot, exits) == slot.(process := None, procs := slot.procs + [Process(false, exits, !exits)])
  {
  }

  /** What one startup makes of a slot. */
  ghost predicate Started(slot: Slot, next: Slot, ok: bool, attempts: nat) {
    && |slot.procs| <= |next.procs| <= |slot.procs| + attempts && slot.procs <= next.procs
    && next.closed == slot.closed && next.cancelled == slot.cancelled
    && (if ok then
          && |next.procs| > |slot.procs| && next.process == Some(|next.procs| - 1)
          && next.procs[|next.procs| - 1].ready
        else next.process.None?)
    && forall p | |slot.procs| <= p < |next.procs| && next.process != Some(p) ::
        next.procs[p].exited || next.procs[p].signalled
  }

  lemma StartedAfterGivingUp(slot: Slot, exits: bool, next: Slot, ok: bool, attempts: nat)
    requires Started(GiveUpOn(slot, exits), next, ok, attempts)
    ensures Started(slot, next, ok, attempts + 1)
  {
    GiveUpOutcome(slot, exits);
    var given := GiveUpOn(slot, exits);
    assert next.procs[|slot.procs|] == given.procs[|slot.procs|];
  }

  /** The loop of startLocked: it launches at most the attempts that remain; success
      leaves the last launched process in the slot, ready; failure leaves the slot
      empty; and every process that it gives up on has exited or was sent a kill signal. */
  lemma {:induction false} StartRunOutcome(slot: Slot, k: nat, script: nat -> Attempt)
    requires k <= STARTUP_ATTEMPTS && slot.process.None?
    ensures Started(slot, StartRun(slot, k, script).0, StartRun(slot, k, script).1, STARTUP_ATTEMPTS - k)
    decreases STARTUP_ATTEMPTS - k
  {
    if k < STARTUP_ATTEMPTS && script(k).NotReady? {
      var exits := script(k).exits;
      var next := GiveUpOn(slot, exits);
      GiveUpOutcome(slot, exits);
      if script(k).contextDone || slot.cancelled {
        assert Started(next, next, false, STARTUP_ATTEMPTS - k - 1);
        StartedAfterGivingUp(slot, exits, next, false, STARTUP_ATTEMPTS - k - 1);
      } else {
        StartRunOutcome(next, k + 1, script);
        var last := StartRun(next, k + 1, script);
        StartedAfterGivingUp(slot, exits, last.0, last.1, STARTUP_ATTEMPTS - k - 1);
      }
    }
  }

  /** The state after one attempt whose process does not become ready, and may have exited. */
  function FailedAttempt(s: State, i: nat, contextDone: bool, exits: bool): State
    requires i < |s.threads| && s.threads[i].pc.Launching?
  {
    var s1 := ActStep(s, i, TryLaunch(NotReady(contextDone, exits)));
    var s2 := if exits then Apply(s1, Exit(|s.slot.procs|)) else s1;
    var s3 := ActStep(s2, i, ProbeFails);
    ActStep(ActStep(s3, i, StopIt), i, Retry(contextDone))
  }

  /** A run from `s` to `t`. */
  ghost predicate Leads(s: State, steps: seq<Step>, t: State) {
    Legal(s, steps) && After(s, steps) == t
  }

  lemma Stay(s: State)
    ensures Leads(s, [], s)
  {
  }

  lemma StepFirst(s: State, step: Step, rest: seq<Step>, t: State)
    requires Enabled(s, step) && Leads(Apply(s, step), rest, t)
    ensures Leads(s, [step] + rest, t)
  {
    assert ([step] + rest)[1..] == rest;
  }

  lemma {:induction false} LeadsOn(s: State, first: seq<Step>, u: State, rest: seq<Step>, t: State)
    requires Leads(s, first, u) && Leads(u, rest, t)
    ensures Leads(s, first + rest, t)
    decreases |first|
  {
    if first == [] {
      assert first + rest == rest;
    } else {
      LeadsOn(Apply(s, first[0]), first[1..], u, rest, t);
      StepFirst(s, first[0], first[1..] + rest, t);
      assert first + rest == [first[0]] + (first[1..] + rest);
    }
  }

  /** The steps of one attempt whose process does not become ready. */
  lemma FailedAttemptIsARun(s: State, i: nat, contextDone: bool, exits: bool) returns (steps: seq<Step>)
    requires i < |s.threads| && s.threads[i].pc.Launching?
    ensures Leads(s, steps, FailedAttempt(s, i, contextDone, exits))
  {
    var t := FailedAttempt(s, i, contextDone, exits);
    var launch := Act(i, TryLaunch(NotReady(contextDone, exits)));
    var s1 := Apply(s, launch);
    var s2 := if exits then Apply(s1, Exit(|s.slot.procs|)) else s1;
    var s3 := Apply(s2, Act(i, ProbeFails));
    var s4 := Apply(s3, Act(i, StopIt));
    Stay(t);
    StepFirst(s4, Act(i, Retry(contextDone)), [], t);
    steps := [Act(i, Retry(contextDone))] + [];
    StepFirst(s3, Act(i, StopIt), steps, t);
    steps := [Act(i, StopIt)] + steps;
    StepFirst(s2, Act(i, ProbeFails), steps, t);
    steps := [Act(i, ProbeFails)] + steps;
    if exits {
      StepFirst(s1, Exit(|s.slot.procs|), steps, t);
      steps := [Exit(|s.slot.procs|)] + steps;
    }
    StepFirst(s, launch, steps, t);
    steps := [launch] + steps;
  }

  lemma FailedOnce(s: State, i: nat, k: nat, contextDone: bool, exits: bool) returns (steps: seq<Step>, u: State)
    requires i < |s.threads| && s.threads[i].pc == Launching(k)
    ensures Leads(s, steps, u) && u.slot == GiveUpOn(s.slot, exits)
    ensures |u.threads| == |s.threads| && u.threads[i].transcribes == s.threads[i].transcribes
    ensures if contextDone || s.slot.cancelled || k + 1 == STARTUP_ATTEMPTS
            then u.mu.None? && u.threads[i].pc == AfterError(s.threads[i])
            else u.threads[i].pc == Launching(k + 1)
  {
    steps := FailedAttemptIsARun(s, i, contextDone, exits);
    u := FailedAttempt(s, i, contextDone, exits);
    FailedAttemptState(s, i, k, contextDone, exits);
  }

  lemma FailedAttemptState(s: State, i: nat, k: nat, contextDone: bool, exits: bool)
    requires i < |s.threads| && s.threads[i].pc == Launching(k)
    ensures var u := FailedAttempt(s, i, contextDone, exits);
      && u.slot == GiveUpOn(s.slot, exits)
      && |u.threads| == |s.threads| && u.threads[i].transcribes == s.threads[i].transcribes
      && (if contextDone || s.slot.cancelled || k + 1 == STARTUP_ATTEMPTS
          then u.mu.None? && u.threads[i].pc == AfterError(s.threads[i])
          else u.threads[i].pc == Launching(k + 1))
  {
  }

  lemma BrokenAttemptIsARun(s: State, i: nat, attempt: Attempt) returns (steps: seq<Step>, t: State)
    requires i < |s.threads| && s.threads[i].pc.Launching? && (attempt.PortFails? || attempt.LaunchFails?)
    ensures t == Unlock(s, i, AfterError(s.threads[i])) && Leads(s, steps, t)
  {
    t := Unlock(s, i, AfterError(s.threads[i]));
    Stay(t);
    StepFirst(s, Act(i, TryLaunch(attempt)), [], t);
    steps := [Act(i, TryLaunch(attempt))] + [];
  }

  lemma ReadyAttemptIsARun(s: State, i: nat) returns (steps: seq<Step>, t: State)
    requires i < |s.threads| && s.threads[i].pc.Launching?
    ensures Leads(s, steps, t)
    ensures t.slot == MarkReady(Launch(s.slot), |s.slot.procs|) && t.mu.None?
    ensures |t.threads| == |s.threads| && t.threads[i].pc == AfterStart(s.threads[i], |s.slot.procs|)
  {
    var launch := Act(i, TryLaunch(Ready));
    t := Apply(Apply(s, launch), Act(i, ProbeSucceeds));
    Stay(t);
    StepFirst(Apply(s, launch), Act(i, ProbeSucceeds), [], t);
    steps := [Act(i, ProbeSucceeds)] + [];
    StepFirst(s, launch, steps, t);
    steps := [launch] + steps;
  }

  /** Caller `i` has left its startup with this slot and success. */
  predicate Left(s: State, i: nat, slot: Slot, ok: bool, t: State) {
    && t.slot == slot && t.mu.None? && i < |s.threads| == |t.threads| && (ok ==> |slot.procs| > 0)
    && t.threads[i].pc == if ok then AfterStart(s.threads[i], |slot.procs| - 1) else AfterError(s.threads[i])
  }

  /** The sequential loop is one of the runs of the transition system: a caller around which
      only its own processes exit does exactly what StartRun says and frees `mu`. */
  lemma {:induction false} StartRunIsARun(s: State, i: nat, k: nat, script: nat -> Attempt)
    returns (steps: seq<Step>, t: State)
    requires i < |s.threads| && s.threads[i].pc == Launching(k) && k < STARTUP_ATTEMPTS
    ensures Leads(s, steps, t)
    ensures Left(s, i, StartRun(s.slot, k, script).0, StartRun(s.slot, k, script).1, t)
    decreases STARTUP_ATTEMPTS - k
  {
    match script(k)
    case PortFails => steps, t := BrokenAttemptIsARun(s, i, PortFails);
    case LaunchFails => steps, t := BrokenAttemptIsARun(s, i, LaunchFails);
    case Ready => steps, t := ReadyAttemptIsARun(s, i);
    case NotReady(contextDone, exits) =>
      var u;
      steps, u := FailedOnce(s, i, k, contextDone, exits);
      t := u;
      if !contextDone && !s.slot.cancelled && k + 1 < STARTUP_ATTEMPTS {
        var rest;
        rest, t := StartRunIsARun(u, i, k + 1, script);
        LeadsOn(s, steps, u, rest, t);
        steps := steps + rest;
      }
  }

  /* ------------------------------------------------------------------ */
  /* Discards                                                           */
  /* ------------------------------------------------------------------ */

  /** The purpose of a caller that failed on process `p`. */
  predicate DiscardsAfter(pc: Pc, p: nat) {
    pc == WantLock(ToDiscard(p)) || pc == Checking(ToDiscard(p)) || pc == Discarding(p)
  }

  /** A request that failed on `p` never removes another process: with a Start racing
      it, a newer process stays in the slot; if it still finds `p` there, it empties
      the slot and kills `p`. */
  lemma DiscardHitsOnlyItsProcess(steps: seq<Step>, t: State, i: nat, p: nat, action: Action)
    requires Reached(steps, t) && ActEnabled(t, i, action) && DiscardsAfter(t.threads[i].pc, p)
    ensures t.slot.process != Some(p) ==> ActStep(t, i, action).slot == t.slot
    ensures p < |t.slot.procs|
    ensures t.slot.process.Some? ==> p <= t.slot.process.value
    ensures ActStep(t, i, action).slot.process == t.slot.process
            || (t.slot.process == Some(p) && ActStep(t, i, action).slot.process.None?
                && (t.slot.procs[p].exited || ActStep(t, i, action).slot.procs[p].signalled))
  {
    ReachedIsInv(steps, t);
    assert ThreadInv(t, i);
  }
}
