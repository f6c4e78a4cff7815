/**
 Which process a caller of internal/speech/whispercpp/persistent.go ends up with: a live one is
 shared, an exited one is forgotten and replaced, and a startup succeeds exactly if one of its
 three attempts becomes ready.
 */
module WhisperReuse {
  import opened Prelude
  import opened WhisperProtocol
  import opened WhisperTheorems

  /** There is a process in the slot and it has not exited. */
  predicate SlotIsAlive(slot: Slot) {
    exists p | 0 <= p < |slot.procs| :: slot.process == Some(p) && !slot.procs[p].exited
  }

  /** A caller that has the lock fails if the transcriber is closed, takes over the process in the
      slot exactly if that process has not exited, and else starts one in an empty slot. */
  lemma CheckReusesExactly(steps: seq<Step>, t: State, i: nat)
    requires Reached(steps, t) && ActEnabled(t, i, Check)
    requires t.threads[i].pc.purpose in {ToStart, ToTranscribe}
    ensures var u := ActStep(t, i, Check);
      var pc := u.threads[i].pc;
      && u.slot.procs == t.slot.procs && u.slot.closed == t.slot.closed
      && (t.slot.closed ==>
            u.slot == t.slot && u.mu.None? && pc == if t.threads[i].transcribes then ReturningToken else Finished)
      && (!t.slot.closed && SlotIsAlive(t.slot) ==>
            && u.slot == t.slot && u.mu.None?
            && pc == if t.threads[i].transcribes then Using(t.slot.process.value) else Finished)
      && (!t.slot.closed && !SlotIsAlive(t.slot) ==>
            u.slot.process.None? && u.mu == Some(i) && pc == Launching(0))
  {
    ReachedIsInv(steps, t);
    assert ThreadInv(t, i);
  }

  /** So a request that goes out without a startup goes to a process in the slot that became ready
      and has not exited. */
  lemma ReusedIsAlive(steps: seq<Step>, t: State, i: nat, p: nat)
    requires Reached(steps, t) && ActEnabled(t, i, Check) && ActStep(t, i, Check).threads[i].pc == Using(p)
    ensures t.threads[i].pc == Checking(ToTranscribe)
    ensures !t.slot.closed && t.slot.process == Some(p) && p < |t.slot.procs|
    ensures t.slot.procs[p].ready && !t.slot.procs[p].exited
  {
    ReachedIsInv(steps, t);
    assert ThreadInv(t, i);
  }

  /** After an attempt that failed, a caller tries again exactly if its context is live and it has
      launched fewer than three processes; else it gives up, with the slot empty. */
  lemma RetriesExactly(steps: seq<Step>, t: State, i: nat, contextDone: bool)
    requires Reached(steps, t) && ActEnabled(t, i, Retry(contextDone))
    ensures var u := ActStep(t, i, Retry(contextDone));
      var k := t.threads[i].pc.k;
      && u.slot == t.slot && u.slot.process.None? && 1 <= k <= 3
      && (if !contextDone && k < 3
          then u.threads[i].pc == Launching(k) && u.mu == Some(i)
          else u.threads[i].pc == (if t.threads[i].transcribes then ReturningToken else Finished) && u.mu.None?)
  {
    ReachedIsInv(steps, t);
    assert ThreadInv(t, i);
  }

  /* ------------------------------------------------------------------ */
  /* The startup loop                                                   */
  /* ------------------------------------------------------------------ */

  /** Attempt `n` is made: every earlier one was not ready in time, with the context still live. */
  predicate Tried(script: nat -> Attempt, n: nat) {
    forall j: nat | j < n :: script(j).NotReady? && !script(j).contextDone
  }

  /** The slot in which attempt `n` is made, after a process for each earlier one. */
  lemma {:induction false} StartRunFrom(slot: Slot, k: nat, script: nat -> Attempt, n: nat) returns (from: Slot)
    requires k <= n < 3 && !slot.cancelled && slot.process.None? && Tried(script, n)
    ensures from.process.None? && !from.cancelled && |from.procs| == |slot.procs| + n - k
    ensures StartRun(slot, k, script) == StartRun(from, n, script)
    decreases n - k
  {
    from := slot;
    if k < n {
      assert script(k).NotReady? && !script(k).contextDone;
      GiveUpOutcome(slot, script(k).exits);
      from := StartRunFrom(GiveUpOn(slot, script(k).exits), k + 1, script, n);
    }
  }

  /** A startup that comes to attempt `n` with `launched` processes in all. */
  predicate DecidedBy(attempt: Attempt, n: nat, launched: nat, result: (Slot, bool)) {
    var (next, ok) := result;
    match attempt
    case Ready => ok && next.process == Some(launched) && |next.procs| == launched + 1
    case NotReady(contextDone, _) =>
      contextDone || n == 2 ==> !ok && next.process.None? && |next.procs| == launched + 1
    case _ => !ok && next.process.None? && |next.procs| == launched
  }

  lemma LastAttempt(from: Slot, n: nat, script: nat -> Attempt)
    requires n < 3 && !from.cancelled && from.process.None?
    ensures DecidedBy(script(n), n, |from.procs|, StartRun(from, n, script))
  {
    if script(n).NotReady? {
      GiveUpOutcome(from, script(n).exits);
    }
  }

  /** Attempt `n` decides the startup that begins with attempt `k`, unless another one follows: ready
      in time means success with its process, and every other end means failure after the launches
      made so far. */
  lemma AttemptDecides(slot: Slot, k: nat, script: nat -> Attempt, n: nat)
    requires k <= n < 3 && !slot.cancelled && slot.process.None? && Tried(script, n)
    ensures DecidedBy(script(n), n, |slot.procs| + n - k, StartRun(slot, k, script))
  {
    var from := StartRunFrom(slot, k, script, n);
    LastAttempt(from, n, script);
  }

  /** A startup of an open transcriber succeeds exactly if one of three attempts becomes ready and
      each earlier one was not ready in time with the caller's context still live. */
  lemma StartSucceedsExactly(slot: Slot, script: nat -> Attempt)
    requires !slot.cancelled && slot.process.None?
    ensures StartRun(slot, 0, script).1 <==> exists n: nat | n < 3 :: Tried(script, n) && script(n).Ready?
  {
    var n := if !script(0).NotReady? || script(0).contextDone then 0
             else if !script(1).NotReady? || script(1).contextDone then 1 else 2;
    assert Tried(script, n);
    AttemptDecides(slot, 0, script, n);
    forall m: nat | m < 3 && Tried(script, m) && script(m).Ready? ensures StartRun(slot, 0, script).1 {
      AttemptDecides(slot, 0, script, m);
    }
  }

  /* ------------------------------------------------------------------ */
  /* Discards                                                           */
  /* ------------------------------------------------------------------ */

  /** A caller whose request failed on `p` discards it exactly if it is still in the slot. */
  lemma DiscardsExactly(steps: seq<Step>, t: State, i: nat, p: nat)
    requires Reached(steps, t) && ActEnabled(t, i, Check) && t.threads[i].pc == Checking(ToDiscard(p))
    ensures var u := ActStep(t, i, Check);
      && u.slot == t.slot
      && (if t.slot.process == Some(p) then u.threads[i].pc == Discarding(p) && u.mu == Some(i)
          else u.threads[i].pc == ReturningToken && u.mu.None?)
  {
    ReachedIsInv(steps, t);
    assert ThreadInv(t, i);
  }

  /** And then the slot is empty, and `p` alone was killed unless it had exited. */
  lemma DiscardEmptiesTheSlot(steps: seq<Step>, t: State, i: nat, p: nat)
    requires Reached(steps, t) && ActEnabled(t, i, DiscardIt) && t.threads[i].pc == Discarding(p)
    ensures p < |t.slot.procs| && t.slot.process == Some(p)
    ensures var u := ActStep(t, i, DiscardIt);
      && u.slot.process.None? && u.slot.closed == t.slot.closed && u.mu.None? && u.threads[i].pc == ReturningToken
      && |u.slot.procs| == |t.slot.procs|
      && u.slot.procs[p].signalled == (t.slot.procs[p].signalled || !t.slot.procs[p].exited)
      && u.slot.procs[p].exited == t.slot.procs[p].exited
      && forall q | 0 <= q < |t.slot.procs| && q != p :: u.slot.procs[q] == t.slot.procs[q]
  {
    ReachedIsInv(steps, t);
    assert ThreadInv(t, i);
  }

  /** The first Close ends the lifetime, empties the slot and waits for the process that was there;
      any later one returns at once. */
  lemma CloseClosesDown(steps: seq<Step>, t: State, i: nat)
    requires Reached(steps, t) && ActEnabled(t, i, Check) && t.threads[i].pc == Checking(ToClose)
    ensures var u := ActStep(t, i, Check);
      && u.slot.closed && u.slot.cancelled && u.slot.process.None? && u.slot.procs == t.slot.procs && u.mu.None?
      && u.threads[i].pc == if t.slot.process.Some? then AwaitingExit(t.slot.process.value) else Finished
  {
    ReachedIsInv(steps, t);
    assert ThreadInv(t, i);
  }

  /* ------------------------------------------------------------------ */
  /* Surviving an exit                                                  */
  /* ------------------------------------------------------------------ */

  lemma {:induction false} ExtendRun(s: State, steps: seq<Step>, step: Step)
    requires Legal(s, steps) && Enabled(After(s, steps), step)
    ensures Legal(s, steps + [step]) && After(s, steps + [step]) == Apply(After(s, steps), step)
    decreases |steps|
  {
    if steps == [] {
      assert [step][1..] == [];
    } else {
      assert (steps + [step])[1..] == steps[1..] + [step];
      ExtendRun(Apply(s, steps[0]), steps[1..], step);
    }
  }

  lemma Then(steps: seq<Step>, t: State, step: Step) returns (more: seq<Step>, u: State)
    requires Reached(steps, t) && Enabled(t, step)
    ensures u == Apply(t, step) && more == steps + [step] && Reached(more, u)
  {
    var s :| Init(s) && Legal(s, steps) && t == After(s, steps);
    ExtendRun(s, steps, step);
    more, u := steps + [step], Apply(t, step);
  }

  /** Caller `n` is about to launch process `n`, all earlier ones having exited. */
  predicate AboutToLaunch(t: State, n: nat) {
    && t.tokens == 0 && t.mu == Some(n) && |t.threads| == n + 1 && t.threads[n] == Thread(true, Launching(0))
    && !t.slot.closed && !t.slot.cancelled && t.slot.process.None? && |t.slot.procs| == n
  }

  /** Nobody is active, and the process that caller `n - 1` used has exited in its slot. */
  predicate ExitedInSlot(t: State, n: nat) {
    && t.tokens == 1 && t.mu.None? && |t.threads| == n && |t.slot.procs| == n
    && !t.slot.closed && !t.slot.cancelled
    && (if n == 0 then t.slot.process.None? else t.slot.process == Some(n - 1) && t.slot.procs[n - 1].exited)
  }

  lemma CallerComesToLaunch(first: seq<Step>, t0: State, n: nat) returns (steps: seq<Step>, t: State)
    requires Reached(first, t0) && ExitedInSlot(t0, n)
    ensures Reached(steps, t) && first <= steps && AboutToLaunch(t, n)
  {
    steps, t := Then(first, t0, CallTranscribe);
    steps, t := Then(steps, t, Act(n, AcquireToken));
    steps, t := Then(steps, t, Act(n, Lock));
    CheckReusesExactly(steps, t, n);
    steps, t := Then(steps, t, Act(n, Check));
  }

  lemma CallerUses(first: seq<Step>, t0: State, n: nat) returns (steps: seq<Step>, t: State)
    requires Reached(first, t0) && AboutToLaunch(t0, n)
    ensures Reached(steps, t) && first <= steps
    ensures t.tokens == 0 && t.mu.None? && |t.threads| == n + 1 && t.threads[n] == Thread(true, Using(n))
    ensures !t.slot.closed && !t.slot.cancelled && t.slot.process == Some(n) && |t.slot.procs| == n + 1
  {
    steps, t := Then(first, t0, Act(n, TryLaunch(Ready)));
    steps, t := Then(steps, t, Act(n, ProbeSucceeds));
  }

  /** A transcriber survives its server: a caller uses process 0, which exits after the answer, and
      the next caller uses process 1. */
  lemma ExitedIsReplaced() returns (early: seq<Step>, u: State, steps: seq<Step>, t: State)
    ensures Reached(early, u) && u.slot.process == Some(0) && |u.slot.procs| == 1 && u.slot.procs[0].exited
    ensures Reached(steps, t) && early <= steps
    ensures |t.threads| == 2 && t.threads[1] == Thread(true, Using(1)) && t.slot.process == Some(1)
  {
    var s := State(Slot(false, false, None, []), 1, None, []);
    assert Legal(s, []) && After(s, []) == s;
    early, u := CallerComesToLaunch([], s, 0);
    early, u := CallerUses(early, u, 0);
    early, u := Then(early, u, Act(0, FinishInference(false)));
    early, u := Then(early, u, Act(0, ReturnToken));
    early, u := Then(early, u, Exit(0));
    steps, t := CallerComesToLaunch(early, u, 1);
    steps, t := CallerUses(steps, t, 1);
  }

  lemma CallerComesToDiscard(first: seq<Step>, t0: State, i: nat, p: nat) returns (steps: seq<Step>, t: State)
    requires Reached(first, t0) && i < |t0.threads| && t0.threads[i].pc == Using(p) && t0.mu.None?
    ensures Reached(steps, t) && steps == first + [Act(i, FinishInference(true)), Act(i, Lock), Act(i, Check)]
    ensures |t.threads| == |t0.threads| && t.slot == t0.slot
    ensures if t0.slot.process == Some(p) then t.threads[i].pc == Discarding(p)
            else t.threads[i].pc == ReturningToken && t.mu.None?
  {
    ReachedIsInv(first, t0);
    assert ThreadInv(t0, i);
    steps, t := Then(first, t0, Act(i, FinishInference(true)));
    steps, t := Then(steps, t, Act(i, Lock));
    DiscardsExactly(steps, t, i, p);
    steps, t := Then(steps, t, Act(i, Check));
  }

  /** A request to `p` that fails in transport while the context lives, with the lock free: the
      caller discards `p` if it is still in the slot, and then returns the token; a process that
      replaced `p` stays. */
  lemma FailedRequestDiscards(first: seq<Step>, t0: State, i: nat, p: nat) returns (steps: seq<Step>, t: State)
    requires Reached(first, t0) && i < |t0.threads| && t0.threads[i].pc == Using(p) && t0.mu.None?
    ensures Reached(steps, t) && first + [Act(i, FinishInference(true)), Act(i, Lock), Act(i, Check)] <= steps
    ensures |t.threads| == |t0.threads| && t.threads[i].pc == ReturningToken && t.mu.None?
    ensures t0.slot.process != Some(p) ==> t.slot == t0.slot
    ensures t0.slot.process == Some(p) ==>
      && t.slot.process.None? && |t.slot.procs| == |t0.slot.procs| > p
      && (t.slot.procs[p].exited || t.slot.procs[p].signalled)
  {
    steps, t := CallerComesToDiscard(first, t0, i, p);
    if t0.slot.process == Some(p) {
      DiscardEmptiesTheSlot(steps, t, i, p);
      steps, t := Then(steps, t, Act(i, DiscardIt));
    }
  }

  /** Any other end of a request keeps the process for the next caller. */
  lemma OtherRequestsKeepTheProcess(steps: seq<Step>, t: State, i: nat, p: nat)
    requires Reached(steps, t) && i < |t.threads| && t.threads[i].pc == Using(p)
    ensures ActEnabled(t, i, FinishInference(false))
    ensures var u := ActStep(t, i, FinishInference(false));
      u.slot == t.slot && u.threads[i].pc == ReturningToken && ActEnabled(u, i, ReturnToken)
  {
    OneToken(steps, t);
    ReachedIsInv(steps, t);
    assert ThreadInv(t, i);
    HoldersUpdate(t.threads, i, t.threads[i].(pc := Finished));
  }
}
