/**
 The supervisor of internal/speech/whispercpp/persistent.go as a transition system:
 callers of Start, Transcribe and Close share a one-token semaphore and a mutex, and
 each launches, probes, stops or discards whisper-server processes under that mutex.
 Steps are the atomic actions of one caller; processes may exit at any time.
 */
module WhisperProtocol {
  import opened Prelude

  /** `startupAttempts`. */
  const STARTUP_ATTEMPTS: nat := 3

  /** One launched whisper-server: did its readiness probe pass, has it exited (its
      `done` channel is closed), was it sent a kill signal. */
  datatype Process = Process(ready: bool, exited: bool, signalled: bool)

  /** The fields guarded by `mu`. Every process ever launched is in `procs`, in order;
      `cancelled` is the lifetime context, whose end kills all of them. */
  datatype Slot = Slot(closed: bool, cancelled: bool, process: Option<nat>, procs: seq<Process>)

  /* ------------------------------------------------------------------ */
  /* Operations on the guarded fields                                   */
  /* ------------------------------------------------------------------ */

  predicate IsRunning(slot: Slot) {
    slot.process.Some? && slot.process.value < |slot.procs| && !slot.procs[slot.process.value].exited
  }

  /** `runningLocked` forgets a process that has exited. */
  function CheckRunning(slot: Slot): Slot {
    if IsRunning(slot) then slot else slot.(process := None)
  }

  /** `launchLocked` and the assignment to the slot. */
  function Launch(slot: Slot): Slot {
    slot.(process := Some(|slot.procs|), procs := slot.procs + [Process(false, false, false)])
  }

  function MarkReady(slot: Slot, p: nat): Slot {
    if p < |slot.procs| then slot.(procs := slot.procs[p := slot.procs[p].(ready := true)]) else slot
  }

  /** `stopProcessLocked` and the reset of the slot: a process that has not exited is killed. */
  function StopAndClear(slot: Slot, p: nat): Slot {
    if p < |slot.procs| && !slot.procs[p].exited then
      slot.(process := None, procs := slot.procs[p := slot.procs[p].(signalled := true)])
    else
      slot.(process := None)
  }

  /** `discardProcess` acts only on the process it was given. */
  function Discard(slot: Slot, p: nat): Slot {
    if slot.process == Some(p) then StopAndClear(slot, p) else slot
  }

  /** The locked part of `Close`. */
  function CloseDown(slot: Slot): Slot {
    if slot.closed then slot else slot.(closed := true, cancelled := true, process := None)
  }

  /** Process `p` exits. */
  function ExitOf(slot: Slot, p: nat): Slot {
    if p < |slot.procs| then slot.(procs := slot.procs[p := slot.procs[p].(exited := true)]) else slot
  }

  /** What the environment does to one startup attempt. A process that is not ready in time may
      have exited before it is stopped. */
  datatype Attempt = PortFails | LaunchFails | Ready | NotReady(contextDone: bool, exits: bool)

  /** The slot after an attempt whose process does not become ready: only a process that has
      not exited is sent a kill signal. */
  function GiveUpOn(slot: Slot, exits: bool): Slot {
    var launched := Launch(slot);
    StopAndClear(if exits then ExitOf(launched, |slot.procs|) else launched, |slot.procs|)
  }

  /** The loop of `startLocked` from attempt `k` on, and whether it succeeds. */
  function StartRun(slot: Slot, k: nat, script: nat -> Attempt): (Slot, bool)
    requires k <= STARTUP_ATTEMPTS
    decreases STARTUP_ATTEMPTS - k
  {
    if k == STARTUP_ATTEMPTS then (slot, false) else
    match script(k)
    case PortFails => (slot, false)
    case LaunchFails => (slot, false)
    case Ready => (MarkReady(Launch(slot), |slot.procs|), true)
    case NotReady(contextDone, exits) =>
      var next := GiveUpOn(slot, exits);
      if contextDone || slot.cancelled then (next, false) else StartRun(next, k + 1, script)
  }

  /* ------------------------------------------------------------------ */
  /* Threads                                                            */
  /* ------------------------------------------------------------------ */

  datatype Purpose = ToStart | ToTranscribe | ToDiscard(p: nat) | ToClose

  /** Where a caller is. From `Checking` to `Retrying`, and in `Discarding`, it holds `mu`. */
  datatype Pc =
    | WantToken
    | WantLock(purpose: Purpose)
    | Checking(purpose: Purpose)
    | Launching(k: nat)                 // k processes launched by this startLocked
    | AwaitingReady(k: nat, p: nat)
    | Stopping(k: nat, p: nat)
    | Retrying(k: nat)
    | Using(p: nat)
    | Discarding(p: nat)
    | ReturningToken
    | AwaitingExit(p: nat)
    | Finished

  datatype Thread = Thread(transcribes: bool, pc: Pc)

  datatype State = State(slot: Slot, tokens: nat, mu: Option<nat>, threads: seq<Thread>)

  datatype Action =
    | AcquireToken
    | GiveUp                            // the context ends while queued
    | Lock
    | Check
    | TryLaunch(attempt: Attempt)       // PortFails, LaunchFails, or the process starts
    | ProbeSucceeds
    | ProbeFails                        // exit before readiness, or the context ends
    | StopIt
    | Retry(contextDone: bool)
    | FinishInference(discards: bool)   // discards: transport error and a live context
    | DiscardIt
    | ReturnToken
    | ExitSeen

  datatype Step =
    | CallStart
    | CallTranscribe
    | CallClose
    | Act(i: nat, action: Action)
    | Exit(p: nat)

  predicate Init(s: State) {
    s == State(Slot(false, false, None, []), 1, None, [])
  }

  predicate HoldsToken(t: Thread) {
    t.transcribes && !t.pc.WantToken? && !t.pc.Finished?
  }

  predicate HoldsLock(t: Thread) {
    || t.pc.Checking? || t.pc.Launching? || t.pc.AwaitingReady? || t.pc.Stopping? || t.pc.Retrying?
    || t.pc.Discarding?
  }

  function SetPc(s: State, i: nat, pc: Pc): State
    requires i < |s.threads|
  {
    s.(threads := s.threads[i := s.threads[i].(pc := pc)])
  }

  /** Release `mu` and continue at `pc`. */
  function Unlock(s: State, i: nat, pc: Pc): State
    requires i < |s.threads|
  {
    SetPc(s, i, pc).(mu := None)
  }

  /** Where a caller continues after an error: Transcribe still has a token to return. */
  function AfterError(t: Thread): Pc {
    if t.transcribes then ReturningToken else Finished
  }

  function AfterStart(t: Thread, p: nat): Pc {
    if t.transcribes then Using(p) else Finished
  }

  predicate ActEnabled(s: State, i: nat, action: Action) {
    && i < |s.threads|
    && var pc := s.threads[i].pc;
       match action
       case AcquireToken => pc.WantToken? && s.tokens > 0
       case GiveUp => pc.WantToken?
       case Lock => pc.WantLock? && s.mu.None?
       case Check => pc.Checking?
       case TryLaunch(attempt) => pc.Launching?
       case ProbeSucceeds => pc.AwaitingReady?
       case ProbeFails => pc.AwaitingReady?
       case StopIt => pc.Stopping?
       case Retry(_) => pc.Retrying?
       case FinishInference(_) => pc.Using?
       case DiscardIt => pc.Discarding?
       case ReturnToken => pc.ReturningToken? && s.tokens == 0   // a full channel blocks
       case ExitSeen => pc.AwaitingExit? && pc.p < |s.slot.procs| && s.slot.procs[pc.p].exited
  }

  predicate Enabled(s: State, step: Step) {
    match step
    case Act(i, action) => ActEnabled(s, i, action)
    case Exit(p) => p < |s.slot.procs|
    case _ => true
  }

  /** The first decisions inside the critical section. */
  function CheckStep(s: State, i: nat): State
    requires i < |s.threads| && s.threads[i].pc.Checking?
  {
    match s.threads[i].pc.purpose
    case ToClose =>
      var u := s.(slot := CloseDown(s.slot));
      if !s.slot.closed && s.slot.process.Some? then Unlock(u, i, AwaitingExit(s.slot.process.value))
      else Unlock(u, i, Finished)
    case ToDiscard(p) =>
      if s.slot.process == Some(p) then SetPc(s, i, Discarding(p)) else Unlock(s, i, AfterError(s.threads[i]))
    case _ =>
      if s.slot.closed then Unlock(s, i, AfterError(s.threads[i]))
      else if IsRunning(s.slot) then Unlock(s, i, AfterStart(s.threads[i], s.slot.process.value))
      else SetPc(s.(slot := CheckRunning(s.slot)), i, Launching(0))
  }

  function ActStep(s: State, i: nat, action: Action): State
    requires ActEnabled(s, i, action)
  {
    var t := s.threads[i];
    match action
    case AcquireToken => SetPc(s.(tokens := s.tokens - 1), i, WantLock(ToTranscribe))
    case GiveUp => SetPc(s, i, Finished)
    case Lock => SetPc(s, i, Checking(t.pc.purpose)).(mu := Some(i))
    case Check => CheckStep(s, i)
    case TryLaunch(attempt) =>
      if attempt.PortFails? || attempt.LaunchFails? then Unlock(s, i, AfterError(t))
      else SetPc(s.(slot := Launch(s.slot)), i, AwaitingReady(t.pc.k + 1, |s.slot.procs|))
    case ProbeSucceeds => Unlock(s.(slot := MarkReady(s.slot, t.pc.p)), i, AfterStart(t, t.pc.p))
    case ProbeFails => SetPc(s, i, Stopping(t.pc.k, t.pc.p))
    case StopIt => SetPc(s.(slot := StopAndClear(s.slot, t.pc.p)), i, Retrying(t.pc.k))
    case Retry(contextDone) =>
      if contextDone || s.slot.cancelled || t.pc.k == STARTUP_ATTEMPTS then Unlock(s, i, AfterError(t))
      else SetPc(s, i, Launching(t.pc.k))
    case FinishInference(discards) =>
      if discards then SetPc(s, i, WantLock(ToDiscard(t.pc.p))) else SetPc(s, i, ReturningToken)
    case DiscardIt => Unlock(s.(slot := Discard(s.slot, t.pc.p)), i, AfterError(t))
    case ReturnToken => SetPc(s.(tokens := s.tokens + 1), i, Finished)
    case ExitSeen => SetPc(s, i, Finished)
  }

  function Apply(s: State, step: Step): State
    requires Enabled(s, step)
  {
    match step
    case CallStart => s.(threads := s.threads + [Thread(false, WantLock(ToStart))])
    case CallTranscribe => s.(threads := s.threads + [Thread(true, WantToken)])
    case CallClose => s.(threads := s.threads + [Thread(false, WantLock(ToClose))])
    case Act(i, action) => ActStep(s, i, action)
    case Exit(p) => s.(slot := ExitOf(s.slot, p))
  }

  /* ------------------------------------------------------------------ */
  /* The invariant                                                      */
  /* ------------------------------------------------------------------ */

  /** `Transcribe` calls past the acquire. */
  function Holders(threads: seq<Thread>): nat {
    if threads == [] then 0
    else Holders(threads[..|threads| - 1]) + (if HoldsToken(threads[|threads| - 1]) then 1 else 0)
  }

  /** Nothing runs unattended: a launched process is in the slot, has exited, or was
      sent a kill signal (by a stop, or by the end of the lifetime context). */
  predicate Attended(slot: Slot, p: nat)
    requires p < |slot.procs|
  {
    slot.process == Some(p) || slot.procs[p].exited || slot.procs[p].signalled || slot.cancelled
  }

  predicate SlotInv(slot: Slot) {
    && slot.cancelled == slot.closed
    && (slot.closed ==> slot.process.None?)
    && (slot.process.Some? ==> slot.process.value == |slot.procs| - 1)
    && (forall p | 0 <= p < |slot.procs| :: Attended(slot, p))
  }

  /** What one thread's place implies. */
  predicate ThreadInv(s: State, i: nat)
    requires i < |s.threads|
  {
    var t := s.threads[i];
    && (HoldsLock(t) <==> s.mu == Some(i))
    && (t.transcribes ==>
          && !t.pc.AwaitingExit?
          && (t.pc.WantLock? || t.pc.Checking? ==> t.pc.purpose.ToTranscribe? || t.pc.purpose.ToDiscard?))
    && (!t.transcribes ==>
          !t.pc.WantToken? && !t.pc.Using? && !t.pc.ReturningToken? && !t.pc.Discarding?
          && (t.pc.WantLock? || t.pc.Checking? ==> t.pc.purpose.ToStart? || t.pc.purpose.ToClose?))
    && match t.pc
       case Launching(k) => k < STARTUP_ATTEMPTS && s.slot.process.None? && !s.slot.closed
       case AwaitingReady(k, p) => 1 <= k <= STARTUP_ATTEMPTS && s.slot.process == Some(p)
       case Stopping(k, p) => 1 <= k <= STARTUP_ATTEMPTS && s.slot.process == Some(p)
       case Retrying(k) => 1 <= k <= STARTUP_ATTEMPTS && s.slot.process.None? && !s.slot.closed
       case Discarding(p) => s.slot.process == Some(p)
       case Using(p) => p < |s.slot.procs| && s.slot.procs[p].ready
       case WantLock(purpose) => purpose.ToDiscard? ==> purpose.p < |s.slot.procs| && s.slot.procs[purpose.p].ready
       case Checking(purpose) => purpose.ToDiscard? ==> purpose.p < |s.slot.procs| && s.slot.procs[purpose.p].ready
       case AwaitingExit(p) => p < |s.slot.procs| && s.slot.closed
       case _ => true
  }

  /** Outside the launch-to-probe stretch the slot holds only a process that became ready. */
  predicate ReadyInv(s: State) {
    s.slot.process.Some? && s.slot.process.value < |s.slot.procs| && !s.slot.procs[s.slot.process.value].ready ==>
      && s.mu.Some? && s.mu.value < |s.threads|
      && (s.threads[s.mu.value].pc.AwaitingReady? || s.threads[s.mu.value].pc.Stopping?)
  }

  ghost predicate Inv(s: State) {
    && SlotInv(s.slot)
    && s.tokens + Holders(s.threads) == 1
    && (s.mu.Some? ==> s.mu.value < |s.threads|)
    && ReadyInv(s)
    && (forall i | 0 <= i < |s.threads| :: ThreadInv(s, i))
  }

  lemma {:induction false} HoldersUpdate(threads: seq<Thread>, i: nat, t: Thread)
    requires i < |threads|
    ensures Holders(threads[i := t]) + (if HoldsToken(threads[i]) then 1 else 0)
         == Holders(threads) + (if HoldsToken(t) then 1 else 0)
  {
    var n := |threads| - 1;
    if i == n {
      assert threads[i := t][..n] == threads[..n];
    } else {
      assert threads[i := t][..n] == threads[..n][i := t];
      HoldersUpdate(threads[..n], i, t);
    }
  }

  lemma {:induction false} HoldersAtLeast(threads: seq<Thread>, i: nat, j: nat)
    requires i < |threads| && j < |threads| && HoldsToken(threads[i]) && HoldsToken(threads[j]) && i != j
    ensures Holders(threads) >= 2
  {
    HoldersUpdate(threads, i, threads[i].(pc := Finished));
    HoldersUpdate(threads[i := threads[i].(pc := Finished)], j, threads[j].(pc := Finished));
  }

  /* ------------------------------------------------------------------ */
  /* Threads                                                            */
  /* ------------------------------------------------------------------ */

  /** A slot only grows: processes stay launched, ready ones stay ready, closed stays closed. */
  predicate Grows(a: Slot, b: Slot) {
    && |a.procs| <= |b.procs| && (a.closed ==> b.closed)
    && forall p | 0 <= p < |a.procs| && a.procs[p].ready :: b.procs[p].ready
  }

  /** What an action of thread `i` can change: without the lock, at most `mu`. */
  lemma ActFrame(s: State, i: nat, action: Action)
    requires ActEnabled(s, i, action) && ThreadInv(s, i)
    ensures var u := ActStep(s, i, action);
      && |u.threads| == |s.threads| && Grows(s.slot, u.slot)
      && (forall j | 0 <= j < |s.threads| && j != i :: u.threads[j] == s.threads[j])
      && (if HoldsLock(s.threads[i]) then s.mu == Some(i) && (u.mu.None? || u.mu == Some(i))
          else u.slot == s.slot && (u.mu == s.mu || (s.mu.None? && u.mu == Some(i))))
  {
  }

  /** A thread that takes no part in a step keeps its invariant. */
  lemma OtherThreadKeeps(s: State, u: State, j: nat)
    requires j < |s.threads| == |u.threads| && ThreadInv(s, j) && u.threads[j] == s.threads[j]
    requires
      if HoldsLock(s.threads[j]) then u.slot == s.slot && u.mu == s.mu
      else Grows(s.slot, u.slot) && u.mu != Some(j)
    ensures ThreadInv(u, j)
  {
  }

  /** The actions that leave the slot alone. */
  predicate Quiet(action: Action) {
    || action.AcquireToken? || action.GiveUp? || action.Lock? || action.ProbeFails? || action.FinishInference?
    || action.ReturnToken? || action.ExitSeen? || action.Retry?
  }

  lemma QuietMovesItsThread(s: State, i: nat, action: Action)
    requires ActEnabled(s, i, action) && Quiet(action) && ThreadInv(s, i)
    ensures |ActStep(s, i, action).threads| == |s.threads| && ThreadInv(ActStep(s, i, action), i)
    ensures ActStep(s, i, action).slot == s.slot
  {
  }

  lemma CheckMovesItsThread(s: State, i: nat)
    requires ActEnabled(s, i, Check) && ThreadInv(s, i) && ReadyInv(s) && SlotInv(s.slot)
    ensures |ActStep(s, i, Check).threads| == |s.threads| && ThreadInv(ActStep(s, i, Check), i)
  {
  }

  lemma WorkMovesItsThread(s: State, i: nat, action: Action)
    requires ActEnabled(s, i, action) && !Quiet(action) && action != Check && ThreadInv(s, i) && SlotInv(s.slot)
    ensures |ActStep(s, i, action).threads| == |s.threads| && ThreadInv(ActStep(s, i, action), i)
  {
  }

  lemma ActKeepsThreads(s: State, i: nat, action: Action)
    requires Inv(s) && ActEnabled(s, i, action)
    ensures |ActStep(s, i, action).threads| == |s.threads|
    ensures forall j | 0 <= j < |s.threads| :: ThreadInv(ActStep(s, i, action), j)
  {
    assert ThreadInv(s, i);
    ActFrame(s, i, action);
    if Quiet(action) {
      QuietMovesItsThread(s, i, action);
    } else if action == Check {
      CheckMovesItsThread(s, i);
    } else {
      WorkMovesItsThread(s, i, action);
    }
    forall j | 0 <= j < |s.threads| && j != i
      ensures ThreadInv(ActStep(s, i, action), j)
    {
      assert ThreadInv(s, j);
      OtherThreadKeeps(s, ActStep(s, i, action), j);
    }
  }

  /* ------------------------------------------------------------------ */
  /* The slot                                                           */
  /* ------------------------------------------------------------------ */

  lemma CheckRunningKeepsSlot(slot: Slot)
    requires SlotInv(slot)
    ensures SlotInv(CheckRunning(slot))
  {
    forall p | 0 <= p < |slot.procs| ensures Attended(CheckRunning(slot), p) { assert Attended(slot, p); }
  }

  lemma LaunchKeepsSlot(slot: Slot)
    requires SlotInv(slot) && slot.process.None? && !slot.closed
    ensures SlotInv(Launch(slot))
  {
    forall p | 0 <= p < |slot.procs| ensures Attended(Launch(slot), p) { assert Attended(slot, p); }
  }

  lemma MarkReadyKeepsSlot(slot: Slot, p: nat)
    requires SlotInv(slot)
    ensures SlotInv(MarkReady(slot, p))
  {
    forall q | 0 <= q < |slot.procs| ensures Attended(MarkReady(slot, p), q) { assert Attended(slot, q); }
  }

  lemma StopKeepsSlot(slot: Slot, p: nat)
    requires SlotInv(slot) && slot.process == Some(p)
    ensures SlotInv(StopAndClear(slot, p)) && StopAndClear(slot, p).process.None?
  {
    forall q | 0 <= q < |slot.procs| ensures Attended(StopAndClear(slot, p), q) { assert Attended(slot, q); }
  }

  lemma CloseKeepsSlot(slot: Slot)
    requires SlotInv(slot)
    ensures SlotInv(CloseDown(slot))
  {
    forall p | 0 <= p < |slot.procs| ensures Attended(CloseDown(slot), p) { assert Attended(slot, p); }
  }

  /** The slot after a step is one of these operations on the slot before. */
  lemma ActKeepsSlotInv(s: State, i: nat, action: Action)
    requires SlotInv(s.slot) && ActEnabled(s, i, action) && ThreadInv(s, i)
    ensures SlotInv(ActStep(s, i, action).slot)
  {
    CheckRunningKeepsSlot(s.slot);
    CloseKeepsSlot(s.slot);
    match action
    case TryLaunch(_) => LaunchKeepsSlot(s.slot);
    case ProbeSucceeds => MarkReadyKeepsSlot(s.slot, s.threads[i].pc.p);
    case StopIt => StopKeepsSlot(s.slot, s.threads[i].pc.p);
    case DiscardIt => StopKeepsSlot(s.slot, s.threads[i].pc.p);
    case _ =>
  }

  lemma ActKeepsReady(s: State, i: nat, action: Action)
    requires SlotInv(s.slot) && ReadyInv(s) && ActEnabled(s, i, action) && ThreadInv(s, i)
    ensures ReadyInv(ActStep(s, i, action))
  {
  }

  lemma ActKeepsSlot(s: State, i: nat, action: Action)
    requires Inv(s) && ActEnabled(s, i, action)
    ensures SlotInv(ActStep(s, i, action).slot) && ReadyInv(ActStep(s, i, action))
  {
    assert ThreadInv(s, i);
    ActKeepsSlotInv(s, i, action);
    ActKeepsReady(s, i, action);
  }

  /** A step moves the token exactly when its thread gains or loses it. */
  lemma ActMovesToken(s: State, i: nat, action: Action)
    requires ActEnabled(s, i, action) && ThreadInv(s, i)
    ensures var u := ActStep(s, i, action);
      && u.threads == s.threads[i := u.threads[i]]
      && u.tokens + (if HoldsToken(u.threads[i]) then 1 else 0)
          == s.tokens + (if HoldsToken(s.threads[i]) then 1 else 0)
      && (u.mu.Some? ==> u.mu == s.mu || u.mu == Some(i))
  {
  }

  lemma ActKeepsTokens(s: State, i: nat, action: Action)
    requires Inv(s) && ActEnabled(s, i, action)
    ensures |ActStep(s, i, action).threads| == |s.threads|
    ensures ActStep(s, i, action).tokens + Holders(ActStep(s, i, action).threads) == 1
    ensures ActStep(s, i, action).mu.Some? ==> ActStep(s, i, action).mu.value < |s.threads|
  {
    assert ThreadInv(s, i);
    ActMovesToken(s, i, action);
    HoldersUpdate(s.threads, i, ActStep(s, i, action).threads[i]);
  }

  lemma CallKeepsInv(s: State, t: Thread)
    requires Inv(s) && !HoldsToken(t) && !HoldsLock(t)
    requires t == Thread(true, WantToken) || t == Thread(false, WantLock(ToStart))
        || t == Thread(false, WantLock(ToClose))
    ensures Inv(s.(threads := s.threads + [t]))
  {
    var u := s.(threads := s.threads + [t]);
    assert u.threads[..|s.threads|] == s.threads;
    forall j | 0 <= j < |u.threads| ensures ThreadInv(u, j) { assert j < |s.threads| ==> ThreadInv(s, j); }
  }

  lemma ExitKeepsInv(s: State, p: nat)
    requires Inv(s) && p < |s.slot.procs|
    ensures Inv(Apply(s, Exit(p)))
  {
    var u := Apply(s, Exit(p));
    forall j | 0 <= j < |u.threads| ensures ThreadInv(u, j) { assert ThreadInv(s, j); }
    forall q | 0 <= q < |u.slot.procs| ensures Attended(u.slot, q) { assert Attended(s.slot, q); }
  }

  lemma StepKeepsInv(s: State, step: Step)
    requires Inv(s) && Enabled(s, step)
    ensures Inv(Apply(s, step))
  {
    match step
    case CallStart => CallKeepsInv(s, Thread(false, WantLock(ToStart)));
    case CallTranscribe => CallKeepsInv(s, Thread(true, WantToken));
    case CallClose => CallKeepsInv(s, Thread(false, WantLock(ToClose)));
    case Act(i, action) =>
      ActKeepsThreads(s, i, action);
      ActKeepsSlot(s, i, action);
      ActKeepsTokens(s, i, action);
    case Exit(p) => ExitKeepsInv(s, p);
  }

  ghost predicate Legal(s: State, steps: seq<Step>)
    decreases |steps|
  {
    steps != [] ==> Enabled(s, steps[0]) && Legal(Apply(s, steps[0]), steps[1..])
  }

  ghost function After(s: State, steps: seq<Step>): State
    requires Legal(s, steps)
    decreases |steps|
  {
    if steps == [] then s else After(Apply(s, steps[0]), steps[1..])
  }

  lemma {:induction false} RunKeepsInv(s: State, steps: seq<Step>)
    requires Inv(s) && Legal(s, steps)
    ensures Inv(After(s, steps))
    decreases |steps|
  {
    if steps != [] {
      StepKeepsInv(s, steps[0]);
      RunKeepsInv(Apply(s, steps[0]), steps[1..]);
    }
  }

  ghost predicate Reached(steps: seq<Step>, t: State) {
    exists s :: Init(s) && Legal(s, steps) && t == After(s, steps)
  }

  lemma ReachedIsInv(steps: seq<Step>, t: State)
    requires Reached(steps, t)
    ensures Inv(t)
  {
    var s :| Init(s) && Legal(s, steps) && t == After(s, steps);
    RunKeepsInv(s, steps);
  }
}
