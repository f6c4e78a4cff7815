/**
 What client/client.go promises its callers, over every interleaving of the steps
 of ClientProtocol: one send per channel, no blocked sender, no stranded caller,
 replies routed to their own caller, and a client that stays closed.
 */
module ClientTheorems {
  import opened Prelude
  import opened ClientProtocol

  /* ------------------------------------------------------------------ */
  /* What every step leaves alone                                       */
  /* ------------------------------------------------------------------ */

  /** The call records of `t` continue those of `s`. */
  ghost predicate Continues(s: State, t: State) {
    && |s.calls| <= |t.calls| && |s.procs| <= |t.procs|
    && s.issued <= t.issued && s.restart == t.restart
    && forall c | 0 <= c < |s.calls| ::
         t.calls[c].pid == s.calls[c].pid && (s.calls[c].phase.Returned? ==> t.calls[c].phase == s.calls[c].phase)
  }

  lemma CallerFrame(s: State, c: nat, move: CallerMove)
    requires CallerEnabled(s, c, move)
    ensures Continues(s, MoveCaller(s, c, move))
    ensures MoveCaller(s, c, move).retired == s.retired && |MoveCaller(s, c, move).procs| == |s.procs|
  {
  }

  lemma SidecarFrame(s: State, p: nat, move: SidecarMove)
    requires SidecarEnabled(s, p, move)
    ensures Continues(s, MoveSidecar(s, p, move))
    ensures MoveSidecar(s, p, move).retired == s.retired && |MoveSidecar(s, p, move).procs| == |s.procs|
  {
  }

  lemma StepFrame(s: State, step: Step)
    requires Enabled(s, step)
    ensures Continues(s, Apply(s, step))
    ensures !step.StopProcess? ==> Apply(s, step).retired == s.retired
    ensures |Apply(s, step).procs| == |s.procs| || CanEnsure(s, true)
  {
    match step
    case Caller(c, move) => CallerFrame(s, c, move);
    case Sidecar(p, move) => SidecarFrame(s, p, move);
    case _ =>
  }

  /* ------------------------------------------------------------------ */
  /* Channels                                                           */
  /* ------------------------------------------------------------------ */

  /** Each channel is sent to at most once; an entry still in pending has seen no
      send and no reader holds it; no two readers hold the same channel. */
  lemma OneSendPerChannel(s: State, steps: seq<Step>, t: State)
    requires Reached(s, steps, t)
    ensures forall c | 0 <= c < |t.calls| :: t.calls[c].sends <= 1
    ensures forall c, p: nat | 0 <= c < |t.calls| && IsPending(t, c) :: t.calls[c].sends == 0 && !HeldBy(t, p, c)
    ensures forall p: nat, q: nat, c: nat | HeldBy(t, p, c) && HeldBy(t, q, c) ::
        p == q && c < |t.calls| && t.calls[c].sends == 0
  {
    ReachedIsLive(s, steps, t);
    forall c | 0 <= c < |t.calls| ensures t.calls[c].sends <= 1 && (IsPending(t, c) ==> t.calls[c].sends == 0) {
      assert CallInv(t, c);
    }
    forall p: nat, c: nat | HeldBy(t, p, c)
      ensures c < |t.calls| && t.calls[c].taker == Some(p) && t.calls[c].sends == 0 && !IsPending(t, c)
    {
      assert ReaderInv(t, p);
    }
  }

  /** No send blocks: a reader that took a channel can always send, and the failures
      sent while holding `mu` (failProcess, Close) always find room. */
  lemma SendsNeverBlock(s: State, steps: seq<Step>, t: State)
    requires Reached(s, steps, t)
    ensures forall p | 0 <= p < |t.procs| && t.procs[p].reader.Holding? :: SidecarEnabled(t, p, Send)
    ensures forall p | 0 <= p < |t.procs| && t.procs[p].life == Failing :: SidecarEnabled(t, p, FinishFail)
    ensures Enabled(t, Close)
  {
    ReachedIsLive(s, steps, t);
    forall c | 0 <= c < |t.calls| && IsPending(t, c) ensures t.calls[c].buffer == [] { assert CallInv(t, c); }
    forall p | 0 <= p < |t.procs| && t.procs[p].reader.Holding? ensures SidecarEnabled(t, p, Send) {
      assert ReaderInv(t, p) && CallInv(t, t.procs[p].reader.call);
    }
  }

  /** A reader's next line is always a message it can decode and act on. */
  lemma ReadersNeverStick(s: State, steps: seq<Step>, t: State, p: nat)
    requires Reached(s, steps, t)
    requires p < |t.procs| && t.procs[p].reader == Scanning && t.procs[p].read < |t.procs[p].stdout|
    ensures SidecarEnabled(t, p, Take)
  {
    ReachedIsLive(s, steps, t);
    assert StreamInv(t, p);
    assert t.procs[p].stdout[t.procs[p].read] in t.procs[p].stdout;
  }

  /** Where the wake-up of a waiting caller is. */
  datatype Where = InPending | InReader | InChannel

  predicate At(t: State, c: nat, w: Where)
    requires c < |t.calls|
  {
    match w
    case InPending => IsPending(t, c)
    case InReader => t.calls[c].taker.Some? && HeldBy(t, t.calls[c].taker.value, c)
        && SidecarEnabled(t, t.calls[c].taker.value, Send)
    case InChannel => |t.calls[c].buffer| == 1
  }

  /** A registered caller that still waits has exactly one wake-up: its entry in
      pending, a reader that is free to send, or the message in its channel. */
  lemma ExactlyOneWakeUp(s: State, steps: seq<Step>, t: State, c: nat)
    requires Reached(s, steps, t)
    requires c < |t.calls| && (t.calls[c].phase.Registered? || t.calls[c].phase.Waiting?)
    ensures exists w :: At(t, c, w)
    ensures forall v, w | At(t, c, v) && At(t, c, w) :: v == w
  {
    ReachedIsLive(s, steps, t);
    SendsNeverBlock(s, steps, t);
    assert CallInv(t, c);
    if IsPending(t, c) {
      assert At(t, c, InPending);
    } else if t.calls[c].sends == 1 {
      assert At(t, c, InChannel);
    } else {
      assert At(t, c, InReader);
    }
    if t.calls[c].taker.Some? && HeldBy(t, t.calls[c].taker.value, c) {
      assert ReaderInv(t, t.calls[c].taker.value);
    }
  }

  /* ------------------------------------------------------------------ */
  /* Ownership of pending entries                                       */
  /* ------------------------------------------------------------------ */

  /** A pending entry belongs to the process in the slot unless stopProcess removed
      its process from the slot, and then it never does again. Its call has not returned. */
  lemma PendingOwnership(s: State, steps: seq<Step>, t: State, c: nat)
    requires Reached(s, steps, t)
    requires c < |t.calls| && IsPending(t, c)
    ensures t.process == Some(t.calls[c].pid) <==> t.calls[c].pid !in t.retired
    ensures t.calls[c].phase in {Registered, Waiting, WriteBroken, Cancelling} && t.calls[c].sends == 0
  {
    ReachedIsLive(s, steps, t);
    assert CallInv(t, c);
  }

  predicate NoStops(steps: seq<Step>) {
    forall i | 0 <= i < |steps| :: !steps[i].StopProcess?
  }

  lemma {:induction false} NoStopNoRetired(s: State, steps: seq<Step>)
    requires Legal(s, steps) && NoStops(steps)
    ensures After(s, steps).retired == s.retired
    decreases |steps|
  {
    if steps != [] {
      StepFrame(s, steps[0]);
      NoStopNoRetired(Apply(s, steps[0]), steps[1..]);
    }
  }

  /** Without stopProcess every pending entry is owned by the current process, and an
      empty slot means an empty map: a crash strands no caller. */
  lemma CrashStrandsNoCaller(s: State, steps: seq<Step>, t: State)
    requires Reached(s, steps, t) && NoStops(steps)
    ensures forall c | 0 <= c < |t.calls| && IsPending(t, c) :: t.process == Some(t.calls[c].pid)
    ensures t.process.None? ==> t.pending == map[]
  {
    NoStopNoRetired(s, steps);
    ReachedIsLive(s, steps, t);
    forall c | 0 <= c < |t.calls| && IsPending(t, c) ensures t.process == Some(t.calls[c].pid) {
      PendingOwnership(s, steps, t, c);
    }
    forall id | id in t.pending ensures t.process.Some? {
      assert PendingInv(t, id);
      assert IsPending(t, t.pending[id]);
    }
  }

  lemma Then(s: State, steps: seq<Step>, t: State, step: Step) returns (more: seq<Step>, u: State)
    requires Reached(s, steps, t) && Enabled(t, step) && Apply(t, step).issued < ID_SPACE
    ensures u == Apply(t, step) && more == steps + [step] && Reached(s, more, u)
  {
    ExtendRun(s, steps, step);
    more, u := steps + [step], Apply(t, step);
  }

  /** `Start` waits for its Health call, call 0. */
  predicate HealthWaits(t: State) {
    && !t.closed && t.process == Some(0) && |t.procs| == 1 && t.procs[0].life == Running && t.issued == 1
    && t.starts == [Calling(0)] && |t.calls| == 1
    && t.calls[0].phase == Waiting && t.calls[0].buffer == [] && t.calls[0].id == 1 && t.calls[0].pid == 0
    && t.pending == map[1 := 0]
  }

  /** Another caller, call 1, waits as well. */
  predicate BothWait(t: State) {
    && !t.closed && t.process == Some(0) && |t.procs| == 1 && t.procs[0].life == Running && t.issued == 2
    && t.starts == [Calling(0)] && |t.calls| == 2
    && t.calls[0].phase == Waiting && t.calls[0].id == 1
    && t.calls[1].phase == Waiting && t.calls[1].buffer == [] && t.calls[1].id == 2
    && t.pending == map[1 := 0, 2 := 1]
  }

  lemma HealthCanWait(s: State) returns (steps: seq<Step>, t: State)
    requires Init(s)
    ensures Reached(s, steps, t) && HealthWaits(t)
  {
    steps, t := Then(s, [], s, Start(true));
    steps, t := Then(s, steps, t, BeginHealth(0, false));
    steps, t := Then(s, steps, t, Caller(0, Allocate));
    steps, t := Then(s, steps, t, Caller(0, Register));
    steps, t := Then(s, steps, t, Caller(0, Write));
  }

  lemma BothCanWait(s: State, first: seq<Step>, t0: State) returns (steps: seq<Step>, t: State)
    requires Reached(s, first, t0) && HealthWaits(t0)
    ensures Reached(s, steps, t) && BothWait(t)
  {
    steps, t := Then(s, first, t0, BeginCall(false));
    steps, t := Then(s, steps, t, Caller(1, Allocate));
    steps, t := Then(s, steps, t, Caller(1, Register));
    steps, t := Then(s, steps, t, Caller(1, Write));
  }

  /** The process was stopped under call 1. */
  predicate OneStranded(t: State) {
    && t.process.None? && |t.procs| == 1 && t.issued == 2 && t.starts == [Stopped] && |t.calls| == 2
    && t.calls[0].phase == Returned(Cancelled)
    && t.calls[1].phase == Waiting && t.calls[1].buffer == [] && IsPending(t, 1)
  }

  lemma TimeoutStops(s: State, first: seq<Step>, t0: State) returns (steps: seq<Step>, t: State)
    requires Reached(s, first, t0) && BothWait(t0)
    ensures Reached(s, steps, t) && OneStranded(t) && t.procs[0].life == Running && StopProcess(0) in steps
  {
    steps, t := Then(s, first, t0, Caller(0, Cancel));
    steps, t := Then(s, steps, t, Caller(0, RemoveCancelled));
    steps, t := Then(s, steps, t, EndHealth(0, false));
    steps, t := Then(s, steps, t, StopProcess(0));
  }

  /** The Health call of `Start` times out while another caller waits; `Start` stops the process,
      which exits, and its failure no longer reaches the other caller: it is pending with an
      empty slot. */
  lemma StopProcessCanStrand(s: State) returns (steps: seq<Step>, t: State)
    requires Init(s)
    ensures Reached(s, steps, t) && StopProcess(0) in steps
    ensures OneStranded(t) && t.procs[0].life == Dead
  {
    steps, t := HealthCanWait(s);
    steps, t := BothCanWait(s, steps, t);
    steps, t := TimeoutStops(s, steps, t);
    steps, t := Then(s, steps, t, Sidecar(0, BeginFail));
    steps, t := Then(s, steps, t, Sidecar(0, FinishFail));
  }

  /** Stranded or not, every pending caller is failed when the current process fails
      or the client closes: it gets exactly that failure and the map becomes empty. */
  lemma FailureReachesEveryPendingCall(s: State, steps: seq<Step>, t: State, step: Step)
    requires Reached(s, steps, t) && Enabled(t, step)
    requires (step.Sidecar? && step.sidecar == FinishFail && t.process == Some(step.p)) || (step.Close? && !t.closed)
    ensures Apply(t, step).pending == map[] && Apply(t, step).process.None?
    ensures forall c | 0 <= c < |t.calls| && IsPending(t, c) ::
              Apply(t, step).calls[c].buffer == [Failure(if step.Close? then ClientClosed else ProcessFailed(step.p))]
              && Apply(t, step).calls[c].sends == 1
    ensures forall c | 0 <= c < |t.calls| && !IsPending(t, c) :: Apply(t, step).calls[c] == t.calls[c]
  {
    ReachedIsLive(s, steps, t);
    forall c | 0 <= c < |t.calls| && IsPending(t, c)
      ensures t.calls[c].buffer == [] && t.calls[c].sends == 0
    {
      assert CallInv(t, c);
    }
  }

  /** A process that left the slot, by its failure or by stopProcess, never comes back. */
  lemma {:induction false} RemovedStaysOut(s: State, steps: seq<Step>, p: nat)
    requires Legal(s, steps) && p < |s.procs| && s.process != Some(p)
    ensures p < |After(s, steps).procs| && After(s, steps).process != Some(p)
    decreases |steps|
  {
    if steps != [] {
      StepFrame(s, steps[0]);
      SlotFrame(s, steps[0], p);
      RemovedStaysOut(Apply(s, steps[0]), steps[1..], p);
    }
  }

  lemma SlotFrame(s: State, step: Step, p: nat)
    requires Enabled(s, step) && p < |s.procs| && s.process != Some(p)
    ensures Apply(s, step).process != Some(p)
  {
    match step
    case Caller(c, move) => SlotOfCaller(s, c, move);
    case Sidecar(q, move) => SlotOfSidecar(s, q, move);
    case _ =>
  }

  lemma SlotOfCaller(s: State, c: nat, move: CallerMove)
    requires CallerEnabled(s, c, move)
    ensures MoveCaller(s, c, move).process == s.process
  {
  }

  lemma SlotOfSidecar(s: State, p: nat, move: SidecarMove)
    requires SidecarEnabled(s, p, move)
    ensures MoveSidecar(s, p, move).process == s.process || MoveSidecar(s, p, move).process.None?
  {
  }

  /** So its late failure, however much later it comes, disturbs nobody: no call, no pending entry,
      no slot and no other process. */
  lemma StaleFailureIsLocal(s: State, steps: seq<Step>, p: nat)
    requires Legal(s, steps) && p < |s.procs| && s.process != Some(p)
    requires SidecarEnabled(After(s, steps), p, FinishFail)
    ensures var t := After(s, steps);
      var u := MoveSidecar(t, p, FinishFail);
      && u.pending == t.pending && u.calls == t.calls && u.process == t.process
      && forall q | 0 <= q < |t.procs| && q != p :: u.procs[q] == t.procs[q]
  {
    RemovedStaysOut(s, steps, p);
  }

  /** Cancelling one call, or cleaning up its failed write, leaves every other
      call's record and pending entry as they are. */
  lemma RemovalTouchesOnlyItsCaller(s: State, steps: seq<Step>, t: State, step: Step, d: nat)
    requires Reached(s, steps, t) && Enabled(t, step) && step.Caller?
        && (step.caller == RemoveCancelled || step.caller == RemoveBroken)
    requires d < |t.calls| && d != step.c
    ensures Apply(t, step).calls[d] == t.calls[d]
    ensures IsPending(Apply(t, step), d) <==> IsPending(t, d)
    ensures !IsPending(Apply(t, step), step.c)
  {
    ReachedIsLive(s, steps, t);
    assert CallInv(t, d) && CallInv(t, step.c) && SameCall(t, d, step.c);
  }

  /* ------------------------------------------------------------------ */
  /* Close                                                              */
  /* ------------------------------------------------------------------ */

  predicate ClosedDown(s: State) {
    s.closed && s.process.None? && s.pending == map[]
  }

  /** Once closed, the client stays closed: no process, no pending entry and no
      further launch, whatever steps follow. */
  lemma {:induction false} ClosedIsFinal(s: State, steps: seq<Step>)
    requires ClosedDown(s) && Legal(s, steps)
    ensures ClosedDown(After(s, steps)) && |After(s, steps).procs| == |s.procs|
    decreases |steps|
  {
    if steps != [] {
      var t := Apply(s, steps[0]);
      assert ClosedDown(t) && |t.procs| == |s.procs|;
      ClosedIsFinal(t, steps[1..]);
    }
  }

  lemma CloseClosesDown(s: State, steps: seq<Step>, t: State)
    requires Reached(s, steps, t)
    ensures Enabled(t, Close) && ClosedDown(Apply(t, Close))
  {
    SendsNeverBlock(s, steps, t);
    ReachedIsLive(s, steps, t);
  }

  /** In a closed client every caller that still waits has its message, or a reader
      that can send it. */
  lemma ClosedLeavesNobodyWaiting(s: State, steps: seq<Step>, t: State, c: nat)
    requires Reached(s, steps, t) && t.closed
    requires c < |t.calls| && (t.calls[c].phase.Registered? || t.calls[c].phase.Waiting?)
    ensures |t.calls[c].buffer| == 1 || exists p :: HeldBy(t, p, c) && SidecarEnabled(t, p, Send)
  {
    ExactlyOneWakeUp(s, steps, t, c);
    ReachedIsLive(s, steps, t);
    var w :| At(t, c, w);
  }

  /** A returned call never changes its outcome: one call, one outcome. */
  lemma {:induction false} OutcomesAreFinal(s: State, steps: seq<Step>, c: nat)
    requires Legal(s, steps) && c < |s.calls|
    ensures c < |After(s, steps).calls| && After(s, steps).calls[c].pid == s.calls[c].pid
    ensures s.calls[c].phase.Returned? ==> After(s, steps).calls[c].phase == s.calls[c].phase
    decreases |steps|
  {
    if steps != [] {
      StepFrame(s, steps[0]);
      OutcomesAreFinal(Apply(s, steps[0]), steps[1..], c);
    }
  }

  /* ------------------------------------------------------------------ */
  /* Routing                                                            */
  /* ------------------------------------------------------------------ */

  /** The sidecars print only replies to requests written to them, under the same
      id, and error replies without id. */
  ghost predicate HonestSidecars(s: State, steps: seq<Step>)
    requires Legal(s, steps)
    decreases |steps|
  {
    steps != [] ==>
      && (steps[0].Sidecar? && steps[0].sidecar.Print? ==> HonestReply(s, steps[0].p, steps[0].sidecar.m))
      && HonestSidecars(Apply(s, steps[0]), steps[1..])
  }

  lemma {:induction false} HonestRunsStayHonest(s: State, steps: seq<Step>)
    requires Legal(s, steps) && s.honest && HonestSidecars(s, steps)
    ensures After(s, steps).honest
    decreases |steps|
  {
    if steps != [] {
      HonestRunsStayHonest(Apply(s, steps[0]), steps[1..]);
    }
  }

  /** What a server that answers every line in order prints next: the handling of the first
      request not answered yet, under the id of that request. */
  predicate NextInOrder(s: State, p: nat, m: Message)
    requires p < |s.procs|
  {
    var n := |s.procs[p].stdout|;
    && n < |s.procs[p].stdin| && s.procs[p].stdin[n] < |s.calls|
    && m == Reply(s.calls[s.procs[p].stdin[n]].id, Handling(p, s.procs[p].stdin[n]))
  }

  /** Every sidecar answers its request lines in order with echoed ids. */
  ghost predicate InOrderSidecars(s: State, steps: seq<Step>)
    requires Legal(s, steps)
    decreases |steps|
  {
    steps != [] ==>
      && (steps[0].Sidecar? && steps[0].sidecar.Print? ==> NextInOrder(s, steps[0].p, steps[0].sidecar.m))
      && InOrderSidecars(Apply(s, steps[0]), steps[1..])
  }

  lemma {:induction false} InOrderSidecarsAreHonest(s: State, steps: seq<Step>)
    requires Legal(s, steps) && InOrderSidecars(s, steps)
    ensures HonestSidecars(s, steps)
    decreases |steps|
  {
    if steps != [] {
      InOrderSidecarsAreHonest(Apply(s, steps[0]), steps[1..]);
    }
  }

  /** Whatever the sidecars print, an answered caller gets a message of its own id.
      With honest sidecars it gets the handling of its own request, by the process
      it registered on, across crashes, restarts and late readers. */
  lemma AnswersReachTheirOwnCaller(s: State, steps: seq<Step>, t: State, c: nat)
    requires Reached(s, steps, t)
    requires c < |t.calls| && t.calls[c].phase.Returned? && t.calls[c].phase.outcome.Answered?
    ensures t.calls[c].phase.outcome.id == t.calls[c].id
    ensures HonestSidecars(s, steps) || InOrderSidecars(s, steps) ==>
        t.calls[c].phase.outcome.body == Handling(t.calls[c].pid, c)
  {
    ReachedIsLive(s, steps, t);
    assert CallInv(t, c);
    if InOrderSidecars(s, steps) {
      InOrderSidecarsAreHonest(s, steps);
    }
    if HonestSidecars(s, steps) {
      HonestRunsStayHonest(s, steps);
    }
  }

  /** A caller that is failed learns something that happened: ErrClosed only from a closed client,
      a process failure only after that process was killed, "stopped before request" only after its
      process left the slot, and a write error only after its own process was killed for it. */
  lemma FailuresAreReal(s: State, steps: seq<Step>, t: State, c: nat)
    requires Reached(s, steps, t) && c < |t.calls| && t.calls[c].phase.Returned?
    ensures t.calls[c].phase.outcome == Rejected || t.calls[c].phase.outcome == Failed(ClientClosed) ==> t.closed
    ensures forall p: nat | t.calls[c].phase.outcome == Failed(ProcessFailed(p)) ::
              p < |t.procs| && t.procs[p].life == Dead
    ensures t.calls[c].phase.outcome == Stale ==> t.process != Some(t.calls[c].pid)
    ensures t.calls[c].phase.outcome == WriteError ==>
              t.calls[c].pid < |t.procs| && t.procs[t.calls[c].pid].life == Dead
  {
    ReachedIsLive(s, steps, t);
    assert CallInv(t, c);
  }

  /** An error reply without id, which decodes as id 0, resolves no one. */
  lemma IdlessReplyResolvesNoOne(s: State, steps: seq<Step>, t: State, p: nat)
    requires Reached(s, steps, t) && SidecarEnabled(t, p, Take) && t.procs[p].stdout[t.procs[p].read].id == 0
    ensures MoveSidecar(t, p, Take).calls == t.calls && MoveSidecar(t, p, Take).pending == t.pending
    ensures MoveSidecar(t, p, Take).procs[p].reader == Scanning
  {
    ReachedIsLive(s, steps, t);
    assert PendingInv(t, 0);
    assert forall c | 0 <= c < |t.calls| && IsPending(t, c) :: CallInv(t, c);
    assert 0 in t.pending ==> IsPending(t, t.pending[0]);
  }

  /** A request line is written at most once, to the process its call registered on. */
  lemma WrittenAtMostOnce(s: State, steps: seq<Step>, t: State, p: nat, i: nat, q: nat, j: nat)
    requires Reached(s, steps, t)
    requires p < |t.procs| && i < |t.procs[p].stdin| && q < |t.procs| && j < |t.procs[q].stdin|
    requires t.procs[p].stdin[i] == t.procs[q].stdin[j]
    ensures p == q && i == j
    ensures t.procs[p].stdin[i] < |t.calls| && t.calls[t.procs[p].stdin[i]].pid == p
  {
    ReachedIsLive(s, steps, t);
    assert StreamInv(t, p) && StreamInv(t, q);
    assert LineInv(t, p, t.procs[p].stdin[i]) && LineInv(t, q, t.procs[q].stdin[j]);
  }

  /** Within the id space every call that has an id has one of its own, in 1..issued. */
  lemma IdsAreUnique(s: State, steps: seq<Step>, t: State, c: nat, d: nat)
    requires Reached(s, steps, t) && c < |t.calls| && d < |t.calls| && c != d
    requires !t.calls[c].phase.Ensured? && !t.calls[d].phase.Ensured?
    ensures 1 <= t.calls[c].id <= t.issued && t.calls[c].id != t.calls[d].id
  {
    ReachedIsLive(s, steps, t);
    assert CallInv(t, c) && CallInv(t, d) && SameCall(t, c, d);
  }

  /** How many ids a run issues. */
  function Allocations(steps: seq<Step>): nat {
    if steps == [] then 0
    else (if steps[0].Caller? && steps[0].caller == Allocate then 1 else 0) + Allocations(steps[1..])
  }

  lemma IssuedStep(s: State, step: Step)
    requires Enabled(s, step)
    ensures Apply(s, step).issued == s.issued + if step.Caller? && step.caller == Allocate then 1 else 0
  {
    match step
    case Caller(c, move) => IssuedByCaller(s, c, move);
    case Sidecar(p, move) => IssuedBySidecar(s, p, move);
    case _ =>
  }

  lemma IssuedByCaller(s: State, c: nat, move: CallerMove)
    requires CallerEnabled(s, c, move)
    ensures MoveCaller(s, c, move).issued == s.issued + if move == Allocate then 1 else 0
  {
  }

  lemma IssuedBySidecar(s: State, p: nat, move: SidecarMove)
    requires SidecarEnabled(s, p, move)
    ensures MoveSidecar(s, p, move).issued == s.issued
  {
  }

  lemma {:induction false} AllocationsAreCounted(s: State, steps: seq<Step>)
    requires Legal(s, steps)
    ensures After(s, steps).issued == s.issued + Allocations(steps)
    decreases |steps|
  {
    if steps != [] {
      IssuedStep(s, steps[0]);
      AllocationsAreCounted(Apply(s, steps[0]), steps[1..]);
    }
  }

  /** The k-th allocation of any run, however long, issues id k modulo 2^64. */
  lemma IdIsItsOrdinal(s: State, steps: seq<Step>, c: nat)
    requires Init(s) && Legal(s, steps) && CallerEnabled(After(s, steps), c, Allocate)
    ensures MoveCaller(After(s, steps), c, Allocate).calls[c].id == (Allocations(steps) + 1) % ID_SPACE
  {
    AllocationsAreCounted(s, steps);
  }

  /** Two allocations get the same id exactly if a multiple of 2^64 lies between them, and an id
      is 0, that of an id-less reply, exactly every 2^64 allocations. */
  lemma IdsRepeatExactlyAfterWrap(t: State, c: nat, u: State, d: nat)
    requires t.issued <= u.issued && CallerEnabled(t, c, Allocate) && CallerEnabled(u, d, Allocate)
    ensures MoveCaller(t, c, Allocate).calls[c].id == MoveCaller(u, d, Allocate).calls[d].id
       <==> (u.issued - t.issued) % ID_SPACE == 0
    ensures MoveCaller(t, c, Allocate).calls[c].id == 0 <==> (t.issued + 1) % ID_SPACE == 0
  {
    SameRemainder(t.issued + 1, u.issued + 1);
  }

  lemma SameRemainder(a: nat, b: nat)
    requires a <= b
    ensures a % ID_SPACE == b % ID_SPACE <==> (b - a) % ID_SPACE == 0
  {
  }

  /** Without RestartOnCrash no process is launched once an id has been issued. */
  lemma {:induction false} NoRestartUnlessConfigured(s: State, steps: seq<Step>)
    requires Legal(s, steps) && !s.restart && 0 < s.issued
    ensures s.issued <= After(s, steps).issued
    ensures After(s, steps).issued < ID_SPACE ==> |After(s, steps).procs| == |s.procs|
    decreases |steps|
  {
    if steps != [] {
      StepFrame(s, steps[0]);
      NoRestartUnlessConfigured(Apply(s, steps[0]), steps[1..]);
    }
  }
}
