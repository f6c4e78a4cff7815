/**
 When the client of client/client.go launches a process, which process a call gets, and how one
 exchange over it goes from registration to answer: stated over every reachable state, with a run
 that survives a crash of its sidecar.
 */
module ClientRestart {
  import opened Prelude
  import opened ClientProtocol
  import opened ClientTheorems

  /* ------------------------------------------------------------------ */
  /* Launching                                                          */
  /* ------------------------------------------------------------------ */

  /** A call begins exactly if the client is open and there is a process, or one can be spawned
      and this is the first launch or RestartOnCrash is set. */
  lemma CallsBeginExactly(s: State, steps: seq<Step>, t: State, spawns: bool)
    requires Reached(s, steps, t)
    ensures Enabled(t, BeginCall(spawns))
       <==> !t.closed && (t.process.Some? || (spawns && (t.issued == 0 || t.restart)))
    ensures Enabled(t, Start(spawns)) <==> Enabled(t, BeginCall(spawns))
    ensures forall i: nat | i < |t.starts| && t.starts[i] == Probing ::
      && (Enabled(t, BeginHealth(i, spawns)) <==> Enabled(t, BeginCall(spawns)))
      && (Enabled(t, RefuseHealth(i, spawns)) <==> !Enabled(t, BeginCall(spawns)))
  {
    assert t.issued % ID_SPACE == t.issued;
  }

  /** A new call joins the process in the slot, and launches nothing. */
  lemma CallJoinsItsProcess(s: State, steps: seq<Step>, t: State, spawns: bool)
    requires Reached(s, steps, t) && !t.closed && t.process.Some?
    ensures Enabled(t, BeginCall(spawns))
    ensures var u := Apply(t, BeginCall(spawns));
      && u.process == t.process && u.procs == t.procs && u.pending == t.pending
      && |u.calls| == |t.calls| + 1 && u.calls[..|t.calls|] == t.calls
      && u.calls[|t.calls|].pid == t.process.value && u.calls[|t.calls|].phase == Ensured
  {
  }

  /** With an empty slot, and with RestartOnCrash or before the first id, a new call launches a
      process of its own number, which runs in the slot; all else stays. */
  lemma CallRestarts(s: State, steps: seq<Step>, t: State)
    requires Reached(s, steps, t) && !t.closed && t.process.None? && (t.restart || t.issued == 0)
    ensures Enabled(t, BeginCall(true))
    ensures var u := Apply(t, BeginCall(true));
      && |u.procs| == |t.procs| + 1 && u.procs[..|t.procs|] == t.procs
      && u.process == Some(|t.procs|) && u.procs[|t.procs|].life == Running
      && u.procs[|t.procs|].stdin == [] && u.procs[|t.procs|].stdout == []
      && |u.calls| == |t.calls| + 1 && u.calls[..|t.calls|] == t.calls && u.pending == t.pending
      && u.calls[|t.calls|].pid == |t.procs| && u.calls[|t.calls|].phase == Ensured
  {
    CallsBeginExactly(s, steps, t, true);
  }

  /* ------------------------------------------------------------------ */
  /* Registration and delivery                                          */
  /* ------------------------------------------------------------------ */

  /** A call that has its id is rejected exactly in a closed client, stale exactly if its process
      left the slot, and else pending under its id, which nobody holds. */
  lemma RegistersExactly(s: State, steps: seq<Step>, t: State, c: nat)
    requires Reached(s, steps, t) && InPhase(t, c, Numbered)
    ensures CallerEnabled(t, c, Register) && t.calls[c].id !in t.pending
    ensures var u := MoveCaller(t, c, Register);
      && (u.calls[c].phase == Returned(Rejected) <==> t.closed)
      && (u.calls[c].phase == Returned(Stale) <==> !t.closed && t.process != Some(t.calls[c].pid))
      && (u.calls[c].phase == Registered <==> !t.closed && t.process == Some(t.calls[c].pid))
      && u.pending == (if !t.closed && t.process == Some(t.calls[c].pid)
                       then t.pending[t.calls[c].id := c] else t.pending)
  {
    ReachedIsLive(s, steps, t);
    assert CallInv(t, c) && PendingInv(t, t.calls[c].id);
    forall d: nat | d < |t.calls| && IsPending(t, d) ensures t.calls[d].id != t.calls[c].id {
      assert CallInv(t, d) && SameCall(t, d, c);
    }
    assert t.calls[c].id in t.pending ==> IsPending(t, t.pending[t.calls[c].id]);
  }

  /** A reply whose id is pending reaches its call: after the take and the send, neither of which
      can block, the channel of that call holds the reply and its entry is gone, while all other
      calls and entries are untouched. */
  lemma ReplyIsDelivered(s: State, steps: seq<Step>, t: State, p: nat, c: nat)
    requires Reached(s, steps, t) && SidecarEnabled(t, p, Take)
    requires var m := t.procs[p].stdout[t.procs[p].read]; m.id in t.pending && t.pending[m.id] == c
    ensures c < |t.calls| && SidecarEnabled(MoveSidecar(t, p, Take), p, Send)
    ensures var m := t.procs[p].stdout[t.procs[p].read];
      var u := MoveSidecar(MoveSidecar(t, p, Take), p, Send);
      && |u.calls| == |t.calls| && u.calls[c].buffer == [m] && u.calls[c].phase == t.calls[c].phase
      && u.pending == t.pending - {m.id} && u.process == t.process
      && u.procs[p].read == t.procs[p].read + 1 && u.procs[p].reader == Scanning
      && forall d | 0 <= d < |t.calls| && d != c :: u.calls[d] == t.calls[d]
  {
    ReachedIsLive(s, steps, t);
    var m := t.procs[p].stdout[t.procs[p].read];
    assert PendingInv(t, m.id);
    assert CallInv(t, c);
  }

  /** And a waiting caller returns what its channel holds: the answer, or the failure. */
  lemma CallerReturnsItsMessage(t: State, c: nat)
    requires InPhase(t, c, Waiting) && t.calls[c].buffer != []
    ensures CallerEnabled(t, c, Receive)
    ensures var m := t.calls[c].buffer[0];
      MoveCaller(t, c, Receive).calls[c].phase
        == Returned(if m.Reply? then Answered(m.id, m.body) else Failed(m.cause))
  {
  }

  /* ------------------------------------------------------------------ */
  /* Surviving a crash                                                  */
  /* ------------------------------------------------------------------ */

  /** The client is open with an empty slot and may launch, after `n` calls and `n` processes. */
  predicate MayLaunch(t: State, n: nat) {
    && !t.closed && t.process.None? && (t.restart || t.issued == 0) && t.pending == map[]
    && |t.calls| == n && |t.procs| == n && t.issued == n && n + 1 < ID_SPACE
  }

  /** Call `n` waits for process `n`. */
  predicate Asked(t: State, n: nat, restart: bool, before: seq<Call>) {
    && !t.closed && t.process == Some(n) && t.restart == restart && t.issued == n + 1 && |before| == n < ID_SPACE - 1
    && |t.procs| == n + 1 && t.procs[n] == Process(Running, [n], [], 0, Scanning)
    && t.calls == before + [Call(n, n + 1, Waiting, [], 0, None)] && t.pending == map[n + 1 := n]
  }

  /** Call `n` was answered by process `n`, which runs on. */
  predicate Served(t: State, n: nat, restart: bool, before: seq<Call>) {
    && !t.closed && t.process == Some(n) && t.restart == restart && t.issued == n + 1
    && |before| == n < ID_SPACE - 1
    && |t.procs| == n + 1 && t.procs[n].life == Running && t.pending == map[]
    && |t.calls| == n + 1 && t.calls[..n] == before
    && t.calls[n].pid == n && t.calls[n].phase == Returned(Answered(n + 1, Handling(n, n)))
  }

  /** Call `n` has its process and its id. */
  predicate Begun(t: State, n: nat, restart: bool, before: seq<Call>) {
    && !t.closed && t.process == Some(n) && t.restart == restart && t.issued == n + 1 && |before| == n < ID_SPACE - 1
    && |t.procs| == n + 1 && t.procs[n] == FRESH
    && t.calls == before + [Call(n, n + 1, Numbered, [], 0, None)] && t.pending == map[]
  }

  lemma CallBegins(s: State, first: seq<Step>, t0: State, n: nat) returns (steps: seq<Step>, t: State)
    requires Reached(s, first, t0) && MayLaunch(t0, n)
    ensures Reached(s, steps, t) && first <= steps && Begun(t, n, t0.restart, t0.calls)
  {
    CallRestarts(s, first, t0);
    steps, t := Then(s, first, t0, BeginCall(true));
    steps, t := Then(s, steps, t, Caller(n, Allocate));
  }

  lemma CallAsks(s: State, first: seq<Step>, t0: State, n: nat) returns (steps: seq<Step>, t: State)
    requires Reached(s, first, t0) && MayLaunch(t0, n)
    ensures Reached(s, steps, t) && first <= steps && Asked(t, n, t0.restart, t0.calls)
  {
    steps, t := CallBegins(s, first, t0, n);
    steps, t := Then(s, steps, t, Caller(n, Register));
    steps, t := Then(s, steps, t, Caller(n, Write));
  }

  lemma SidecarServes(s: State, first: seq<Step>, t0: State, n: nat, restart: bool, before: seq<Call>)
    returns (steps: seq<Step>, t: State)
    requires Reached(s, first, t0) && Asked(t0, n, restart, before)
    ensures Reached(s, steps, t) && first <= steps && Served(t, n, restart, before)
  {
    steps, t := Then(s, first, t0, Sidecar(n, Print(Reply(n + 1, Handling(n, n)))));
    steps, t := Then(s, steps, t, Sidecar(n, Take));
    steps, t := Then(s, steps, t, Sidecar(n, Send));
    steps, t := Then(s, steps, t, Caller(n, Receive));
  }

  lemma SidecarCrashes(s: State, first: seq<Step>, t0: State, n: nat, before: seq<Call>)
    returns (steps: seq<Step>, t: State)
    requires Reached(s, first, t0) && Served(t0, n, true, before) && n + 2 < ID_SPACE
    ensures Reached(s, steps, t) && MayLaunch(t, n + 1) && t.restart && t.calls == t0.calls
    ensures t.procs[n].life == Dead
  {
    steps, t := Then(s, first, t0, Sidecar(n, BeginFail));
    SendsNeverBlock(s, steps, t);
    FailLockedParts(t, n);
    assert t.pending == map[];
    assert FailPending(t, ProcessFailed(n)).calls == t.calls;
    steps, t := Then(s, steps, t, Sidecar(n, FinishFail));
  }

  /** With RestartOnCrash a client survives its sidecar: a call is answered by process 0, which
      then fails and leaves the slot empty, and the next call is answered by process 1. */
  lemma RestartServesAgain(s: State) returns (early: seq<Step>, u: State, steps: seq<Step>, t: State)
    requires Init(s) && s.restart
    ensures Reached(s, early, u) && u.process.None? && |u.calls| == |u.procs| == 1 && u.procs[0].life == Dead
    ensures u.calls[0].phase == Returned(Answered(1, Handling(0, 0)))
    ensures Reached(s, steps, t) && early <= steps && t.process == Some(1)
    ensures |t.calls| == 2 && t.calls[0] == u.calls[0]
    ensures t.calls[1].pid == 1 && t.calls[1].phase == Returned(Answered(2, Handling(1, 1)))
  {
    early, u := CallAsks(s, [], s, 0);
    early, u := SidecarServes(s, early, u, 0, true, []);
    early, u := SidecarCrashes(s, early, u, 0, []);
    steps, t := CallAsks(s, early, u, 1);
    steps, t := SidecarServes(s, steps, t, 1, true, u.calls);
    assert t.calls[..1][0] == u.calls[0];
  }

  /* ------------------------------------------------------------------ */
  /* What Start promises                                                */
  /* ------------------------------------------------------------------ */

  /** Every start that succeeded had its Health call answered. */
  predicate StartsAreReady(s: State) {
    forall i: nat | i < |s.starts| && s.starts[i].Up? ::
      s.starts[i].c < |s.calls| && s.calls[s.starts[i].c].phase.Returned?
      && s.calls[s.starts[i].c].phase.outcome.Answered?
  }

  lemma StepKeepsStarts(s: State, step: Step)
    requires StartsAreReady(s) && Enabled(s, step)
    ensures StartsAreReady(Apply(s, step))
  {
    StepFrame(s, step);
    StartsOf(s, step);
  }

  /** No step but those of `Start` touches a start, and none of them undoes one that succeeded. */
  lemma StartsOf(s: State, step: Step)
    requires Enabled(s, step)
    ensures var u := Apply(s, step);
      forall i: nat | i < |u.starts| && u.starts[i].Up? ::
        (i < |s.starts| && s.starts[i] == u.starts[i])
        || (step == EndHealth(i, true) && i < |s.starts| && s.starts[i] == Calling(u.starts[i].c))
    ensures var u := Apply(s, step);
      forall i: nat | i < |u.starts| && u.starts[i].Stopped? ::
        (i < |s.starts| && s.starts[i].Stopped?) || step == StopProcess(i)
  {
    match step
    case Caller(c, move) => StartsOfCaller(s, c, move);
    case Sidecar(p, move) => StartsOfSidecar(s, p, move);
    case _ =>
  }

  lemma StartsOfCaller(s: State, c: nat, move: CallerMove)
    requires CallerEnabled(s, c, move)
    ensures MoveCaller(s, c, move).starts == s.starts
  {
  }

  lemma StartsOfSidecar(s: State, p: nat, move: SidecarMove)
    requires SidecarEnabled(s, p, move)
    ensures MoveSidecar(s, p, move).starts == s.starts
  {
  }

  lemma {:induction false} RunKeepsStarts(s: State, steps: seq<Step>)
    requires StartsAreReady(s) && Legal(s, steps)
    ensures StartsAreReady(After(s, steps))
    decreases |steps|
  {
    if steps != [] {
      StepKeepsStarts(s, steps[0]);
      RunKeepsStarts(Apply(s, steps[0]), steps[1..]);
    }
  }

  lemma {:induction false} StoppedByStop(s: State, steps: seq<Step>, i: nat)
    requires Legal(s, steps) && i < |After(s, steps).starts| && After(s, steps).starts[i].Stopped?
    requires !(i < |s.starts| && s.starts[i].Stopped?)
    ensures StopProcess(i) in steps
    decreases |steps|
  {
    if steps != [] {
      var t := Apply(s, steps[0]);
      StartsOf(s, steps[0]);
      if !(i < |t.starts| && t.starts[i].Stopped?) {
        StoppedByStop(t, steps[1..], i);
      }
    }
  }

  /** In every run, a Start that returned without error had its Health call answered by the sidecar,
      and one that returned with an error after its launch called stopProcess first. */
  lemma StartMeansReady(s: State, steps: seq<Step>, t: State, i: nat)
    requires Reached(s, steps, t) && i < |t.starts|
    ensures t.starts[i].Up? ==>
      t.starts[i].c < |t.calls| && t.calls[t.starts[i].c].phase.Returned?
      && t.calls[t.starts[i].c].phase.outcome.Answered?
      && t.calls[t.starts[i].c].phase.outcome.id == t.calls[t.starts[i].c].id
    ensures t.starts[i].Stopped? ==> StopProcess(i) in steps
  {
    RunKeepsStarts(s, steps);
    if t.starts[i].Up? {
      AnswersReachTheirOwnCaller(s, steps, t, t.starts[i].c);
    }
    if t.starts[i].Stopped? {
      StoppedByStop(s, steps, i);
    }
  }
}
