/**
 Closing a client of client/client.go: the goroutines under way can take only so many more steps,
 whatever the schedule and whether writes succeed or fail, and when none of them can take another
 step every call has returned.
 */
module ClientShutdown {
  import opened ClientProtocol
  import opened ClientTheorems

  /** The steps of goroutines that are under way: those of a caller, a reader's send, and the failure
      of a process. */
  predicate Winds(step: Step) {
    step.Caller? || (step.Sidecar? && (step.sidecar == Send || step.sidecar == BeginFail || step.sidecar == FinishFail))
  }

  /** Steps that need no context to end and no encoding to fail. */
  predicate Unforced(step: Step) {
    Winds(step) && (step.Caller? ==> step.caller != Cancel && step.caller != FailEncode)
  }

  /* ------------------------------------------------------------------ */
  /* A rank                                                             */
  /* ------------------------------------------------------------------ */

  /** How many steps a caller of a closed client has left at most. */
  function CallRank(call: Call): nat {
    match call.phase
    case Returned(_) => 0
    case Numbered => 1
    case WriteCleaned => 1
    case Cancelling => 1
    case Ensured => 2
    case Waiting => 2
    case WriteBroken => 2
    case Registered => 3
  }

  /** And the waiter and the reader of a process. */
  function ProcessRank(proc: Process): nat {
    (match proc.life case Running => 2 case Failing => 1 case Dead => 0) + (if proc.reader.Holding? then 1 else 0)
  }

  function CallRanks(calls: seq<Call>): nat {
    if calls == [] then 0 else CallRanks(calls[..|calls| - 1]) + CallRank(calls[|calls| - 1])
  }

  function ProcessRanks(procs: seq<Process>): nat {
    if procs == [] then 0 else ProcessRanks(procs[..|procs| - 1]) + ProcessRank(procs[|procs| - 1])
  }

  function Rank(s: State): nat {
    CallRanks(s.calls) + ProcessRanks(s.procs)
  }

  lemma {:induction false} CallRanksUpdate(calls: seq<Call>, c: nat, call: Call)
    requires c < |calls|
    ensures CallRanks(calls[c := call]) + CallRank(calls[c]) == CallRanks(calls) + CallRank(call)
  {
    var n := |calls| - 1;
    if c == n {
      assert calls[c := call][..n] == calls[..n];
    } else {
      assert calls[c := call][..n] == calls[..n][c := call];
      CallRanksUpdate(calls[..n], c, call);
    }
  }

  lemma {:induction false} ProcessRanksUpdate(procs: seq<Process>, p: nat, proc: Process)
    requires p < |procs|
    ensures ProcessRanks(procs[p := proc]) + ProcessRank(procs[p]) == ProcessRanks(procs) + ProcessRank(proc)
  {
    var n := |procs| - 1;
    if p == n {
      assert procs[p := proc][..n] == procs[..n];
    } else {
      assert procs[p := proc][..n] == procs[..n][p := proc];
      ProcessRanksUpdate(procs[..n], p, proc);
    }
  }

  /** Three steps for every call and every process at most. */
  lemma {:induction false} RanksAreBounded(calls: seq<Call>, procs: seq<Process>)
    ensures CallRanks(calls) <= 3 * |calls| && ProcessRanks(procs) <= 3 * |procs|
    decreases |calls| + |procs|
  {
    if calls != [] {
      RanksAreBounded(calls[..|calls| - 1], []);
    }
    if procs != [] {
      RanksAreBounded([], procs[..|procs| - 1]);
    }
  }

  /* ------------------------------------------------------------------ */
  /* Every step of a closed client                                      */
  /* ------------------------------------------------------------------ */

  /** A caller's move changes its own record, and perhaps what was written to its process. */
  lemma CallerMoves(s: State, c: nat, move: CallerMove)
    requires ClosedDown(s) && CallerEnabled(s, c, move)
    ensures var t := MoveCaller(s, c, move);
      && c < |s.calls| == |t.calls| && t.calls == s.calls[c := t.calls[c]]
          && CallRank(t.calls[c]) < CallRank(s.calls[c])
      && |t.procs| == |s.procs|
      && (forall p | 0 <= p < |s.procs| :: ProcessRank(t.procs[p]) == ProcessRank(s.procs[p]))
  {
  }

  lemma {:induction false} SameProcessRanks(a: seq<Process>, b: seq<Process>)
    requires |a| == |b| && forall p | 0 <= p < |a| :: ProcessRank(a[p]) == ProcessRank(b[p])
    ensures ProcessRanks(a) == ProcessRanks(b)
  {
    if a != [] {
      SameProcessRanks(a[..|a| - 1], b[..|b| - 1]);
    }
  }

  lemma {:induction false} SameCallRanks(a: seq<Call>, b: seq<Call>)
    requires |a| == |b| && forall c | 0 <= c < |a| :: CallRank(a[c]) == CallRank(b[c])
    ensures CallRanks(a) == CallRanks(b)
  {
    if a != [] {
      SameCallRanks(a[..|a| - 1], b[..|b| - 1]);
    }
  }

  lemma CallerLowersRank(s: State, c: nat, move: CallerMove)
    requires ClosedDown(s) && CallerEnabled(s, c, move)
    ensures Rank(MoveCaller(s, c, move)) < Rank(s)
  {
    var t := MoveCaller(s, c, move);
    CallerMoves(s, c, move);
    CallRanksUpdate(s.calls, c, t.calls[c]);
    SameProcessRanks(s.procs, t.procs);
  }

  /** A process's move changes its own record, and perhaps the channel of a call. */
  lemma SidecarMoves(s: State, p: nat, move: SidecarMove)
    requires ClosedDown(s) && SidecarEnabled(s, p, move)
    ensures var t := MoveSidecar(s, p, move);
      && p < |s.procs| == |t.procs| && t.procs == s.procs[p := t.procs[p]] && |t.calls| == |s.calls|
      && (forall c | 0 <= c < |s.calls| :: CallRank(t.calls[c]) == CallRank(s.calls[c]))
      && (if Winds(Sidecar(p, move)) then ProcessRank(t.procs[p]) < ProcessRank(s.procs[p])
          else ProcessRank(t.procs[p]) == ProcessRank(s.procs[p]))
  {
  }

  lemma SidecarLowersRank(s: State, p: nat, move: SidecarMove)
    requires ClosedDown(s) && SidecarEnabled(s, p, move)
    ensures if Winds(Sidecar(p, move)) then Rank(MoveSidecar(s, p, move)) < Rank(s)
            else Rank(MoveSidecar(s, p, move)) == Rank(s)
  {
    var t := MoveSidecar(s, p, move);
    SidecarMoves(s, p, move);
    ProcessRanksUpdate(s.procs, p, t.procs[p]);
    SameCallRanks(s.calls, t.calls);
  }

  /** A winding step lowers the rank, and no step raises it. */
  lemma EveryStepLowersRank(s: State, step: Step)
    requires ClosedDown(s) && Enabled(s, step)
    ensures if Winds(step) then Rank(Apply(s, step)) < Rank(s) else Rank(Apply(s, step)) == Rank(s)
  {
    match step
    case Caller(c, move) => CallerLowersRank(s, c, move);
    case Sidecar(p, move) => SidecarLowersRank(s, p, move);
    case _ =>
  }

  /** How many steps of a run wind. */
  function Windings(steps: seq<Step>): nat {
    if steps == [] then 0 else (if Winds(steps[0]) then 1 else 0) + Windings(steps[1..])
  }

  /** Every run from a closed client has at most Rank winding steps, whatever else happens in it. */
  lemma {:induction false} WindingIsBounded(s: State, steps: seq<Step>)
    requires ClosedDown(s) && Legal(s, steps)
    ensures Windings(steps) + Rank(After(s, steps)) <= Rank(s)
    decreases |steps|
  {
    if steps != [] {
      EveryStepLowersRank(s, steps[0]);
      OneStepStaysClosed(s, steps[0]);
      WindingIsBounded(Apply(s, steps[0]), steps[1..]);
    }
  }

  lemma OneStepStaysClosed(s: State, step: Step)
    requires ClosedDown(s) && Enabled(s, step)
    ensures ClosedDown(Apply(s, step))
  {
    ClosedIsFinal(s, [step]);
    assert [step][1..] == [];
  }

  /* ------------------------------------------------------------------ */
  /* Some step is left                                                  */
  /* ------------------------------------------------------------------ */

  /** A caller that waits has its message, or a reader that can send it. */
  lemma WaitingIsServed(s: State, steps: seq<Step>, t: State, c: nat) returns (step: Step)
    requires Reached(s, steps, t) && t.closed && c < |t.calls| && t.calls[c].phase == Waiting
    ensures Enabled(t, step) && Unforced(step)
  {
    ClosedLeavesNobodyWaiting(s, steps, t, c);
    if |t.calls[c].buffer| == 1 {
      step := Caller(c, Receive);
    } else {
      var p: nat :| HeldBy(t, p, c) && SidecarEnabled(t, p, Send);
      step := Sidecar(p, Send);
    }
  }

  /** A caller whose write failed waits for the failure of its process, which can proceed. */
  lemma BrokenIsServed(s: State, steps: seq<Step>, t: State, c: nat) returns (step: Step)
    requires Reached(s, steps, t) && t.closed && c < |t.calls| && t.calls[c].phase == WriteCleaned
    ensures Enabled(t, step) && Unforced(step)
  {
    ReachedIsLive(s, steps, t);
    SendsNeverBlock(s, steps, t);
    assert CallInv(t, c);
    var p := t.calls[c].pid;
    match t.procs[p].life
    case Running => step := Sidecar(p, BeginFail);
    case Failing => step := Sidecar(p, FinishFail);
    case Dead => step := Caller(c, ReturnBroken);
  }

  /** While a call of a closed client has not returned, some goroutine can take a step, without any
      context ending. A request that is not written yet can fail to be. */
  lemma SomeStepIsLeft(s: State, steps: seq<Step>, t: State, c: nat) returns (step: Step)
    requires Reached(s, steps, t) && t.closed && c < |t.calls| && !t.calls[c].phase.Returned?
    ensures Enabled(t, step) && Unforced(step)
  {
    match t.calls[c].phase
    case Ensured => step := Caller(c, Allocate);
    case Numbered => step := Caller(c, Register);
    case Registered => step := Caller(c, FailWrite);
    case Waiting => step := WaitingIsServed(s, steps, t, c);
    case WriteBroken => step := Caller(c, RemoveBroken);
    case WriteCleaned => step := BrokenIsServed(s, steps, t, c);
    case Cancelling => step := Caller(c, RemoveCancelled);
  }

  /** No goroutine can take another step of its own accord. */
  ghost predicate AtRest(t: State) {
    forall step | Unforced(step) :: !Enabled(t, step)
  }

  /** A run and its continuation are one run. */
  lemma {:induction false} ContinueRun(s: State, steps: seq<Step>, more: seq<Step>)
    requires Legal(s, steps) && Legal(After(s, steps), more)
    ensures Legal(s, steps + more) && After(s, steps + more) == After(After(s, steps), more)
    decreases |steps|
  {
    if steps == [] {
      assert steps + more == more;
    } else {
      assert (steps + more)[1..] == steps[1..] + more;
      ContinueRun(Apply(s, steps[0]), steps[1..], more);
    }
  }

  /** A closed client comes to rest: every run that reaches it has at most three winding steps per
      call and process after it, in any order and mixed with anything else, and wherever such a run
      is at rest every call has returned, each with one outcome and at most one send. */
  lemma ClosedClientsComeToRest(s: State, steps: seq<Step>, t: State, more: seq<Step>, u: State)
    requires Reached(s, steps, t) && t.closed && Legal(t, more) && u == After(t, more) && u.issued < ID_SPACE
    ensures Windings(more) <= Rank(t) <= 3 * |t.calls| + 3 * |t.procs|
    ensures |u.calls| == |t.calls|
    ensures forall c | 0 <= c < |t.calls| && t.calls[c].phase.Returned? :: u.calls[c].phase == t.calls[c].phase
    ensures AtRest(u) ==> forall c | 0 <= c < |u.calls| :: u.calls[c].phase.Returned? && u.calls[c].sends <= 1
  {
    CloseClosesDown(s, steps, t);
    WindingIsBounded(t, more);
    RanksAreBounded(t.calls, t.procs);
    CallsStay(t, more);
    ContinueRun(s, steps, more);
    OneSendPerChannel(s, steps + more, u);
    forall c | 0 <= c < |t.calls|
      ensures t.calls[c].phase.Returned? ==> u.calls[c].phase == t.calls[c].phase
      ensures AtRest(u) ==> u.calls[c].phase.Returned?
    {
      OutcomesAreFinal(t, more, c);
      if !u.calls[c].phase.Returned? {
        var step := SomeStepIsLeft(s, steps + more, u, c);
      }
    }
  }

  /** A closed client begins no call. */
  lemma {:induction false} CallsStay(s: State, steps: seq<Step>)
    requires ClosedDown(s) && Legal(s, steps)
    ensures |After(s, steps).calls| == |s.calls| && ClosedDown(After(s, steps))
    decreases |steps|
  {
    if steps != [] {
      OneStepStaysClosed(s, steps[0]);
      match steps[0] {
        case Caller(c, move) => CallerMoves(s, c, move);
        case Sidecar(p, move) => SidecarMoves(s, p, move);
        case _ =>
      }
      CallsStay(Apply(s, steps[0]), steps[1..]);
    }
  }

  /** Any schedule of such steps can be followed to rest; this is one. */
  lemma {:induction false} RestIsReached(s: State, steps: seq<Step>, t: State) returns (later: seq<Step>, u: State)
    requires Reached(s, steps, t) && t.closed && t.issued + Rank(t) < ID_SPACE
    ensures Reached(s, later, u) && u.closed && steps <= later && |later| <= |steps| + Rank(t)
    ensures forall i | |steps| <= i < |later| :: Unforced(later[i])
    ensures AtRest(u)
    decreases Rank(t)
  {
    later, u := steps, t;
    if step: Step :| Unforced(step) && Enabled(t, step) {
      CloseClosesDown(s, steps, t);
      EveryStepLowersRank(t, step);
      OneStepStaysClosed(t, step);
      IssuedStep(t, step);
      var first, v := Then(s, steps, t, step);
      later, u := RestIsReached(s, first, v);
    }
  }
}
