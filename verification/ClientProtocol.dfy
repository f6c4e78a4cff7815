/**
 The request/response protocol of client/client.go as a transition system.

 Every step is one atomic action of the Go program: a critical section under
 `mu`, an atomic counter increment, one channel operation, or one event of the
 environment (the sidecar prints a line, exits, a write fails, a context ends).
 The steps of different callers, readers and waiters interleave arbitrarily.
 The take of a pending channel (under `mu`) and the send on it (outside `mu`)
 are two steps.
 */
module ClientProtocol {
  import opened Prelude

  /** `nextID` is an `atomic.Uint64`. */
  const ID_SPACE: nat := 0x1_0000_0000_0000_0000

  /** What a reply line carries, by provenance: the handling by process `pid` of
      the request of call `call`, or anything else a sidecar may print. */
  datatype Body = Handling(pid: nat, call: nat) | Foreign(tag: nat)

  datatype Cause = ClientClosed | ProcessFailed(pid: nat)

  /** The values sent on a call's channel. An absent JSON id decodes as 0. */
  datatype Message = Reply(id: nat, body: Body) | Failure(cause: Cause)

  datatype Outcome =
    | Answered(id: nat, body: Body)  // a result or an API error of the sidecar
    | Failed(cause: Cause)
    | Cancelled
    | WriteError
    | EncodeError
    | Rejected                       // ErrClosed at registration
    | Stale                          // "sidecar stopped before request"

  datatype Phase =
    | Ensured              // holds the process returned by ensureProcess
    | Numbered             // an id is issued
    | Registered           // the channel went into pending; nothing written yet
    | Waiting              // request written, blocked in the select
    | WriteBroken          // write failed, removePending comes next
    | WriteCleaned         // then failProcess, then return
    | Cancelling           // the context won the select, removePending comes next
    | Returned(outcome: Outcome)

  /** One invocation of `call`. `buffer` is its channel of capacity 1 and `sends`
      counts every send ever made on it; `taker` remembers the process whose reader
      took it out of pending. */
  datatype Call = Call(pid: nat, id: nat, phase: Phase, buffer: seq<Message>, sends: nat, taker: Option<nat>)

  /** `failProcess` runs once per process: kill and close(done), then the locked part. */
  datatype Life = Running | Failing | Dead

  datatype Reader = Scanning | Holding(call: nat, message: Message) | Ended

  /** `stdin` lists the calls whose request line was written completely, `stdout`
      the messages printed, `read` how many of them the reader has decoded. */
  datatype Process = Process(life: Life, stdin: seq<nat>, stdout: seq<Message>, read: nat, reader: Reader)

  /** One invocation of `Start` after its own ensureProcess: about to call Health, waiting for that
      call, obliged to call stopProcess because readiness failed, returned without error after
      that call, or returned with an error after the stop. */
  datatype Startup = Probing | Calling(c: nat) | MustStop | Up(c: nat) | Stopped

  /** `retired` remembers the processes removed from the slot by stopProcess, and
      `honest` that every printed reply with an id handled a written request of that id. */
  datatype State = State(
    restart: bool, closed: bool, process: Option<nat>, issued: nat, pending: map<nat, nat>,
    procs: seq<Process>, calls: seq<Call>, retired: set<nat>, honest: bool, starts: seq<Startup>)

  /** What the goroutine of one call does next. */
  datatype CallerMove =
    | Allocate
    | FailEncode
    | Register
    | Write
    | FailWrite
    | RemoveBroken
    | ReturnBroken
    | Receive
    | Cancel
    | RemoveCancelled

  /** What happens at one process: the sidecar prints, its reader and waiter act. */
  datatype SidecarMove =
    | Print(m: Message)
    | Take
    | Send
    | EndRead
    | BeginFail
    | FinishFail

  datatype Step =
    | Start(spawns: bool)                  // ensureProcess called by Client.Start
    | BeginHealth(i: nat, spawns: bool)    // the Health call of start `i` gets its process
    | RefuseHealth(i: nat, spawns: bool)   // or none
    | EndHealth(i: nat, ready: bool)       // the Health call returned; only an answer can mean ready
    | BeginCall(spawns: bool)              // ensureProcess called by Client.call
    | Caller(c: nat, caller: CallerMove)
    | Sidecar(p: nat, sidecar: SidecarMove)
    | StopProcess(i: nat)                  // of start `i`, whose readiness failed
    | Close

  predicate Init(s: State) {
    && !s.closed && s.process.None? && s.issued == 0 && s.pending == map[]
    && s.procs == [] && s.calls == [] && s.retired == {} && s.honest && s.starts == []
  }

  /* ------------------------------------------------------------------ */
  /* The critical sections                                              */
  /* ------------------------------------------------------------------ */

  const FRESH: Process := Process(Running, [], [], 0, Scanning)

  /** `ensureProcess` can hand out a process in this state. */
  predicate CanEnsure(s: State, spawns: bool) {
    !s.closed && (s.process.Some? || ((s.issued % ID_SPACE == 0 || s.restart) && spawns))
  }

  function EnsureProcess(s: State): State {
    if s.process.Some? then s else s.(process := Some(|s.procs|), procs := s.procs + [FRESH])
  }

  function Deliver(call: Call, m: Message): Call {
    call.(buffer := call.buffer + [m], sends := call.sends + 1)
  }

  predicate IsPending(s: State, c: nat) {
    c < |s.calls| && s.calls[c].id in s.pending && s.pending[s.calls[c].id] == c
  }

  /** `failPendingLocked`: a failure on every pending channel, then an empty map. */
  function FailPending(s: State, cause: Cause): State {
    s.(pending := map[],
       calls := seq(|s.calls|, c requires 0 <= c < |s.calls| =>
         if IsPending(s, c) then Deliver(s.calls[c], Failure(cause)) else s.calls[c]))
  }

  function SetCall(s: State, c: nat, call: Call): State
    requires c < |s.calls|
  {
    s.(calls := s.calls[c := call])
  }

  function SetPhase(s: State, c: nat, phase: Phase): State
    requires c < |s.calls|
  {
    SetCall(s, c, s.calls[c].(phase := phase))
  }

  function SetStart(s: State, i: nat, startup: Startup): State
    requires i < |s.starts|
  {
    s.(starts := s.starts[i := startup])
  }

  function SetProc(s: State, p: nat, proc: Process): State
    requires p < |s.procs|
  {
    s.(procs := s.procs[p := proc])
  }

  function OutcomeOf(m: Message): Outcome {
    match m
    case Reply(id, body) => Answered(id, body)
    case Failure(cause) => Failed(cause)
  }

  /** The sidecar echoes: a reply with an id is the handling of a request that was
      written to this process under that id. Error replies without id are honest. */
  predicate HonestReply(s: State, p: nat, m: Message)
    requires p < |s.procs|
  {
    && m.Reply?
    && (m.id == 0
        || (m.body.Handling? && m.body.pid == p && m.body.call in s.procs[p].stdin
            && m.body.call < |s.calls| && s.calls[m.body.call].id == m.id))
  }

  /** No channel that a locked failure would send on is full. */
  predicate PendingRoom(s: State) {
    forall c | 0 <= c < |s.calls| && IsPending(s, c) :: s.calls[c].buffer == []
  }

  predicate InPhase(s: State, c: nat, phase: Phase) {
    c < |s.calls| && s.calls[c].phase == phase
  }

  predicate CallerEnabled(s: State, c: nat, move: CallerMove) {
    match move
    case Allocate => InPhase(s, c, Ensured)
    case FailEncode => InPhase(s, c, Numbered)
    case Register => InPhase(s, c, Numbered)
    case Write => InPhase(s, c, Registered) && s.calls[c].pid < |s.procs|
    case FailWrite => InPhase(s, c, Registered)
    case RemoveBroken => InPhase(s, c, WriteBroken)
    case ReturnBroken =>
      InPhase(s, c, WriteCleaned) && s.calls[c].pid < |s.procs| && s.procs[s.calls[c].pid].life == Dead
    case Receive => InPhase(s, c, Waiting) && s.calls[c].buffer != []
    case Cancel => InPhase(s, c, Waiting)
    case RemoveCancelled => InPhase(s, c, Cancelling)
  }

  predicate SidecarEnabled(s: State, p: nat, move: SidecarMove) {
    && p < |s.procs|
    && match move
       case Print(m) => m.Reply?
       case Take =>
         s.procs[p].reader == Scanning && s.procs[p].read < |s.procs[p].stdout|
         && s.procs[p].stdout[s.procs[p].read].Reply?
       case Send =>
         s.procs[p].reader.Holding? && s.procs[p].reader.call < |s.calls|
         && s.calls[s.procs[p].reader.call].buffer == []
       case EndRead => s.procs[p].reader == Scanning
       case BeginFail => s.procs[p].life == Running
       case FinishFail => s.procs[p].life == Failing && (s.process == Some(p) ==> PendingRoom(s))
  }

  predicate InStart(s: State, i: nat, startup: Startup) {
    i < |s.starts| && s.starts[i] == startup
  }

  /** The Health call of start `i` returned; it is ready only with an answer. */
  predicate HealthEnded(s: State, i: nat, ready: bool) {
    && i < |s.starts| && s.starts[i].Calling? && s.starts[i].c < |s.calls|
    && s.calls[s.starts[i].c].phase.Returned?
    && (ready ==> s.calls[s.starts[i].c].phase.outcome.Answered?)
  }

  /** When a step can be taken. Sends on a full channel block. */
  predicate Enabled(s: State, step: Step) {
    match step
    case Start(spawns) => CanEnsure(s, spawns)
    case BeginHealth(i, spawns) => InStart(s, i, Probing) && CanEnsure(s, spawns)
    case RefuseHealth(i, spawns) => InStart(s, i, Probing) && !CanEnsure(s, spawns)
    case EndHealth(i, ready) => HealthEnded(s, i, ready)
    case BeginCall(spawns) => CanEnsure(s, spawns)
    case Caller(c, move) => CallerEnabled(s, c, move)
    case Sidecar(p, move) => SidecarEnabled(s, p, move)
    case StopProcess(i) => InStart(s, i, MustStop)
    case Close => s.closed || PendingRoom(s)
  }

  function BeginCallIn(s: State): (t: State) {
    var t := EnsureProcess(s);
    t.(calls := t.calls + [Call(t.process.value, 0, Ensured, [], 0, None)])
  }

  function AllocateId(s: State, c: nat): State
    requires c < |s.calls|
  {
    SetCall(s, c, s.calls[c].(id := (s.issued + 1) % ID_SPACE, phase := Numbered)).(issued := s.issued + 1)
  }

  function RegisterCall(s: State, c: nat): State
    requires c < |s.calls|
  {
    if s.closed then SetPhase(s, c, Returned(Rejected))
    else if s.process != Some(s.calls[c].pid) then SetPhase(s, c, Returned(Stale))
    else SetPhase(s, c, Registered).(pending := s.pending[s.calls[c].id := c])
  }

  function WriteRequest(s: State, c: nat): State
    requires c < |s.calls| && s.calls[c].pid < |s.procs|
  {
    var proc := s.procs[s.calls[c].pid];
    SetProc(SetPhase(s, c, Waiting), s.calls[c].pid, proc.(stdin := proc.stdin + [c]))
  }

  /** `removePending` and the caller's next phase. */
  function RemovePending(s: State, c: nat, next: Phase): State
    requires c < |s.calls|
  {
    SetPhase(s, c, next).(pending := s.pending - {s.calls[c].id})
  }

  function ReceiveMessage(s: State, c: nat): State
    requires c < |s.calls| && s.calls[c].buffer != []
  {
    var call := s.calls[c];
    SetCall(s, c, call.(phase := Returned(OutcomeOf(call.buffer[0])), buffer := call.buffer[1..]))
  }

  function PrintMessage(s: State, p: nat, m: Message): State
    requires p < |s.procs|
  {
    SetProc(s, p, s.procs[p].(stdout := s.procs[p].stdout + [m])).(honest := s.honest && HonestReply(s, p, m))
  }

  /** The reader decodes its next line and takes the channel out of pending. */
  function TakeChannel(s: State, p: nat): State
    requires p < |s.procs| && s.procs[p].read < |s.procs[p].stdout| && s.procs[p].stdout[s.procs[p].read].Reply?
  {
    var proc := s.procs[p];
    var m := proc.stdout[proc.read];
    if m.id in s.pending && s.pending[m.id] < |s.calls| then
      var c := s.pending[m.id];
      SetProc(SetCall(s, c, s.calls[c].(taker := Some(p))), p, proc.(read := proc.read + 1, reader := Holding(c, m)))
      .(pending := s.pending - {m.id})
    else
      SetProc(s, p, proc.(read := proc.read + 1))
  }

  /** Outside the lock, the reader sends on the channel it took. */
  function SendHeld(s: State, p: nat): State
    requires p < |s.procs| && s.procs[p].reader.Holding? && s.procs[p].reader.call < |s.calls|
  {
    var held := s.procs[p].reader;
    SetProc(SetCall(s, held.call, Deliver(s.calls[held.call], held.message)), p, s.procs[p].(reader := Scanning))
  }

  /** The locked part of `failProcess`: only the current process fails pending calls. */
  function FailLocked(s: State, p: nat): State
    requires p < |s.procs|
  {
    var t := SetProc(s, p, s.procs[p].(life := Dead));
    if s.process == Some(p) then FailPending(t, ProcessFailed(p)).(process := None) else t
  }

  /** The life of a process has no part in failing the pending calls. */
  lemma FailLockedParts(s: State, p: nat)
    requires p < |s.procs|
    ensures var u := FailLocked(s, p);
            && u.restart == s.restart && u.closed == s.closed && |u.procs| == |s.procs|
            && u.process == (if s.process == Some(p) then None else s.process)
            && (s.process == Some(p) ==> u.calls == FailPending(s, ProcessFailed(p)).calls && u.pending == map[])
            && (s.process != Some(p) ==> u.calls == s.calls && u.pending == s.pending)
  {
    var t := SetProc(s, p, s.procs[p].(life := Dead));
    assert forall c: nat | c < |s.calls| :: IsPending(t, c) == IsPending(s, c);
  }

  function StopIn(s: State): State {
    s.(process := None, retired := s.retired + (if s.process.Some? then {s.process.value} else {}))
  }

  function CloseIn(s: State): State {
    if s.closed then s else FailPending(s, ClientClosed).(closed := true, process := None)
  }

  function MoveCaller(s: State, c: nat, move: CallerMove): State
    requires CallerEnabled(s, c, move)
  {
    match move
    case Allocate => AllocateId(s, c)
    case FailEncode => SetPhase(s, c, Returned(EncodeError))
    case Register => RegisterCall(s, c)
    case Write => WriteRequest(s, c)
    case FailWrite => SetPhase(s, c, WriteBroken)
    case RemoveBroken => RemovePending(s, c, WriteCleaned)
    case ReturnBroken => SetPhase(s, c, Returned(WriteError))
    case Receive => ReceiveMessage(s, c)
    case Cancel => SetPhase(s, c, Cancelling)
    case RemoveCancelled => RemovePending(s, c, Returned(Cancelled))
  }

  function MoveSidecar(s: State, p: nat, move: SidecarMove): State
    requires SidecarEnabled(s, p, move)
  {
    match move
    case Print(m) => PrintMessage(s, p, m)
    case Take => TakeChannel(s, p)
    case Send => SendHeld(s, p)
    case EndRead => SetProc(s, p, s.procs[p].(reader := Ended))
    case BeginFail => SetProc(s, p, s.procs[p].(life := Failing))
    case FinishFail => FailLocked(s, p)
  }

  function Apply(s: State, step: Step): State
    requires Enabled(s, step)
  {
    match step
    case Start(_) => EnsureProcess(s).(starts := s.starts + [Probing])
    case BeginHealth(i, _) => SetStart(BeginCallIn(s), i, Calling(|s.calls|))
    case RefuseHealth(i, _) => SetStart(s, i, MustStop)
    case EndHealth(i, ready) => SetStart(s, i, if ready then Up(s.starts[i].c) else MustStop)
    case BeginCall(_) => BeginCallIn(s)
    case Caller(c, move) => MoveCaller(s, c, move)
    case Sidecar(p, move) => MoveSidecar(s, p, move)
    case StopProcess(i) => SetStart(StopIn(s), i, Stopped)
    case Close => CloseIn(s)
  }

  /* ------------------------------------------------------------------ */
  /* The invariant                                                      */
  /* ------------------------------------------------------------------ */

  predicate PastRegistration(phase: Phase) {
    !phase.Ensured? && !phase.Numbered?
  }

  /** Phases in which the caller has not yet been answered or cleaned up. */
  predicate Unfinished(phase: Phase) {
    phase.Registered? || phase.Waiting? || phase.WriteBroken? || phase.Cancelling?
  }

  /** Phases in which the request line may have been written. */
  predicate MayBeWritten(phase: Phase) {
    phase.Waiting? || phase.Cancelling? || phase.Returned?
  }

  predicate HeldBy(s: State, p: nat, c: nat) {
    p < |s.procs| && s.procs[p].reader.Holding? && s.procs[p].reader.call == c
  }

  /** The event that a failure reports took place. */
  predicate Happened(s: State, cause: Cause) {
    match cause
    case ClientClosed => s.closed
    case ProcessFailed(p) => p < |s.procs| && s.procs[p].life == Dead
  }

  /** A message that may be delivered to call `c`. */
  predicate Addressed(s: State, c: nat, m: Message)
    requires c < |s.calls|
  {
    match m
    case Reply(id, body) => id == s.calls[c].id && (s.honest ==> body == Handling(s.calls[c].pid, c))
    case Failure(cause) => Happened(s, cause)
  }

  /** The caller's wake-up exists: an entry in pending, a reader about to send, or a message. */
  predicate WakeUp(s: State, c: nat)
    requires c < |s.calls|
  {
    || IsPending(s, c)
    || s.calls[c].sends == 1
    || (s.calls[c].taker.Some? && HeldBy(s, s.calls[c].taker.value, c))
  }

  predicate SlotInv(s: State) {
    && (s.process.Some? ==> s.process.value < |s.procs| && s.process.value !in s.retired)
    && (forall p | p in s.retired :: p < |s.procs|)
    && (s.closed ==> s.process.None? && s.pending == map[])
  }

  predicate CallInv(s: State, c: nat)
    requires c < |s.calls|
  {
    var call := s.calls[c];
    && call.pid < |s.procs|
    && (if call.phase.Ensured? then call.id == 0 else 1 <= call.id <= s.issued)
    && call.sends <= 1
    && |call.buffer| <= call.sends
    && (!PastRegistration(call.phase) ==> call.sends == 0 && call.taker.None?)
    && (!call.phase.Returned? ==> |call.buffer| == call.sends)
    && (call.buffer != [] ==> Addressed(s, c, call.buffer[0]))
    && (call.phase.Returned? && call.phase.outcome.Answered? ==>
          Addressed(s, c, Reply(call.phase.outcome.id, call.phase.outcome.body)))
    && (call.phase.Returned? && call.phase.outcome.Failed? ==> Happened(s, call.phase.outcome.cause))
    && (call.phase == Returned(Rejected) ==> s.closed)
    && (call.phase == Returned(Stale) ==> s.process != Some(call.pid))
    && (call.phase == Returned(WriteError) ==> s.procs[call.pid].life == Dead)
    && (IsPending(s, c) ==>
          && Unfinished(call.phase) && call.sends == 0 && call.taker.None?
          && (s.process == Some(call.pid) || call.pid in s.retired))
    && (call.phase.Registered? || call.phase.Waiting? ==> WakeUp(s, c))
  }

  predicate PendingInv(s: State, id: nat) {
    id in s.pending ==> s.pending[id] < |s.calls| && s.calls[s.pending[id]].id == id
  }

  predicate ReaderInv(s: State, p: nat)
    requires p < |s.procs|
  {
    s.procs[p].reader.Holding? ==>
      var c, m := s.procs[p].reader.call, s.procs[p].reader.message;
      && c < |s.calls| && m.Reply? && Addressed(s, c, m)
      && PastRegistration(s.calls[c].phase)
      && s.calls[c].sends == 0 && s.calls[c].taker == Some(p) && !IsPending(s, c)
  }

  predicate LineInv(s: State, p: nat, c: nat) {
    c < |s.calls| && s.calls[c].pid == p && s.calls[c].id != 0 && MayBeWritten(s.calls[c].phase)
  }

  predicate NoRepeats(xs: seq<nat>) {
    forall i, j | 0 <= i < j < |xs| :: xs[i] != xs[j]
  }

  predicate StreamInv(s: State, p: nat)
    requires p < |s.procs|
  {
    && NoRepeats(s.procs[p].stdin)
    && (forall c | c in s.procs[p].stdin :: LineInv(s, p, c))
    && (forall m | m in s.procs[p].stdout :: m.Reply? && (s.honest ==> HonestReply(s, p, m)))
  }

  predicate SameCall(s: State, c: nat, d: nat) {
    c < |s.calls| && d < |s.calls| && s.calls[c].id == s.calls[d].id && s.calls[c].id != 0 ==> c == d
  }

  ghost predicate Live(s: State) {
    && SlotInv(s)
    && (forall c | 0 <= c < |s.calls| :: CallInv(s, c))
    && (forall id: nat :: PendingInv(s, id))
    && (forall p | 0 <= p < |s.procs| :: ReaderInv(s, p))
    && (forall p | 0 <= p < |s.procs| :: StreamInv(s, p))
    && (forall c: nat, d: nat :: SameCall(s, c, d))
  }

  /** Every pending entry leads to an empty channel of its own call. */
  ghost predicate Drainable(s: State) {
    forall id: nat | id in s.pending ::
      s.pending[id] < |s.calls| && s.calls[s.pending[id]].id == id && s.calls[s.pending[id]].buffer == []
  }

  lemma LiveIsDrainable(s: State)
    requires Live(s)
    ensures Drainable(s)
  {
    forall id: nat | id in s.pending
      ensures s.pending[id] < |s.calls| && s.calls[s.pending[id]].id == id && s.calls[s.pending[id]].buffer == []
    {
      assert PendingInv(s, id) && CallInv(s, s.pending[id]);
    }
  }

  /** Everything is stated for the first 2^64 - 1 ids, after which the counter wraps. */
  ghost predicate Inv(s: State) {
    s.issued < ID_SPACE ==> Live(s)
  }

  /** The next id is not in use. */
  lemma NewIdIsFree(s: State)
    requires Live(s)
    ensures s.issued + 1 !in s.pending
    ensures forall c | 0 <= c < |s.calls| :: s.calls[c].id < s.issued + 1
  {
    forall c | 0 <= c < |s.calls| ensures s.calls[c].id < s.issued + 1 { assert CallInv(s, c); }
    assert PendingInv(s, s.issued + 1);
  }

  /** The lines on a sidecar's stdin stay in order when a step writes at most one more. */
  lemma WrittenLines(s: State, t: State, p: nat)
    requires p < |s.procs| == |t.procs| && StreamInv(s, p)
    requires |s.calls| <= |t.calls|
    requires t.procs[p].stdin != s.procs[p].stdin ==>
      exists c :: t.procs[p].stdin == s.procs[p].stdin + [c] && LineInv(t, p, c) && !LineInv(s, p, c)
    requires forall c | 0 <= c < |s.calls| ::
      t.calls[c].pid == s.calls[c].pid && t.calls[c].id == s.calls[c].id
          && (MayBeWritten(s.calls[c].phase) ==> MayBeWritten(t.calls[c].phase))
    ensures NoRepeats(t.procs[p].stdin)
    ensures forall c | c in t.procs[p].stdin :: LineInv(t, p, c)
  {
    forall c | c in t.procs[p].stdin ensures LineInv(t, p, c) {
      assert c in s.procs[p].stdin ==> LineInv(s, p, c);
    }
  }

  lemma EnsureKeeps(s: State)
    requires Live(s) && !s.closed
    ensures Live(EnsureProcess(s))
  {
    var t := EnsureProcess(s);
    forall c | 0 <= c < |t.calls| ensures CallInv(t, c) { assert c < |s.calls| ==> CallInv(s, c); }
    forall id: nat ensures PendingInv(t, id) { assert PendingInv(s, id); }
    forall p | 0 <= p < |t.procs| ensures ReaderInv(t, p) { assert p < |s.procs| ==> ReaderInv(s, p); }
    forall p | 0 <= p < |t.procs| ensures StreamInv(t, p) { assert p < |s.procs| ==> StreamInv(s, p); }
    forall c: nat, d: nat ensures SameCall(t, c, d) { assert SameCall(s, c, d); }
  }

  lemma BeginCallKeeps(s0: State)
    requires Live(s0) && !s0.closed
    ensures Live(BeginCallIn(s0))
  {
    EnsureKeeps(s0);
    EnsuredCallKeeps(EnsureProcess(s0));
  }

  lemma EnsuredCallKeeps(s: State)
    requires Live(s) && s.process.Some?
    ensures Live(s.(calls := s.calls + [Call(s.process.value, 0, Ensured, [], 0, None)]))
  {
    var t := s.(calls := s.calls + [Call(s.process.value, 0, Ensured, [], 0, None)]);
    forall c | 0 <= c < |t.calls|
      ensures CallInv(t, c)
    {
      assert c < |s.calls| ==> CallInv(s, c);
      assert PendingInv(s, 0);
    }
    forall id: nat ensures PendingInv(t, id) { assert PendingInv(s, id); }
    forall p | 0 <= p < |t.procs| ensures ReaderInv(t, p) { assert p < |s.procs| ==> ReaderInv(s, p); }
    forall p | 0 <= p < |t.procs| ensures StreamInv(t, p) { assert p < |s.procs| ==> StreamInv(s, p); }
    forall c: nat, d: nat ensures SameCall(t, c, d) { assert SameCall(s, c, d); }
  }

  lemma AllocateKeeps(s: State, c: nat)
    requires Live(s) && InPhase(s, c, Ensured) && s.issued + 1 < ID_SPACE
    ensures Live(AllocateId(s, c))
  {
    var t := AllocateId(s, c);
    NewIdIsFree(s);
    assert CallInv(s, c);
    forall k | 0 <= k < |t.calls| ensures CallInv(t, k) { assert k < |s.calls| ==> CallInv(s, k); }
    forall id: nat ensures PendingInv(t, id) { assert PendingInv(s, id); }
    forall p | 0 <= p < |t.procs| ensures ReaderInv(t, p) { assert p < |s.procs| ==> ReaderInv(s, p); }
    forall p | 0 <= p < |t.procs| ensures StreamInv(t, p) { assert p < |s.procs| ==> StreamInv(s, p); }
    forall k: nat, d: nat ensures SameCall(t, k, d) { assert SameCall(s, k, d); }
  }

  /** A caller may move on by itself when no obligation hangs on the old phase. */
  predicate MayMove(s: State, c: nat, next: Phase)
    requires c < |s.calls|
  {
    match s.calls[c].phase
    case Numbered => next == Returned(EncodeError) || (next == Returned(Rejected) && s.closed)
        || (next == Returned(Stale) && s.process != Some(s.calls[c].pid))
    case Registered => next.WriteBroken?
    case Waiting => next.Cancelling?
    case WriteCleaned =>
      next == Returned(WriteError) && s.calls[c].pid < |s.procs| && s.procs[s.calls[c].pid].life == Dead
    case _ => false
  }

  lemma MoveKeeps(s: State, c: nat, next: Phase)
    requires Live(s) && c < |s.calls| && MayMove(s, c, next)
    ensures Live(SetPhase(s, c, next))
  {
    var t := SetPhase(s, c, next);
    forall k | 0 <= k < |t.calls| ensures CallInv(t, k) { assert k < |s.calls| ==> CallInv(s, k); }
    forall id: nat ensures PendingInv(t, id) { assert PendingInv(s, id); }
    forall p | 0 <= p < |t.procs| ensures ReaderInv(t, p) { assert p < |s.procs| ==> ReaderInv(s, p); }
    forall p | 0 <= p < |t.procs| ensures StreamInv(t, p) { assert p < |s.procs| ==> StreamInv(s, p); }
    forall k: nat, d: nat ensures SameCall(t, k, d) { assert SameCall(s, k, d); }
  }

  lemma RegisterKeeps(s: State, c: nat)
    requires Live(s) && InPhase(s, c, Numbered)
    ensures Live(RegisterCall(s, c))
  {
    if s.closed || s.process != Some(s.calls[c].pid) {
      MoveKeeps(s, c, RegisterCall(s, c).calls[c].phase);
    } else {
      EnterPendingKeeps(s, c);
    }
  }

  lemma EnterPendingKeeps(s: State, c: nat)
    requires Live(s) && InPhase(s, c, Numbered) && !s.closed && s.process == Some(s.calls[c].pid)
    ensures Live(SetPhase(s, c, Registered).(pending := s.pending[s.calls[c].id := c]))
  {
    var t := SetPhase(s, c, Registered).(pending := s.pending[s.calls[c].id := c]);
    forall k | 0 <= k < |t.calls|
      ensures CallInv(t, k)
    {
      assert k < |s.calls| ==> CallInv(s, k);
      assert SameCall(s, k, c);
    }
    forall id: nat ensures PendingInv(t, id) { assert PendingInv(s, id); }
    forall p | 0 <= p < |t.procs| ensures ReaderInv(t, p) { assert p < |s.procs| ==> ReaderInv(s, p); }
    forall p | 0 <= p < |t.procs| ensures StreamInv(t, p) { assert p < |s.procs| ==> StreamInv(s, p); }
    forall k: nat, d: nat ensures SameCall(t, k, d) { assert SameCall(s, k, d); }
  }

  lemma WriteKeeps(s: State, c: nat)
    requires Live(s) && InPhase(s, c, Registered) && s.calls[c].pid < |s.procs|
    ensures Live(WriteRequest(s, c))
  {
    var t := WriteRequest(s, c);
    assert CallInv(s, c);
    forall k | 0 <= k < |t.calls| ensures CallInv(t, k) { assert k < |s.calls| ==> CallInv(s, k); }
    forall id: nat ensures PendingInv(t, id) { assert PendingInv(s, id); }
    forall p | 0 <= p < |t.procs| ensures ReaderInv(t, p) { assert p < |s.procs| ==> ReaderInv(s, p); }
    forall p | 0 <= p < |t.procs|
      ensures StreamInv(t, p)
    {
      assert p < |s.procs| ==> StreamInv(s, p);
      WrittenLines(s, t, p);
    }
    forall k: nat, d: nat ensures SameCall(t, k, d) { assert SameCall(s, k, d); }
  }

  lemma RemoveKeeps(s: State, c: nat, next: Phase)
    requires Live(s)
    requires (InPhase(s, c, WriteBroken) && next.WriteCleaned?)
        || (InPhase(s, c, Cancelling) && next == Returned(Cancelled))
    ensures Live(RemovePending(s, c, next))
  {
    var t := RemovePending(s, c, next);
    forall k | 0 <= k < |t.calls|
      ensures CallInv(t, k)
    {
      assert k < |s.calls| ==> CallInv(s, k);
      assert SameCall(s, k, c);
    }
    forall id: nat ensures PendingInv(t, id) { assert PendingInv(s, id); }
    forall p | 0 <= p < |t.procs| ensures ReaderInv(t, p) { assert p < |s.procs| ==> ReaderInv(s, p); }
    forall p | 0 <= p < |t.procs|
      ensures StreamInv(t, p)
    {
      assert p < |s.procs| ==> StreamInv(s, p);
      WrittenLines(s, t, p);
    }
    forall k: nat, d: nat ensures SameCall(t, k, d) { assert SameCall(s, k, d); }
  }

  lemma ReceiveKeeps(s: State, c: nat)
    requires Live(s) && InPhase(s, c, Waiting) && s.calls[c].buffer != []
    ensures Live(ReceiveMessage(s, c))
  {
    var t := ReceiveMessage(s, c);
    forall k | 0 <= k < |t.calls| ensures CallInv(t, k) { assert k < |s.calls| ==> CallInv(s, k); }
    forall id: nat ensures PendingInv(t, id) { assert PendingInv(s, id); }
    forall p | 0 <= p < |t.procs| ensures ReaderInv(t, p) { assert p < |s.procs| ==> ReaderInv(s, p); }
    forall p | 0 <= p < |t.procs| ensures StreamInv(t, p) { assert p < |s.procs| ==> StreamInv(s, p); }
    forall k: nat, d: nat ensures SameCall(t, k, d) { assert SameCall(s, k, d); }
  }

  lemma PrintKeeps(s: State, p: nat, m: Message)
    requires Live(s) && p < |s.procs| && m.Reply?
    ensures Live(PrintMessage(s, p, m))
  {
    var t := PrintMessage(s, p, m);
    forall c | 0 <= c < |t.calls| ensures CallInv(t, c) { assert c < |s.calls| ==> CallInv(s, c); }
    forall id: nat ensures PendingInv(t, id) { assert PendingInv(s, id); }
    forall q | 0 <= q < |t.procs| ensures ReaderInv(t, q) { assert q < |s.procs| ==> ReaderInv(s, q); }
    forall q | 0 <= q < |t.procs| ensures StreamInv(t, q) { assert q < |s.procs| ==> StreamInv(s, q); }
    forall c: nat, d: nat ensures SameCall(t, c, d) { assert SameCall(s, c, d); }
  }

  /** An honest line that bears the id of a call handles that call on its own process. */
  lemma HonestLineIsOwn(s: State, p: nat, m: Message, c: nat)
    requires Live(s) && p < |s.procs| && m in s.procs[p].stdout
    requires c < |s.calls| && m.Reply? && m.id == s.calls[c].id != 0
    ensures Addressed(s, c, m)
  {
    assert StreamInv(s, p);
    if s.honest {
      assert LineInv(s, p, m.body.call);
      assert SameCall(s, m.body.call, c);
    }
  }

  lemma SkipLineKeeps(s: State, p: nat)
    requires Live(s) && p < |s.procs|
    ensures Live(SetProc(s, p, s.procs[p].(read := s.procs[p].read + 1)))
  {
    var t := SetProc(s, p, s.procs[p].(read := s.procs[p].read + 1));
    forall c | 0 <= c < |t.calls| ensures CallInv(t, c) { assert CallInv(s, c); }
    forall id: nat ensures PendingInv(t, id) { assert PendingInv(s, id); }
    forall q | 0 <= q < |t.procs| ensures ReaderInv(t, q) { assert ReaderInv(s, q); }
    forall q | 0 <= q < |t.procs| ensures StreamInv(t, q) { assert StreamInv(s, q); }
    forall c: nat, d: nat ensures SameCall(t, c, d) { assert SameCall(s, c, d); }
  }

  /** The state after the reader of `p` took the channel of the pending call `c` for `m`. */
  function Taken(s: State, p: nat, m: Message, c: nat): State
    requires p < |s.procs| && c < |s.calls| && m.Reply?
  {
    SetProc(SetCall(s, c, s.calls[c].(taker := Some(p))), p, s.procs[p].(reader := Holding(c, m)))
    .(pending := s.pending - {m.id})
  }

  lemma TakenKeeps(s: State, p: nat, m: Message, c: nat)
    requires Live(s) && p < |s.procs| && s.procs[p].reader == Scanning && m.Reply?
    requires m.id in s.pending && s.pending[m.id] == c < |s.calls| && Addressed(s, c, m)
    ensures Live(Taken(s, p, m, c))
  {
    var t := Taken(s, p, m, c);
    assert CallInv(s, c);
    forall k | 0 <= k < |t.calls| ensures CallInv(t, k) { assert CallInv(s, k); assert SameCall(s, k, c); }
    forall id: nat ensures PendingInv(t, id) { assert PendingInv(s, id); }
    forall q | 0 <= q < |t.procs| ensures ReaderInv(t, q) { assert ReaderInv(s, q); }
    forall q | 0 <= q < |t.procs| ensures StreamInv(t, q) { assert StreamInv(s, q); WrittenLines(s, t, q); }
    forall k: nat, d: nat ensures SameCall(t, k, d) { assert SameCall(s, k, d); }
  }

  lemma TakeKeeps(s: State, p: nat)
    requires Live(s) && SidecarEnabled(s, p, Take)
    ensures Live(TakeChannel(s, p))
  {
    var m := s.procs[p].stdout[s.procs[p].read];
    var t := SetProc(s, p, s.procs[p].(read := s.procs[p].read + 1));
    SkipLineKeeps(s, p);
    assert PendingInv(s, m.id);
    if m.id in s.pending {
      assert CallInv(s, s.pending[m.id]);
      HonestLineIsOwn(s, p, m, s.pending[m.id]);
      TakenKeeps(t, p, m, s.pending[m.id]);
      assert TakeChannel(s, p) == Taken(t, p, m, s.pending[m.id]);
    }
  }

  lemma SendKeeps(s: State, p: nat)
    requires Live(s) && p < |s.procs| && s.procs[p].reader.Holding? && s.procs[p].reader.call < |s.calls|
    ensures Live(SendHeld(s, p))
  {
    var t := SendHeld(s, p);
    assert ReaderInv(s, p);
    forall c | 0 <= c < |t.calls| ensures CallInv(t, c) { assert c < |s.calls| ==> CallInv(s, c); }
    forall id: nat ensures PendingInv(t, id) { assert PendingInv(s, id); }
    forall q | 0 <= q < |t.procs| ensures ReaderInv(t, q) { assert q < |s.procs| ==> ReaderInv(s, q); }
    forall q | 0 <= q < |t.procs| ensures StreamInv(t, q) { assert q < |s.procs| ==> StreamInv(s, q); }
    forall c: nat, d: nat ensures SameCall(t, c, d) { assert SameCall(s, c, d); }
  }

  lemma EndReadKeeps(s: State, p: nat)
    requires Live(s) && p < |s.procs| && s.procs[p].reader == Scanning
    ensures Live(SetProc(s, p, s.procs[p].(reader := Ended)))
  {
    var t := SetProc(s, p, s.procs[p].(reader := Ended));
    forall c | 0 <= c < |t.calls| ensures CallInv(t, c) { assert c < |s.calls| ==> CallInv(s, c); }
    forall id: nat ensures PendingInv(t, id) { assert PendingInv(s, id); }
    forall q | 0 <= q < |t.procs| ensures ReaderInv(t, q) { assert q < |s.procs| ==> ReaderInv(s, q); }
    forall q | 0 <= q < |t.procs| ensures StreamInv(t, q) { assert q < |s.procs| ==> StreamInv(s, q); }
    forall c: nat, d: nat ensures SameCall(t, c, d) { assert SameCall(s, c, d); }
  }

  lemma SetLifeKeeps(s: State, p: nat, life: Life)
    requires Live(s) && p < |s.procs| && (life == Dead || s.procs[p].life != Dead)
    ensures Live(SetProc(s, p, s.procs[p].(life := life)))
  {
    var t := SetProc(s, p, s.procs[p].(life := life));
    forall c | 0 <= c < |t.calls| ensures CallInv(t, c) { assert c < |s.calls| ==> CallInv(s, c); }
    forall id: nat ensures PendingInv(t, id) { assert PendingInv(s, id); }
    forall q | 0 <= q < |t.procs| ensures ReaderInv(t, q) { assert q < |s.procs| ==> ReaderInv(s, q); }
    forall q | 0 <= q < |t.procs| ensures StreamInv(t, q) { assert q < |s.procs| ==> StreamInv(s, q); }
    forall c: nat, d: nat ensures SameCall(t, c, d) { assert SameCall(s, c, d); }
  }

  lemma FailPendingKeeps(s: State, cause: Cause, closes: bool)
    requires Live(s) && Happened(s.(closed := s.closed || closes), cause)
    ensures Live(FailPending(s, cause).(process := None, closed := s.closed || closes))
  {
    var t := FailPending(s, cause).(process := None, closed := s.closed || closes);
    forall c | 0 <= c < |t.calls| ensures CallInv(t, c) { assert c < |s.calls| ==> CallInv(s, c); }
    forall id: nat ensures PendingInv(t, id) { assert PendingInv(s, id); }
    forall p | 0 <= p < |t.procs| ensures ReaderInv(t, p) { assert p < |s.procs| ==> ReaderInv(s, p); }
    forall p | 0 <= p < |t.procs| ensures StreamInv(t, p) { assert p < |s.procs| ==> StreamInv(s, p); }
    forall c: nat, d: nat ensures SameCall(t, c, d) { assert SameCall(s, c, d); }
  }

  lemma FailLockedKeeps(s: State, p: nat)
    requires Live(s) && p < |s.procs|
    ensures Live(FailLocked(s, p))
  {
    SetLifeKeeps(s, p, Dead);
    if s.process == Some(p) {
      FailPendingKeeps(SetProc(s, p, s.procs[p].(life := Dead)), ProcessFailed(p), false);
    }
  }

  lemma StopKeeps(s: State)
    requires Live(s)
    ensures Live(StopIn(s))
  {
    var t := StopIn(s);
    forall c | 0 <= c < |t.calls| ensures CallInv(t, c) { assert c < |s.calls| ==> CallInv(s, c); }
    forall id: nat ensures PendingInv(t, id) { assert PendingInv(s, id); }
    forall p | 0 <= p < |t.procs| ensures ReaderInv(t, p) { assert p < |s.procs| ==> ReaderInv(s, p); }
    forall p | 0 <= p < |t.procs| ensures StreamInv(t, p) { assert p < |s.procs| ==> StreamInv(s, p); }
    forall c: nat, d: nat ensures SameCall(t, c, d) { assert SameCall(s, c, d); }
  }

  /** The invariant does not depend on who is starting. */
  lemma StartsDoNotMatter(s: State, starts: seq<Startup>)
    requires Live(s)
    ensures Live(s.(starts := starts))
  {
    var t := s.(starts := starts);
    forall c | 0 <= c < |t.calls| ensures CallInv(t, c) { assert CallInv(s, c); }
    forall id: nat ensures PendingInv(t, id) { assert PendingInv(s, id); }
    forall p | 0 <= p < |t.procs| ensures ReaderInv(t, p) { assert ReaderInv(s, p); }
    forall p | 0 <= p < |t.procs| ensures StreamInv(t, p) { assert StreamInv(s, p); }
    forall c: nat, d: nat ensures SameCall(t, c, d) { assert SameCall(s, c, d); }
  }

  /** The steps of `Start`. */
  lemma StartKeeps(s: State, step: Step)
    requires Live(s) && Enabled(s, step)
    requires step.Start? || step.BeginHealth? || step.RefuseHealth? || step.EndHealth? || step.StopProcess?
    ensures Live(Apply(s, step))
  {
    match step
    case Start(_) =>
      EnsureKeeps(s);
      StartsDoNotMatter(EnsureProcess(s), s.starts + [Probing]);
    case BeginHealth(i, _) =>
      BeginCallKeeps(s);
      StartsDoNotMatter(BeginCallIn(s), s.starts[i := Calling(|s.calls|)]);
    case RefuseHealth(i, _) => StartsDoNotMatter(s, s.starts[i := MustStop]);
    case EndHealth(i, ready) => StartsDoNotMatter(s, Apply(s, step).starts);
    case StopProcess(i) =>
      StopKeeps(s);
      StartsDoNotMatter(StopIn(s), s.starts[i := Stopped]);
  }

  lemma CloseKeeps(s: State)
    requires Live(s)
    ensures Live(CloseIn(s))
  {
    if !s.closed {
      FailPendingKeeps(s, ClientClosed, true);
    }
  }

  lemma CallerKeeps(s: State, c: nat, move: CallerMove)
    requires Live(s) && CallerEnabled(s, c, move) && (move == Allocate ==> s.issued + 1 < ID_SPACE)
    ensures Live(MoveCaller(s, c, move))
  {
    match move
    case Allocate => AllocateKeeps(s, c);
    case FailEncode => MoveKeeps(s, c, Returned(EncodeError));
    case Register => RegisterKeeps(s, c);
    case Write => WriteKeeps(s, c);
    case FailWrite => MoveKeeps(s, c, WriteBroken);
    case RemoveBroken => RemoveKeeps(s, c, WriteCleaned);
    case ReturnBroken => MoveKeeps(s, c, Returned(WriteError));
    case Receive => ReceiveKeeps(s, c);
    case Cancel => MoveKeeps(s, c, Cancelling);
    case RemoveCancelled => RemoveKeeps(s, c, Returned(Cancelled));
  }

  lemma SidecarKeeps(s: State, p: nat, move: SidecarMove)
    requires Live(s) && SidecarEnabled(s, p, move)
    ensures Live(MoveSidecar(s, p, move))
  {
    match move
    case Print(m) => PrintKeeps(s, p, m);
    case Take => TakeKeeps(s, p);
    case Send => SendKeeps(s, p);
    case EndRead => EndReadKeeps(s, p);
    case BeginFail => SetLifeKeeps(s, p, Failing);
    case FinishFail => FailLockedKeeps(s, p);
  }

  lemma StepKeepsInv(s: State, step: Step)
    requires Inv(s) && Enabled(s, step)
    ensures Inv(Apply(s, step))
  {
    if s.issued < ID_SPACE && Apply(s, step).issued < ID_SPACE {
      match step
      case BeginCall(_) => BeginCallKeeps(s);
      case Caller(c, move) => CallerKeeps(s, c, move);
      case Sidecar(p, move) => SidecarKeeps(s, p, move);
      case Close => CloseKeeps(s);
      case _ => StartKeeps(s, step);
    }
  }

  /* ------------------------------------------------------------------ */
  /* Runs                                                               */
  /* ------------------------------------------------------------------ */

  ghost predicate Legal(s: State, steps: seq<Step>)
    decreases |steps|
  {
    steps != [] ==> Enabled(s, steps[0]) && Legal(Apply(s, steps[0]), steps[1..])
  }

  ghost function After(s: State, steps: seq<Step>): State
    requires Legal(s, steps)
    decreases |steps|
  {
    if steps == [] then s else After(Apply(s, steps[0]), steps[1..])
  }

  lemma {:induction false} RunKeepsInv(s: State, steps: seq<Step>)
    requires Inv(s) && Legal(s, steps)
    ensures Inv(After(s, steps))
    decreases |steps|
  {
    if steps != [] {
      StepKeepsInv(s, steps[0]);
      RunKeepsInv(Apply(s, steps[0]), steps[1..]);
    }
  }

  /** `t` is reached from a new client by some interleaving, within the id space. */
  ghost predicate Reached(s: State, steps: seq<Step>, t: State) {
    Init(s) && Legal(s, steps) && t == After(s, steps) && t.issued < ID_SPACE
  }

  lemma ReachedIsLive(s: State, steps: seq<Step>, t: State)
    requires Reached(s, steps, t)
    ensures Live(t)
  {
    RunKeepsInv(s, steps);
  }

  /** Runs can be extended at their end. */
  lemma {:induction false} ExtendRun(s: State, steps: seq<Step>, step: Step)
    requires Legal(s, steps) && Enabled(After(s, steps), step)
    ensures Legal(s, steps + [step]) && After(s, steps + [step]) == Apply(After(s, steps), step)
    decreases |steps|
  {
    if steps == [] {
      assert [step][1..] == [];
    } else {
      assert (steps + [step])[1..] == steps[1..] + [step];
      ExtendRun(Apply(s, steps[0]), steps[1..], step);
    }
  }
}
