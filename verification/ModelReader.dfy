/**
 `readLine` of internal/model/persistent_process.go as a race: a goroutine reads the runtime's
 output and hands its result over a channel, while the caller waits for the result or for the
 end of its context, kills the runtime and joins the goroutine. Every interleaving has the effect
 of one ReadEvent of ModelStream, and no goroutine outlives the call.
 */
module ModelReader {
  import opened Prelude
  import M = ModelStream

  /** One reader goroutine; `channel` is its `resultCh` of capacity 1, and no line is an error. */
  datatype Phase = Reading | Delivering(result: Option<M.Line>) | Done

  datatype Reader = Reader(phase: Phase, channel: seq<Option<M.Line>>)

  /** One runtime: what it printed, how many lines readers consumed, and which were returned. */
  datatype Runtime = Runtime(stdout: seq<M.Line>, read: nat, taken: seq<M.Line>, killed: bool)

  /** The caller's place: outside the lock, inside it, or in the select or the join of `readLine`;
      after an error of `readLine` the runtime is stopped before anything else. */
  datatype Pc = Free | Locked | Selecting(r: nat) | Joining(r: nat) | MustStop

  datatype State = State(pc: Pc, cmd: Option<nat>, runtimes: seq<Runtime>, readers: seq<Reader>)

  datatype Step =
    | Lock
    | Unlock
    | StartRuntime
    | Spawn                              // readLine starts its goroutine
    | Consume(r: nat)                    // the goroutine reads the next line of p.stdout
    | Break(r: nat)                      // or meets the end, an I/O error or a line too long
    | Deliver(r: nat)                    // resultCh <- result
    | Receive                            // the select takes the result
    | ContextEnds                        // the select takes the context, and kills the runtime
    | Join                               // <-resultCh
    | Stop                               // stopLocked
    | Print(p: nat, line: M.Line)

  const FRESH: Runtime := Runtime([], 0, [], false)

  predicate Init(s: State) {
    s == State(Free, None, [], [])
  }

  predicate Live(s: State) {
    s.cmd.Some? && s.cmd.value < |s.runtimes|
  }

  predicate InReadLine(pc: Pc) {
    pc.Selecting? || pc.Joining?
  }

  predicate Enabled(s: State, step: Step) {
    match step
    case Lock => s.pc == Free
    case Unlock => s.pc == Locked
    case StartRuntime => s.pc == Locked && s.cmd.None?
    case Spawn => s.pc == Locked && Live(s)
    case Consume(r) =>
      && r < |s.readers| && s.readers[r].phase == Reading && Live(s)
      && s.runtimes[s.cmd.value].read < |s.runtimes[s.cmd.value].stdout|
    case Break(r) => r < |s.readers| && s.readers[r].phase == Reading
    case Deliver(r) => r < |s.readers| && s.readers[r].phase.Delivering? && s.readers[r].channel == []
    case Receive => s.pc.Selecting? && s.pc.r < |s.readers| && s.readers[s.pc.r].channel != [] && Live(s)
    case ContextEnds => s.pc.Selecting? && Live(s)
    case Join => s.pc.Joining? && s.pc.r < |s.readers| && s.readers[s.pc.r].channel != []
    case Stop => s.pc == Locked || s.pc == MustStop
    case Print(p, _) => p < |s.runtimes|
  }

  function SetReader(s: State, r: nat, reader: Reader): State
    requires r < |s.readers|
  {
    s.(readers := s.readers[r := reader])
  }

  function SetRuntime(s: State, p: nat, runtime: Runtime): State
    requires p < |s.runtimes|
  {
    s.(runtimes := s.runtimes[p := runtime])
  }

  function Kill(s: State): State
    requires Live(s)
  {
    SetRuntime(s, s.cmd.value, s.runtimes[s.cmd.value].(killed := true))
  }

  function ConsumeIn(s: State, r: nat): State
    requires Enabled(s, Consume(r))
  {
    var runtime := s.runtimes[s.cmd.value];
    SetReader(SetRuntime(s, s.cmd.value, runtime.(read := runtime.read + 1)), r,
              Reader(Delivering(Some(runtime.stdout[runtime.read])), s.readers[r].channel))
  }

  function ReceiveIn(s: State): State
    requires Enabled(s, Receive)
  {
    var r := s.pc.r;
    var drained := SetReader(s, r, s.readers[r].(channel := s.readers[r].channel[1..]));
    match s.readers[r].channel[0]
    case None => drained.(pc := MustStop)
    case Some(line) =>
      var runtime := s.runtimes[s.cmd.value];
      SetRuntime(drained, s.cmd.value, runtime.(taken := runtime.taken + [line])).(pc := Locked)
  }

  function Apply(s: State, step: Step): State
    requires Enabled(s, step)
  {
    match step
    case Lock => s.(pc := Locked)
    case Unlock => s.(pc := Free)
    case StartRuntime => s.(cmd := Some(|s.runtimes|), runtimes := s.runtimes + [FRESH])
    case Spawn => s.(pc := Selecting(|s.readers|), readers := s.readers + [Reader(Reading, [])])
    case Consume(r) => ConsumeIn(s, r)
    case Break(r) => SetReader(s, r, s.readers[r].(phase := Delivering(None)))
    case Deliver(r) => SetReader(s, r, Reader(Done, [s.readers[r].phase.result]))
    case Receive => ReceiveIn(s)
    case ContextEnds => Kill(s).(pc := Joining(s.pc.r))
    case Join => SetReader(s, s.pc.r, s.readers[s.pc.r].(channel := s.readers[s.pc.r].channel[1..])).(pc := MustStop)
    case Stop => (if Live(s) then Kill(s) else s).(pc := Locked, cmd := None)
    case Print(p, line) => SetRuntime(s, p, s.runtimes[p].(stdout := s.runtimes[p].stdout + [line]))
  }

  /* ------------------------------------------------------------------ */
  /* The invariant                                                      */
  /* ------------------------------------------------------------------ */

  /** A goroutine is live only during the `readLine` that started it. */
  predicate ReaderInv(s: State, r: nat)
    requires r < |s.readers|
  {
    if InReadLine(s.pc) && s.pc.r == r then |s.readers[r].channel| == (if s.readers[r].phase == Done then 1 else 0)
    else s.readers[r] == Reader(Done, [])
  }

  /** The line that the current goroutine consumed and nobody returned yet. */
  function Carried(s: State): Option<M.Line> {
    if InReadLine(s.pc) && s.pc.r < |s.readers| then
      var reader := s.readers[s.pc.r];
      if reader.phase.Delivering? then reader.phase.result
      else if reader.channel != [] then reader.channel[0]
      else None
    else None
  }

  /** Lines are returned in order, and while the caller could still use the runtime none is lost:
      every consumed line was returned or is carried by the current goroutine. */
  predicate StreamInv(s: State, p: nat)
    requires p < |s.runtimes|
  {
    var runtime := s.runtimes[p];
    && runtime.taken <= runtime.stdout && |runtime.taken| <= runtime.read <= |runtime.stdout|
    && (s.cmd != Some(p) ==> runtime.killed)
    && (s.cmd == Some(p) && !runtime.killed && s.pc != MustStop ==>
          if Carried(s).Some? then runtime.read == |runtime.taken| + 1
              && runtime.stdout[|runtime.taken|] == Carried(s).value
          else runtime.read == |runtime.taken|)
  }

  ghost predicate Inv(s: State) {
    && (s.cmd.Some? ==> Live(s))
    && (InReadLine(s.pc) ==> s.pc.r < |s.readers| && Live(s) && s.runtimes[s.cmd.value].killed == s.pc.Joining?)
    && (s.pc == Free || s.pc == Locked ==> s.cmd.Some? ==> !s.runtimes[s.cmd.value].killed)
    && (forall r | 0 <= r < |s.readers| :: ReaderInv(s, r))
    && (forall p | 0 <= p < |s.runtimes| :: StreamInv(s, p))
  }

  /** The steps of goroutines. */
  predicate OfReader(step: Step) {
    step.Consume? || step.Break? || step.Deliver?
  }

  lemma StepKeepsReaders(s: State, step: Step)
    requires Inv(s) && Enabled(s, step)
    ensures forall r | 0 <= r < |Apply(s, step).readers| :: ReaderInv(Apply(s, step), r)
  {
    var t := Apply(s, step);
    forall r | 0 <= r < |t.readers|
      ensures ReaderInv(t, r)
    {
      assert r < |s.readers| ==> ReaderInv(s, r);
    }
  }

  /** A goroutine that takes a step is that of the current `readLine`. */
  lemma OnlyCurrentReaderSteps(s: State, step: Step)
    requires Inv(s) && Enabled(s, step) && OfReader(step)
    ensures InReadLine(s.pc) && s.pc.r == step.r && Live(s)
  {
    assert ReaderInv(s, step.r);
  }

  lemma ReaderKeepsStream(s: State, step: Step, p: nat)
    requires Inv(s) && Enabled(s, step) && OfReader(step) && p < |s.runtimes|
    ensures p < |Apply(s, step).runtimes| && StreamInv(Apply(s, step), p)
  {
    OnlyCurrentReaderSteps(s, step);
    assert StreamInv(s, p) && ReaderInv(s, step.r);
  }

  lemma CallerKeepsStream(s: State, step: Step, p: nat)
    requires Inv(s) && Enabled(s, step) && !OfReader(step) && p < |Apply(s, step).runtimes|
    ensures StreamInv(Apply(s, step), p)
  {
    assert p < |s.runtimes| ==> StreamInv(s, p);
    assert InReadLine(s.pc) ==> ReaderInv(s, s.pc.r);
  }

  lemma StepKeepsInv(s: State, step: Step)
    requires Inv(s) && Enabled(s, step)
    ensures Inv(Apply(s, step))
  {
    var t := Apply(s, step);
    StepKeepsReaders(s, step);
    forall p | 0 <= p < |t.runtimes|
      ensures StreamInv(t, p)
    {
      if OfReader(step) {
        ReaderKeepsStream(s, step, p);
      } else {
        CallerKeepsStream(s, step, p);
      }
    }
    if OfReader(step) {
      OnlyCurrentReaderSteps(s, step);
    }
  }

  ghost predicate Legal(s: State, steps: seq<Step>)
    decreases |steps|
  {
    steps != [] ==> Enabled(s, steps[0]) && Legal(Apply(s, steps[0]), steps[1..])
  }

  ghost function After(s: State, steps: seq<Step>): State
    requires Legal(s, steps)
    decreases |steps|
  {
    if steps == [] then s else After(Apply(s, steps[0]), steps[1..])
  }

  lemma {:induction false} EveryRunKeepsInv(s: State, steps: seq<Step>)
    requires Legal(s, steps) && Inv(s)
    ensures Inv(After(s, steps))
    decreases |steps|
  {
    if steps != [] {
      StepKeepsInv(s, steps[0]);
      EveryRunKeepsInv(Apply(s, steps[0]), steps[1..]);
    }
  }

  /** Reached from a new generator by some interleaving. */
  ghost predicate Reached(s: State, steps: seq<Step>, t: State) {
    Init(s) && Legal(s, steps) && t == After(s, steps)
  }

  /* ------------------------------------------------------------------ */
  /* What every interleaving guarantees                                 */
  /* ------------------------------------------------------------------ */

  /** Whenever the caller is not inside `readLine`, and so whenever the lock is free, every reader
      goroutine has ended and its channel is empty. */
  lemma NoReaderOutlivesItsCall(s: State, steps: seq<Step>, t: State)
    requires Reached(s, steps, t) && !InReadLine(t.pc)
    ensures forall r | 0 <= r < |t.readers| :: t.readers[r] == Reader(Done, [])
  {
    EveryRunKeepsInv(s, steps);
    forall r | 0 <= r < |t.readers|
      ensures t.readers[r] == Reader(Done, [])
    {
      assert ReaderInv(t, r);
    }
  }

  /** And there is at most one live reader at any time. */
  lemma AtMostOneReader(s: State, steps: seq<Step>, t: State, q: nat, r: nat)
    requires Reached(s, steps, t) && q < |t.readers| && r < |t.readers|
    requires t.readers[q].phase != Done && t.readers[r].phase != Done
    ensures q == r
  {
    EveryRunKeepsInv(s, steps);
    assert ReaderInv(t, q) && ReaderInv(t, r);
  }

  /** While nobody takes the lock no line is consumed and none is returned, whatever the runtimes print. */
  lemma {:induction false} NothingIsReadOutsideTheLock(s: State, steps: seq<Step>)
    requires Inv(s) && s.pc == Free && Legal(s, steps) && Lock !in steps
    ensures var t := After(s, steps);
      && t.pc == Free && t.cmd == s.cmd && |t.runtimes| == |s.runtimes|
      && forall p | 0 <= p < |s.runtimes| ::
          t.runtimes[p].read == s.runtimes[p].read && t.runtimes[p].taken == s.runtimes[p].taken
    decreases |steps|
  {
    if steps != [] {
      if OfReader(steps[0]) {
        OnlyCurrentReaderSteps(s, steps[0]);
      }
      StepKeepsInv(s, steps[0]);
      NothingIsReadOutsideTheLock(Apply(s, steps[0]), steps[1..]);
    }
  }

  /** Whenever the lock is free a live runtime was not killed, and every line consumed from it was
      returned to a caller, in order. */
  lemma LiveStreamIsInStep(s: State, steps: seq<Step>, t: State)
    requires Reached(s, steps, t) && t.pc == Free && t.cmd.Some?
    ensures Live(t)
    ensures var runtime := t.runtimes[t.cmd.value];
      !runtime.killed && runtime.read <= |runtime.stdout| && runtime.taken == runtime.stdout[..runtime.read]
  {
    EveryRunKeepsInv(s, steps);
    assert StreamInv(t, t.cmd.value);
  }

  /** Every state but the last of a run is inside `readLine`. */
  ghost predicate Inside(s: State, steps: seq<Step>)
    requires Legal(s, steps)
    decreases |steps|
  {
    steps != [] ==> InReadLine(s.pc) && Inside(Apply(s, steps[0]), steps[1..])
  }

  /** What is left of a join: the goroutine reads, delivers, and the caller takes the result. */
  function JoinRank(s: State): nat {
    if s.pc.Joining? && s.pc.r < |s.readers| then
      match s.readers[s.pc.r].phase
      case Reading => 3
      case Delivering(_) => 2
      case Done => 1
    else 0
  }

  /** While the caller joins, every step but the printing of a runtime brings the end closer. */
  lemma JoinAdvances(s: State, step: Step)
    requires Inv(s) && s.pc.Joining? && Enabled(s, step)
    ensures var t := Apply(s, step);
      && (t.pc == s.pc || t.pc == MustStop)
      && (if step.Print? then t.pc == s.pc && JoinRank(t) == JoinRank(s) else JoinRank(t) < JoinRank(s))
  {
    if OfReader(step) {
      OnlyCurrentReaderSteps(s, step);
    }
  }

  /** And such a step is always enabled: the goroutine never blocks on its send, and the caller
      only waits for the goroutine. */
  lemma JoinNeverSticks(s: State) returns (step: Step)
    requires Inv(s) && s.pc.Joining?
    ensures Enabled(s, step) && !step.Print?
  {
    assert ReaderInv(s, s.pc.r);
    match s.readers[s.pc.r].phase
    case Reading => step := Break(s.pc.r);
    case Delivering(_) => step := Deliver(s.pc.r);
    case Done => step := Join;
  }

  /** The steps of a run that are not printing. */
  function OwnSteps(steps: seq<Step>): nat {
    if steps == [] then 0 else (if steps[0].Print? then 0 else 1) + OwnSteps(steps[1..])
  }

  /** The join ends: on every run from it, in whatever order goroutine and caller go on and however
      much is printed meanwhile, at most three steps of theirs are taken inside it, and where no
      such step is left the caller has joined the goroutine. */
  lemma {:induction false} JoinEnds(s: State, steps: seq<Step>)
    requires Inv(s) && s.pc.Joining? && Legal(s, steps) && Inside(s, steps)
    ensures var t := After(s, steps);
      && OwnSteps(steps) + JoinRank(t) <= JoinRank(s) <= 3
      && (t.pc == s.pc || t.pc == MustStop)
      && ((forall step | Enabled(t, step) :: step.Print?) ==> t.pc == MustStop)
    decreases |steps|
  {
    if steps == [] {
      var step := JoinNeverSticks(s);
    } else {
      var t := Apply(s, steps[0]);
      JoinAdvances(s, steps[0]);
      StepKeepsInv(s, steps[0]);
      if t.pc.Joining? {
        JoinEnds(t, steps[1..]);
      } else {
        assert steps[1..] == [];
      }
    }
  }

  /* ------------------------------------------------------------------ */
  /* One event per call                                                 */
  /* ------------------------------------------------------------------ */

  function Logs(runtimes: seq<Runtime>): (logs: seq<M.Log>)
    ensures |logs| == |runtimes|
    ensures forall p | 0 <= p < |logs| :: logs[p] == M.Log([], runtimes[p].taken, runtimes[p].killed)
  {
    seq(|runtimes|, p requires 0 <= p < |runtimes| => M.Log([], runtimes[p].taken, runtimes[p].killed))
  }

  /** The generator as ModelStream sees it; no request is written during `readLine`. */
  function View(s: State): M.Generator {
    M.Generator(true, s.cmd, Logs(s.runtimes))
  }

  /** How far a `readLine` that started in `s0` has come in `t`. */
  predicate Progress(s0: State, t: State) {
    && Live(s0) && t.cmd == s0.cmd && |t.runtimes| == |s0.runtimes|
    && match t.pc
       case Selecting(_) => View(t) == View(s0)
       case Joining(_) => View(t) == M.Read(View(s0), M.Cancelled)
       case MustStop => View(t) == M.Read(View(s0), M.Breaks) || View(t) == M.Read(View(s0), M.Cancelled)
       case Locked =>
         && |t.runtimes[s0.cmd.value].taken| > 0
         && var taken := t.runtimes[s0.cmd.value].taken;
            View(t) == M.Read(View(s0), M.Arrives(taken[|taken| - 1]))
       case Free => false
  }

  lemma ProgressStep(s0: State, s: State, step: Step)
    requires Inv(s) && Progress(s0, s) && InReadLine(s.pc) && Enabled(s, step)
    ensures Progress(s0, Apply(s, step))
  {
    var t := Apply(s, step);
    if step == Receive && s.readers[s.pc.r].channel[0].Some? {
      var line := s.readers[s.pc.r].channel[0].value;
      assert t.runtimes[s0.cmd.value].taken == s.runtimes[s0.cmd.value].taken + [line];
      assert View(t).logs == M.Read(View(s0), M.Arrives(line)).logs;
    } else if step == ContextEnds {
      assert View(t).logs == M.Read(View(s0), M.Cancelled).logs;
    } else {
      assert View(t).logs == View(s).logs;
    }
  }

  lemma {:induction false} ProgressRun(s0: State, s: State, steps: seq<Step>)
    requires Inv(s) && Progress(s0, s) && Legal(s, steps) && Inside(s, steps)
    ensures Progress(s0, After(s, steps))
    decreases |steps|
  {
    if steps != [] {
      ProgressStep(s0, s, steps[0]);
      StepKeepsInv(s, steps[0]);
      ProgressRun(s0, Apply(s, steps[0]), steps[1..]);
    }
  }

  /** Whatever the race between the goroutine, the select and the kill, a `readLine` that has ended
      did to the generator what one event of ModelStream does: it returned the next line, broke, or
      was cancelled and killed the runtime; only after a returned line does the call go on. */
  lemma ReadLineIsOneEvent(s0: State, steps: seq<Step>, t: State) returns (event: M.ReadEvent)
    requires Inv(s0) && Enabled(s0, Spawn) && Legal(Apply(s0, Spawn), steps) && Inside(Apply(s0, Spawn), steps)
    requires t == After(Apply(s0, Spawn), steps) && !InReadLine(t.pc)
    ensures M.Running(View(s0)) && View(t) == M.Read(View(s0), event)
    ensures t.pc == if event.Arrives? then Locked else MustStop
    ensures event.Arrives? ==>
      var before := |s0.runtimes[s0.cmd.value].taken|;
      && s0.cmd.value < |t.runtimes| && before < |t.runtimes[s0.cmd.value].stdout|
      && event.line == t.runtimes[s0.cmd.value].stdout[before]
  {
    var s1 := Apply(s0, Spawn);
    StepKeepsInv(s0, Spawn);
    ProgressRun(s0, s1, steps);
    EveryRunKeepsInv(s1, steps);
    assert StreamInv(t, s0.cmd.value);
    if t.pc == Locked {
      var taken := t.runtimes[s0.cmd.value].taken;
      event := M.Arrives(taken[|taken| - 1]);
      assert View(t).logs[s0.cmd.value].taken == View(s0).logs[s0.cmd.value].taken + [event.line];
      assert taken == s0.runtimes[s0.cmd.value].taken + [event.line];
    } else {
      event := if View(t) == M.Read(View(s0), M.Breaks) then M.Breaks else M.Cancelled;
    }
  }
}
