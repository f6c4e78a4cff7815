/**
 The persistent model runtime: the request/response stream of
 internal/model/persistent_process.go, its peer `serve` of
 runtimes/functiongemma/runner.py, and their composition. `Generate` holds the lock for
 a whole exchange, so calls are sequential; what the environment does (a start or write
 fails, a line arrives, the stream breaks, the context ends) is input to each call.
 */
module ModelStream {
  import opened Prelude

  type Text = seq<byte>

  /** `contract_version` on both sides. */
  const CONTRACT: string := "1"

  /** A line as `persistentMessage` decodes it. */
  datatype Line = Garbled | Message(kind: string, version: string, result: Text, error: string)

  datatype Reply = Result(body: Text) | Failed(message: string)

  /* ------------------------------------------------------------------ */
  /* The peer                                                           */
  /* ------------------------------------------------------------------ */

  const READY: Line := Message("ready", CONTRACT, [], "")

  function ReplyLine(reply: Reply): Line {
    match reply
    case Result(body) => Message("", CONTRACT, body, "")
    case Failed(message) => Message("", CONTRACT, [], message)
  }

  /** What `serve` prints for a sequence of request lines. */
  function ServeOutput(handle: Text -> Reply, requests: seq<Text>): (lines: seq<Line>)
    ensures |lines| == |requests| + 1
  {
    if requests == [] then [READY]
    else ServeOutput(handle, requests[..|requests| - 1]) + [ReplyLine(handle(requests[|requests| - 1]))]
  }

  /** `serve`: a handshake, then exactly one line per request line, at once. */
  method Serve(handle: Text -> Reply, stdin: seq<Text>) returns (stdout: seq<Line>)
    ensures stdout == ServeOutput(handle, stdin)
  {
    stdout := [READY];
    assert stdin[..0] == [];
    for i := 0 to |stdin|
      invariant stdout == ServeOutput(handle, stdin[..i])
    {
      assert stdin[..i + 1][..i] == stdin[..i];
      stdout := stdout + [ReplyLine(handle(stdin[i]))];
    }
    assert stdin[..|stdin|] == stdin;
  }

  /** Line k + 1 answers request k, however many requests follow. */
  lemma {:induction false} ReplyPosition(handle: Text -> Reply, requests: seq<Text>, k: nat)
    requires k < |requests|
    ensures ServeOutput(handle, requests)[k + 1] == ReplyLine(handle(requests[k]))
  {
    if k < |requests| - 1 {
      ReplyPosition(handle, requests[..|requests| - 1], k);
    }
  }

  /* ------------------------------------------------------------------ */
  /* The client side                                                    */
  /* ------------------------------------------------------------------ */

  /** One started runtime: the request lines written to it and the lines read from it. */
  datatype Log = Log(requests: seq<Text>, taken: seq<Line>, killed: bool)

  /** The generator's guarded fields. Every runtime ever started has its log. */
  datatype Generator = Generator(configured: bool, cmd: Option<nat>, logs: seq<Log>)

  datatype Failure =
    | NotConfigured | StartFailed | HandshakeFailed | EncodeFailed | WriteFailed | ReadFailed
    | BadResponse | RuntimeError(message: string)

  /** What one `readLine` meets; a cancelled read kills the runtime and may lose a line. */
  datatype ReadEvent = Arrives(line: Line) | Breaks | Cancelled

  /** One call of Generate and what its environment does. */
  datatype Call = Call(request: Text, starts: bool, handshake: ReadEvent, encodes: bool, writes: bool,
      response: ReadEvent)

  predicate Running(g: Generator) {
    g.cmd.Some? && g.cmd.value < |g.logs|
  }

  function SetLog(g: Generator, log: Log): Generator
    requires Running(g)
  {
    g.(logs := g.logs[g.cmd.value := log])
  }

  /** `stopLocked`. */
  function Stop(g: Generator): Generator {
    if Running(g) then SetLog(g, g.logs[g.cmd.value].(killed := true)).(cmd := None) else g.(cmd := None)
  }

  /** The effect of `readLine` on the log. */
  function Read(g: Generator, event: ReadEvent): Generator
    requires Running(g)
  {
    var log := g.logs[g.cmd.value];
    match event
    case Arrives(line) => SetLog(g, log.(taken := log.taken + [line]))
    case Breaks => g
    case Cancelled => SetLog(g, log.(killed := true))
  }

  predicate IsReady(event: ReadEvent) {
    event.Arrives? && event.line.Message? && event.line.kind == "ready" && event.line.version == CONTRACT
  }

  function StartRuntime(g: Generator): Generator {
    g.(cmd := Some(|g.logs|), logs := g.logs + [Log([], [], false)])
  }

  /** `ensureStarted`. */
  function Ensure(g: Generator, call: Call): (Generator, Option<Failure>) {
    if g.cmd.Some? then (g, None)
    else if !call.starts then (g, Some(StartFailed))
    else if IsReady(call.handshake) then (Read(StartRuntime(g), call.handshake), None)
    else (Stop(Read(StartRuntime(g), call.handshake)), Some(HandshakeFailed))
  }

  function Write(g: Generator, request: Text): Generator
    requires Running(g)
  {
    var log := g.logs[g.cmd.value];
    SetLog(g, log.(requests := log.requests + [request]))
  }

  /** What a response line means to the caller, and whether the runtime survives it. */
  function Judge(line: Line): (Result<Text, Failure>, bool) {
    if line.Garbled? || line.version != CONTRACT then (Err(BadResponse), false)
    else if line.error != "" then (Err(RuntimeError(line.error)), true)
    else if line.result == [] then (Err(BadResponse), false)
    else (Ok(line.result), true)
  }

  /** One exchange with a running runtime. */
  function Exchange(g: Generator, call: Call): (Generator, Result<Text, Failure>)
    requires Running(g)
  {
    if !call.encodes then (g, Err(EncodeFailed))
    else if !call.writes then (Stop(g), Err(WriteFailed))
    else
      var next := Read(Write(g, call.request), call.response);
      if !call.response.Arrives? then (Stop(next), Err(ReadFailed))
      else
        var (result, survives) := Judge(call.response.line);
        (if survives then next else Stop(next), result)
  }

  /** `Generate`. */
  function GenerateSpec(g: Generator, call: Call): (Generator, Result<Text, Failure>)
    requires g.cmd.Some? ==> Running(g)
  {
    if !g.configured then (g, Err(NotConfigured))
    else
      var (next, failure) := Ensure(g, call);
      if failure.Some? then (next, Err(failure.value)) else Exchange(next, call)
  }

  /** Between calls a live runtime is in step: its handshake was read, and exactly one
      line was read per request written. */
  predicate InStep(g: Generator) {
    && (g.cmd.Some? ==> Running(g))
    && (g.cmd.Some? ==>
          var log := g.logs[g.cmd.value];
          |log.taken| == |log.requests| + 1 && IsReady(Arrives(log.taken[0])) && !log.killed)
    && (forall i | 0 <= i < |g.logs| && g.cmd != Some(i) :: g.logs[i].killed)
  }

  /** The logs of `later` continue those of `g`; a killed runtime's log is final. */
  predicate Extends(g: Generator, later: Generator) {
    && |g.logs| <= |later.logs| && g.configured == later.configured
    && forall i | 0 <= i < |g.logs| ::
         && g.logs[i].requests <= later.logs[i].requests && g.logs[i].taken <= later.logs[i].taken
         && (g.logs[i].killed ==> later.logs[i] == g.logs[i])
  }

  lemma ExtendsIsTransitive(a: Generator, b: Generator, c: Generator)
    requires Extends(a, b) && Extends(b, c)
    ensures Extends(a, c)
  {
  }

  /** Only the current runtime may be alive. */
  predicate OthersDead(g: Generator) {
    && (g.cmd.Some? ==> Running(g))
    && (forall i | 0 <= i < |g.logs| && g.cmd != Some(i) :: g.logs[i].killed)
  }

  /** The current runtime's log may grow, and be killed. */
  lemma SetLogExtends(g: Generator, log: Log)
    requires OthersDead(g) && Running(g) && !g.logs[g.cmd.value].killed
    requires g.logs[g.cmd.value].requests <= log.requests && g.logs[g.cmd.value].taken <= log.taken
    ensures OthersDead(SetLog(g, log)) && Extends(g, SetLog(g, log)) && SetLog(g, log).logs[g.cmd.value] == log
  {
  }

  /** A stopped runtime is the end of its stream. */
  lemma StopKeepsStep(g: Generator)
    requires OthersDead(g)
    ensures InStep(Stop(g)) && Extends(g, Stop(g)) && |Stop(g).logs| == |g.logs|
  {
  }

  lemma ReadExtends(g: Generator, event: ReadEvent)
    requires OthersDead(g) && Running(g) && !g.logs[g.cmd.value].killed
    ensures OthersDead(Read(g, event)) && Extends(g, Read(g, event)) && Running(Read(g, event))
    ensures |Read(g, event).logs| == |g.logs| && Read(g, event).cmd == g.cmd
  {
    var log := g.logs[g.cmd.value];
    match event
    case Arrives(line) => SetLogExtends(g, log.(taken := log.taken + [line]));
    case Breaks =>
    case Cancelled => SetLogExtends(g, log.(killed := true));
  }

  /** A new runtime, before its handshake was read. */
  lemma StartExtends(g: Generator)
    requires InStep(g) && g.cmd.None?
    ensures OthersDead(StartRuntime(g)) && Extends(g, StartRuntime(g)) && Running(StartRuntime(g))
    ensures StartRuntime(g).logs[|g.logs|] == Log([], [], false)
  {
  }

  lemma EnsureKeepsStep(g: Generator, call: Call)
    requires InStep(g)
    ensures InStep(Ensure(g, call).0) && Extends(g, Ensure(g, call).0) && |Ensure(g, call).0.logs| <= |g.logs| + 1
    ensures Ensure(g, call).1.None? ==> Running(Ensure(g, call).0)
  {
    if g.cmd.None? && call.starts {
      StartExtends(g);
      var started := StartRuntime(g);
      ReadExtends(started, call.handshake);
      var read := Read(started, call.handshake);
      ExtendsIsTransitive(g, started, read);
      if !IsReady(call.handshake) {
        StopKeepsStep(read);
        ExtendsIsTransitive(g, read, Stop(read));
      }
    }
  }

  lemma ExchangeKeepsStep(g: Generator, call: Call)
    requires InStep(g) && Running(g)
    ensures InStep(Exchange(g, call).0) && Extends(g, Exchange(g, call).0) && |Exchange(g, call).0.logs| == |g.logs|
  {
    if !call.encodes {
    } else if !call.writes {
      StopKeepsStep(g);
    } else {
      var log := g.logs[g.cmd.value];
      SetLogExtends(g, log.(requests := log.requests + [call.request]));
      var written := Write(g, call.request);
      ReadExtends(written, call.response);
      var read := Read(written, call.response);
      ExtendsIsTransitive(g, written, read);
      StopKeepsStep(read);
      ExtendsIsTransitive(g, read, Stop(read));
      if call.response.Arrives? && Judge(call.response.line).1 {
        AnsweredIsInStep(g, call);
      }
    }
  }

  /** One more request and one more line. */
  lemma AnsweredIsInStep(g: Generator, call: Call)
    requires InStep(g) && Running(g) && call.response.Arrives?
    ensures InStep(Read(Write(g, call.request), call.response))
  {
  }

  /** Streams never fall out of step: every call, however it ends, leaves the generator
      in step, appends at most its own request to one runtime, and touches no dead one. */
  lemma GenerateKeepsStep(g: Generator, call: Call)
    requires InStep(g)
    ensures InStep(GenerateSpec(g, call).0) && Extends(g, GenerateSpec(g, call).0)
    ensures |GenerateSpec(g, call).0.logs| <= |g.logs| + 1
  {
    EnsureKeepsStep(g, call);
    var (next, failure) := Ensure(g, call);
    if g.configured && failure.None? {
      ExchangeKeepsStep(next, call);
      ExtendsIsTransitive(g, next, Exchange(next, call).0);
    }
  }

  /** The line carries this result of a call, under contract 1. */
  predicate Carries(line: Line, result: Result<Text, Failure>) {
    && line.Message? && line.version == "1"
    && match result
       case Ok(body) => line.error == "" && line.result == body != []
       case Err(RuntimeError(message)) => line.error == message != ""
       case _ => false
  }

  /** A successful call, or an error reported by the runtime, is what the last line read carries,
      which follows the last request written, which is this call's. */
  lemma AnswerIsLastLine(g: Generator, call: Call)
    requires InStep(g)
    ensures var (next, result) := GenerateSpec(g, call);
      result.Ok? || result.error.RuntimeError? ==>
        && Running(next)
        && var log := next.logs[next.cmd.value];
           && |log.requests| > 0 && log.requests[|log.requests| - 1] == call.request
           && |log.taken| == |log.requests| + 1
           && Carries(log.taken[|log.requests|], result)
  {
  }

  /** The runtime is there, or can be started and says that it is ready under contract 1. */
  predicate Available(g: Generator, call: Call) {
    && g.configured
    && (g.cmd.Some?
        || (call.starts && call.handshake.Arrives? && call.handshake.line.Message?
            && call.handshake.line.kind == "ready" && call.handshake.line.version == "1"))
  }

  /** Conversely a call that reaches the runtime and receives the reply to its request returns it,
      and keeps the runtime in use: the body of a result, or the message of an error. A result
      without body and an error without message break the contract and stop the runtime. */
  lemma ReplyIsReturned(g: Generator, call: Call, reply: Reply)
    requires InStep(g) && Available(g, call) && call.encodes && call.writes
    requires call.response == Arrives(ReplyLine(reply))
    ensures var (next, result) := GenerateSpec(g, call);
      match reply
      case Result(body) => if body != [] then result == Ok(body) && next.cmd.Some? else result.Err? && next.cmd.None?
      case Failed(message) =>
        if message != "" then result == Err(RuntimeError(message)) && next.cmd.Some? else result.Err? && next.cmd.None?
  {
    EnsureKeepsStep(g, call);
    ReadyIsKept(g, call);
    ReplyIsExchanged(Ensure(g, call).0, call, reply);
  }

  lemma ReadyIsKept(g: Generator, call: Call)
    requires InStep(g) && Available(g, call)
    ensures Ensure(g, call).1.None? && (g.cmd.Some? ==> Ensure(g, call).0 == g)
  {
  }

  lemma ReplyIsExchanged(g: Generator, call: Call, reply: Reply)
    requires Running(g) && call.encodes && call.writes && call.response == Arrives(ReplyLine(reply))
    ensures var (next, result) := Exchange(g, call);
      match reply
      case Result(body) => if body != [] then result == Ok(body) && next.cmd == g.cmd else result.Err? && next.cmd.None?
      case Failed(message) =>
        if message != "" then result == Err(RuntimeError(message)) && next.cmd == g.cmd
        else result.Err? && next.cmd.None?
  {
  }

  /** Without such an answer to a request that was written the runtime is not used again. */
  lemma OtherOutcomesStop(g: Generator, call: Call)
    requires InStep(g) && Available(g, call) && call.encodes
    ensures var (next, result) := GenerateSpec(g, call);
      result.Err? && !result.error.RuntimeError? ==> next.cmd.None?
  {
    EnsureKeepsStep(g, call);
    ReadyIsKept(g, call);
    FailedExchangeStops(Ensure(g, call).0, call);
  }

  lemma FailedExchangeStops(g: Generator, call: Call)
    requires Running(g) && call.encodes
    ensures var (next, result) := Exchange(g, call);
      result.Err? && !result.error.RuntimeError? ==> next.cmd.None?
  {
  }

  /** A runtime in use said that it was ready under contract 1 before anything else. */
  lemma HandshakeCameFirst(g: Generator, ops: seq<Operation>)
    requires InStep(g) && After(g, ops).cmd.Some?
    ensures Running(After(g, ops))
    ensures var log := After(g, ops).logs[After(g, ops).cmd.value];
      |log.taken| > 0 && log.taken[0].Message? && log.taken[0].kind == "ready" && log.taken[0].version == "1"
  {
    RunsStayInStep(g, ops);
  }

  /* ------------------------------------------------------------------ */
  /* Whole runs and the composition                                     */
  /* ------------------------------------------------------------------ */

  /** What callers do with the generator. */
  datatype Operation = Generates(call: Call) | Closes

  function Next(g: Generator, op: Operation): Generator
    requires InStep(g)
  {
    match op
    case Generates(call) => GenerateSpec(g, call).0
    case Closes => Stop(g)
  }

  lemma NextKeepsStep(g: Generator, op: Operation)
    requires InStep(g)
    ensures InStep(Next(g, op)) && Extends(g, Next(g, op))
  {
    match op
    case Generates(call) => GenerateKeepsStep(g, call);
    case Closes => StopKeepsStep(g);
  }

  /** The generator after a sequence of operations. */
  function After(g: Generator, ops: seq<Operation>): Generator
    requires InStep(g)
    decreases |ops|
  {
    if ops == [] then g
    else
      NextKeepsStep(g, ops[0]);
      After(Next(g, ops[0]), ops[1..])
  }

  lemma {:induction false} RunsStayInStep(g: Generator, ops: seq<Operation>)
    requires InStep(g)
    ensures InStep(After(g, ops)) && Extends(g, After(g, ops))
    decreases |ops|
  {
    if ops != [] {
      NextKeepsStep(g, ops[0]);
      RunsStayInStep(Next(g, ops[0]), ops[1..]);
    }
  }

  /** Every runtime behaves as `serve` with this handler, as far as it was read. */
  predicate Composed(g: Generator, handle: Text -> Reply) {
    forall i | 0 <= i < |g.logs| :: g.logs[i].taken <= ServeOutput(handle, g.logs[i].requests)
  }

  /** The result of a call is the handler's reply to its request. */
  predicate IsReply(result: Result<Text, Failure>, reply: Reply) {
    match result
    case Ok(body) => reply == Reply.Result(body)
    case Err(RuntimeError(message)) => reply == Failed(message)
    case _ => false
  }

  /** End to end, over any history of calls, cancellations, crashes, closes and restarts:
      with runtimes that run `serve`, a call returns an answer, or an error of the runtime,
      only if that is the reply to its own request. */
  lemma {:induction false} AnswersBelongToTheirRequests(g: Generator, ops: seq<Operation>, k: nat,
      handle: Text -> Reply)
    requires InStep(g) && k < |ops| && ops[k].Generates? && Composed(After(g, ops), handle)
    ensures InStep(After(g, ops[..k]))
    ensures var result := GenerateSpec(After(g, ops[..k]), ops[k].call).1;
      result.Ok? || result.error.RuntimeError? ==> IsReply(result, handle(ops[k].call.request))
    decreases k
  {
    RunsStayInStep(g, ops[..k]);
    if k > 0 {
      NextKeepsStep(g, ops[0]);
      assert ops[..k][1..] == ops[1..][..k - 1];
      AnswersBelongToTheirRequests(Next(g, ops[0]), ops[1..], k - 1, handle);
    } else {
      assert ops[..0] == [];
      FirstAnswer(g, ops, handle);
    }
  }

  lemma FirstAnswer(g: Generator, ops: seq<Operation>, handle: Text -> Reply)
    requires InStep(g) && ops != [] && ops[0].Generates? && Composed(After(g, ops), handle)
    ensures var result := GenerateSpec(g, ops[0].call).1;
      result.Ok? || result.error.RuntimeError? ==> IsReply(result, handle(ops[0].call.request))
  {
    var (next, result) := GenerateSpec(g, ops[0].call);
    GenerateKeepsStep(g, ops[0].call);
    RunsStayInStep(next, ops[1..]);
    if result.Ok? || result.error.RuntimeError? {
      AnswerIsLastLine(g, ops[0].call);
      LastReply(next, After(next, ops[1..]), handle);
    }
  }

  /** The last line read answers the last request written, also as seen from later. */
  lemma LastReply(g: Generator, later: Generator, handle: Text -> Reply)
    requires Running(g) && Extends(g, later) && Composed(later, handle)
    requires var log := g.logs[g.cmd.value]; |log.requests| > 0 && |log.taken| == |log.requests| + 1
    ensures var log := g.logs[g.cmd.value];
      log.taken[|log.requests|] == ReplyLine(handle(log.requests[|log.requests| - 1]))
  {
    var log, last := g.logs[g.cmd.value], later.logs[g.cmd.value];
    var n := |log.requests|;
    ReplyPosition(handle, last.requests, n - 1);
    assert last.taken[n] == log.taken[n];
    assert last.requests[n - 1] == log.requests[n - 1];
  }

  /** While in step with `serve`, the reply that a call waits for is one that the runtime
      owes: it has printed one line more than was read before the request was written. */
  lemma AReplyIsDue(g: Generator, request: Text, handle: Text -> Reply)
    requires InStep(g) && Running(g)
    ensures var log := Write(g, request).logs[g.cmd.value];
      |ServeOutput(handle, log.requests)| == |log.taken| + 1
      && ServeOutput(handle, log.requests)[|log.taken|] == ReplyLine(handle(request))
  {
  }

  /* ------------------------------------------------------------------ */
  /* The object                                                         */
  /* ------------------------------------------------------------------ */

  /** PersistentProcessGenerator: `logs` records what went through its pipes. The race inside
      `readLine` is the subject of ModelReader; here it is the one event it amounts to. */
  class PersistentGenerator {
    const configured: bool
    var cmd: Option<nat>
    var logs: seq<Log>

    function View(): Generator
      reads this
    {
      Generator(configured, cmd, logs)
    }

    /** What holds whenever the lock is free. */
    predicate Valid()
      reads this
    {
      InStep(View())
    }

    constructor (configured: bool)
      ensures Valid() && View() == Generator(configured, None, [])
    {
      this.configured := configured;
      cmd, logs := None, [];
    }

    /** `readLine`, by the event its race ends in. */
    method ReadLine(event: ReadEvent) returns (line: Result<Line, Failure>)
      requires Running(View())
      modifies this`logs
      ensures View() == Read(old(View()), event)
      ensures line == if event.Arrives? then Ok(event.line) else Err(ReadFailed)
    {
      var log := logs[cmd.value];
      match event
      case Arrives(received) =>
        logs := logs[cmd.value := log.(taken := log.taken + [received])];
        return Ok(received);
      case Breaks =>
        return Err(ReadFailed);
      case Cancelled =>
        logs := logs[cmd.value := log.(killed := true)];
        return Err(ReadFailed);
    }

    /** `stopLocked`, also the body of `Close`: it keeps the generator in step. */
    method StopLocked()
      requires cmd.Some? ==> Running(View())
      modifies this`cmd, this`logs
      ensures View() == Stop(old(View()))
    {
      if cmd.None? {
        return;
      }
      logs := logs[cmd.value := logs[cmd.value].(killed := true)];
      cmd := None;
    }

    method EnsureStarted(call: Call) returns (failure: Option<Failure>)
      requires InStep(View())
      modifies this`cmd, this`logs
      ensures (View(), failure) == Ensure(old(View()), call)
    {
      if cmd.Some? {
        return None;
      }
      if !call.starts {
        return Some(StartFailed);
      }
      cmd := Some(|logs|);
      logs := logs + [Log([], [], false)];
      var ready := ReadLine(call.handshake);
      if ready.Err? || ready.value.Garbled? || ready.value.kind != "ready" || ready.value.version != CONTRACT {
        StopLocked();
        return Some(HandshakeFailed);
      }
      return None;
    }

    method Generate(call: Call) returns (result: Result<Text, Failure>)
      requires Valid()
      modifies this`cmd, this`logs
      ensures Valid() && Extends(old(View()), View())
      ensures (View(), result) == GenerateSpec(old(View()), call)
    {
      GenerateKeepsStep(View(), call);
      if !configured {
        return Err(NotConfigured);
      }
      var failure := EnsureStarted(call);
      if failure.Some? {
        return Err(failure.value);
      }
      if !call.encodes {
        return Err(EncodeFailed);
      }
      if !call.writes {
        StopLocked();
        return Err(WriteFailed);
      }
      var log := logs[cmd.value];
      logs := logs[cmd.value := log.(requests := log.requests + [call.request])];
      var line := ReadLine(call.response);
      if line.Err? {
        StopLocked();
        return Err(ReadFailed);
      }
      var response := line.value;
      if response.Garbled? || response.version != CONTRACT {
        StopLocked();
        return Err(BadResponse);
      }
      if response.error != "" {
        return Err(RuntimeError(response.error));
      }
      if response.result == [] {
        StopLocked();
        return Err(BadResponse);
      }
      return Ok(response.result);
    }
  }
}
