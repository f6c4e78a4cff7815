/**
 The client of client/client.go and the server of internal/jsonl/server.go together: a sidecar
 that serves its standard input answers in order with echoed ids, so every answered caller gets
 the handling of its own request.
 */
module Routing {
  import opened Prelude
  import opened ClientProtocol
  import opened ClientTheorems
  import F = LineFraming
  import H = ServerHandle

  /** What travels between the two: the request line of a call under its id, how the client reads a
      raw id, and the server behind the pipe. */
  datatype Wire = Wire(line: (nat, nat) -> seq<byte>, idOf: seq<byte> -> nat, engine: H.Engine,
      trim: seq<byte> -> seq<byte>)

  /** The client's encoding and the server's decoding fit: for every id within the id space the
      request line of a call is a well-formed request whose raw id the client reads back as the id
      it sent. */
  ghost predicate Fits(w: Wire) {
    && w.trim([]) == []
    && forall c: nat, id: nat | 0 < id < ID_SPACE :: LineFits(w, c, id)
  }

  ghost predicate LineFits(w: Wire, c: nat, id: nat) {
    && H.WellFormed(w.engine, w.trim, [w.line(c, id)])
    && w.idOf(w.engine.decode(w.line(c, id)).value.id) == id
  }

  /** The request lines written to process `p`, in order. */
  function Lines(w: Wire, s: State, p: nat): (lines: seq<seq<byte>>)
    requires p < |s.procs|
    ensures |lines| == |s.procs[p].stdin|
  {
    seq(|s.procs[p].stdin|, i requires 0 <= i < |s.procs[p].stdin| => LineOf(w, s, s.procs[p].stdin[i]))
  }

  function LineOf(w: Wire, s: State, c: nat): seq<byte> {
    if c < |s.calls| then w.line(c, s.calls[c].id) else []
  }

  /** What the server prints for the lines written so far. */
  function Replies(w: Wire, s: State, p: nat): seq<H.Response>
    requires p < |s.procs|
  {
    F.Responses(H.Server(w.engine, w.trim), F.Joined(Lines(w, s, p)), F.EndOfFile)
  }

  /** The client's reading of reply `n` of process `p`: its id, 0 if it has none, and whether it is
      the server's outcome for the n-th request line. */
  function Decoded(w: Wire, s: State, p: nat, n: nat, reply: H.Response): Message
    requires p < |s.procs|
  {
    var id := if reply.id.Some? then w.idOf(reply.id.value) else 0;
    if n < |s.procs[p].stdin| && reply == H.Handle(w.engine, LineOf(w, s, s.procs[p].stdin[n]))
    then Reply(id, Handling(p, s.procs[p].stdin[n]))
    else Reply(id, Foreign(0))
  }

  /** Every line a process prints is the next of the server's replies to what was written to it. */
  ghost predicate ServedRun(w: Wire, s: State, steps: seq<Step>)
    requires Legal(s, steps)
    decreases |steps|
  {
    steps != [] ==>
      && (steps[0].Sidecar? && steps[0].sidecar.Print? ==> PrintsNext(w, s, steps[0].p, steps[0].sidecar.m))
      && ServedRun(w, Apply(s, steps[0]), steps[1..])
  }

  ghost predicate PrintsNext(w: Wire, s: State, p: nat, m: Message)
    requires p < |s.procs|
  {
    var n := |s.procs[p].stdout|;
    n < |Replies(w, s, p)| && m == Decoded(w, s, p, n, Replies(w, s, p)[n])
  }

  /** The lines written by an invariant state are well-formed requests. */
  lemma LinesAreWellFormed(w: Wire, s: State, p: nat)
    requires Fits(w) && Live(s) && s.issued < ID_SPACE && p < |s.procs|
    ensures H.WellFormed(w.engine, w.trim, Lines(w, s, p))
    ensures forall i | 0 <= i < |Lines(w, s, p)| ::
              var c := s.procs[p].stdin[i];
              c < |s.calls| && s.calls[c].id != 0 && Lines(w, s, p)[i] == w.line(c, s.calls[c].id)
              && LineFits(w, c, s.calls[c].id)
  {
    var lines := Lines(w, s, p);
    forall i | 0 <= i < |lines|
      ensures var c := s.procs[p].stdin[i];
              && c < |s.calls| && s.calls[c].id != 0 && lines[i] == w.line(c, s.calls[c].id)
              && LineFits(w, c, s.calls[c].id)
    {
      assert StreamInv(s, p);
      assert LineInv(s, p, s.procs[p].stdin[i]);
      assert CallInv(s, s.procs[p].stdin[i]);
    }
    forall l | l in lines
      ensures F.NEWLINE !in l && |l| < F.MAX_LINE_BYTES && l != [] && w.trim(l + [F.NEWLINE]) == l
              && w.engine.decode(l).Some? && H.HasId(w.engine.decode(l).value)
    {
      var i :| 0 <= i < |lines| && lines[i] == l;
      var c := s.procs[p].stdin[i];
      assert LineFits(w, c, s.calls[c].id);
      assert l in [w.line(c, s.calls[c].id)];
    }
  }

  /** The next line a serving process prints is the handling of its next request, under its id. */
  lemma PrintsInOrder(w: Wire, s: State, p: nat, m: Message)
    requires Fits(w) && Live(s) && s.issued < ID_SPACE && p < |s.procs| && PrintsNext(w, s, p, m)
    ensures NextInOrder(s, p, m)
  {
    var n := |s.procs[p].stdout|;
    LinesAreWellFormed(w, s, p);
    H.RepliesEchoRequests(w.engine, w.trim, Lines(w, s, p), F.EndOfFile);
    var c := s.procs[p].stdin[n];
    var line := Lines(w, s, p)[n];
    assert line == w.line(c, s.calls[c].id) && LineFits(w, c, s.calls[c].id);
    assert line in Lines(w, s, p);
    assert Replies(w, s, p)[n] == H.Handle(w.engine, line);
  }

  /** Sidecars that serve their standard input answer in order with echoed ids. */
  lemma {:induction false} ServersAnswerInOrder(w: Wire, s: State, steps: seq<Step>)
    requires Fits(w) && Inv(s) && Legal(s, steps) && After(s, steps).issued < ID_SPACE && ServedRun(w, s, steps)
    ensures InOrderSidecars(s, steps)
    decreases |steps|
  {
    if steps != [] {
      AllocationsAreCounted(s, steps);
      if steps[0].Sidecar? && steps[0].sidecar.Print? {
        PrintsInOrder(w, s, steps[0].p, steps[0].sidecar.m);
      }
      StepKeepsInv(s, steps[0]);
      ServersAnswerInOrder(w, Apply(s, steps[0]), steps[1..]);
    }
  }

  /** End to end: over sidecars that serve, an answered caller gets the server's handling of its own
      request by the process it registered on. */
  lemma ServedCallersGetTheirOwnAnswers(w: Wire, s: State, steps: seq<Step>, t: State, c: nat)
    requires Fits(w) && Reached(s, steps, t) && ServedRun(w, s, steps)
    requires c < |t.calls| && t.calls[c].phase.Returned? && t.calls[c].phase.outcome.Answered?
    ensures t.calls[c].phase.outcome == Answered(t.calls[c].id, Handling(t.calls[c].pid, c))
  {
    ServersAnswerInOrder(w, s, steps);
    AnswersReachTheirOwnCaller(s, steps, t, c);
  }

  /* ------------------------------------------------------------------ */
  /* Such encodings exist                                               */
  /* ------------------------------------------------------------------ */

  function Power16(k: nat): nat { if k == 0 then 1 else 16 * Power16(k - 1) }

  /** The low `k` hexadecimal digits of a number, least significant first, as octets above 64. */
  function Digits(n: nat, k: nat): (digits: seq<byte>)
    ensures |digits| == k && forall i | 0 <= i < k :: 64 <= digits[i] < 80
  {
    if k == 0 then [] else [64 + n % 16] + Digits(n / 16, k - 1)
  }

  function NumberOf(digits: seq<byte>): nat {
    if digits == [] then 0 else (if digits[0] >= 64 then digits[0] - 64 else 0) + 16 * NumberOf(digits[1..])
  }

  lemma {:induction false} NumberOfDigits(n: nat, k: nat)
    requires n < Power16(k)
    ensures NumberOf(Digits(n, k)) == n
  {
    if k > 0 {
      NumberOfDigits(n / 16, k - 1);
      assert Digits(n, k)[1..] == Digits(n / 16, k - 1);
    }
  }

  lemma SixteenDigitsSuffice()
    ensures Power16(16) == ID_SPACE
  {
    assert Power16(4) == 0x1_0000;
    assert Power16(8) == 0x1_0000_0000;
    assert Power16(12) == 0x1_0000_0000_0000;
  }

  /** A line without its newline. */
  function DropNewline(line: seq<byte>): seq<byte> {
    if F.Terminated(line) then line[..|line| - 1] else line
  }

  /** The simplest protocol: the line is the id in hexadecimal digits, and every request asks for
      health. */
  function Hex(width: nat): Wire {
    Wire((c: nat, id: nat) => Digits(id, width), NumberOf,
         H.Engine((line: seq<byte>) => Some(HealthRequest(line)), (params: seq<byte>) => H.BadInput, None), DropNewline)
  }

  function HealthRequest(line: seq<byte>): H.Request {
    H.Request(line, H.PROTOCOL_VERSION, "health", [])
  }

  lemma OneWellFormed(e: H.Engine, trim: seq<byte> -> seq<byte>, line: seq<byte>)
    requires trim([]) == [] && F.NEWLINE !in line && 0 < |line| < F.MAX_LINE_BYTES && trim(line + [F.NEWLINE]) == line
    requires e.decode(line).Some? && H.HasId(e.decode(line).value)
    ensures H.WellFormed(e, trim, [line])
  {
  }

  lemma DropsNewline(line: seq<byte>)
    ensures DropNewline(line + [F.NEWLINE]) == line
  {
    assert (line + [F.NEWLINE])[..|line|] == line;
  }

  lemma HexLineFits(width: nat, c: nat, id: nat)
    requires 4 < width < F.MAX_LINE_BYTES && id < Power16(width)
    ensures LineFits(Hex(width), c, id)
  {
    var line := Digits(id, width);
    NumberOfDigits(id, width);
    DropsNewline(line);
    assert |H.NULL| == 4;
    OneWellFormed(Hex(width).engine, Hex(width).trim, line);
  }

  lemma HexFits(width: nat)
    requires 4 < width < F.MAX_LINE_BYTES && Power16(width) == ID_SPACE
    ensures Fits(Hex(width))
  {
    forall c: nat, id: nat | 0 < id < ID_SPACE
      ensures LineFits(Hex(width), c, id)
    {
      HexLineFits(width, c, id);
    }
  }

  /** Sixteen digits make an encoding that fits. */
  lemma SomeWireFits() returns (w: Wire)
    ensures Fits(w)
  {
    SixteenDigitsSuffice();
    HexFits(16);
    w := Hex(16);
  }

  /** A served run with one more step. */
  lemma {:induction false} ServedOn(w: Wire, s: State, steps: seq<Step>, step: Step)
    requires Legal(s, steps) && ServedRun(w, s, steps) && Enabled(After(s, steps), step)
    requires step.Sidecar? && step.sidecar.Print? ==> PrintsNext(w, After(s, steps), step.p, step.sidecar.m)
    ensures Legal(s, steps + [step]) && ServedRun(w, s, steps + [step])
    decreases |steps|
  {
    ExtendRun(s, steps, step);
    if steps == [] {
      assert [step][1..] == [];
    } else {
      assert (steps + [step])[1..] == steps[1..] + [step];
      ServedOn(w, Apply(s, steps[0]), steps[1..], step);
    }
  }

  lemma ThenServed(w: Wire, s: State, steps: seq<Step>, t: State, step: Step) returns (more: seq<Step>, u: State)
    requires Reached(s, steps, t) && ServedRun(w, s, steps) && Enabled(t, step) && Apply(t, step).issued < ID_SPACE
    requires step.Sidecar? && step.sidecar.Print? ==> PrintsNext(w, t, step.p, step.sidecar.m)
    ensures u == Apply(t, step) && more == steps + [step] && Reached(s, more, u) && ServedRun(w, s, more)
  {
    ServedOn(w, s, steps, step);
    more, u := Then(s, steps, t, step);
  }

  /** The first request was written and nothing was answered yet. */
  predicate OneWritten(t: State) {
    && !t.closed && t.issued == 1 && |t.procs| == 1 && |t.calls| == 1 && t.pending == map[1 := 0]
    && t.calls[0].id == 1 && t.calls[0].phase == Waiting && t.calls[0].buffer == []
    && t.procs[0] == Process(Running, [0], [], 0, Scanning)
  }

  lemma OneCanBeNumbered(w: Wire, s: State) returns (steps: seq<Step>, t: State)
    requires Init(s)
    ensures Reached(s, steps, t) && ServedRun(w, s, steps)
    ensures !t.closed && t.issued == 1 && t.process == Some(0) && t.procs == [FRESH] && t.pending == map[]
    ensures t.calls == [Call(0, 1, Numbered, [], 0, None)]
  {
    steps, t := ThenServed(w, s, [], s, BeginCall(true));
    steps, t := ThenServed(w, s, steps, t, Caller(0, Allocate));
  }

  lemma OneCanBeWritten(w: Wire, s: State) returns (steps: seq<Step>, t: State)
    requires Init(s)
    ensures Reached(s, steps, t) && ServedRun(w, s, steps) && OneWritten(t)
  {
    steps, t := OneCanBeNumbered(w, s);
    steps, t := ThenServed(w, s, steps, t, Caller(0, Register));
    steps, t := ThenServed(w, s, steps, t, Caller(0, Write));
  }

  /** The server's reply to the first request. */
  lemma FirstReply(w: Wire, s: State)
    requires Fits(w) && Live(s) && OneWritten(s)
    ensures PrintsNext(w, s, 0, Reply(1, Handling(0, 0)))
  {
    LinesAreWellFormed(w, s, 0);
    H.RepliesEchoRequests(w.engine, w.trim, Lines(w, s, 0), F.EndOfFile);
    var line := Lines(w, s, 0)[0];
    assert line == w.line(0, 1) && LineFits(w, 0, 1);
    assert line in Lines(w, s, 0);
    assert Replies(w, s, 0)[0] == H.Handle(w.engine, line);
  }

  /** The theorems above are about runs that exist: with every encoding that fits, a request can be
      written, served and answered. */
  lemma ServedRunExists(w: Wire, s: State) returns (steps: seq<Step>, t: State)
    requires Fits(w) && Init(s)
    ensures Reached(s, steps, t) && ServedRun(w, s, steps)
    ensures |t.calls| == 1 && t.calls[0].phase == Returned(Answered(1, Handling(0, 0)))
  {
    steps, t := OneCanBeWritten(w, s);
    ReachedIsLive(s, steps, t);
    FirstReply(w, t);
    steps, t := ThenServed(w, s, steps, t, Sidecar(0, Print(Reply(1, Handling(0, 0)))));
    steps, t := ThenServed(w, s, steps, t, Sidecar(0, Take));
    steps, t := ThenServed(w, s, steps, t, Sidecar(0, Send));
    steps, t := ThenServed(w, s, steps, t, Caller(0, Receive));
  }
}
