/**
 The framing of internal/jsonl/server.go and internal/model/persistent_process.go: lines
 are assembled from the bounded slices of a bufio.Reader, under a byte limit, and must
 come out as plain "split after each newline" would give them, whatever the buffer size.
 */
module LineFraming {
  import opened Prelude

  /** `MaxRequestBytes`, and `maxModelOutputBytes` of the model runtime. */
  const MAX_LINE_BYTES: nat := 1024 * 1024

  const NEWLINE: byte := 10

  /** How the stream behind a reader ends. */
  datatype Ending = EndOfFile | Failure

  datatype ReadError = NoError | BufferFull | AtEnd(ending: Ending)

  /* ------------------------------------------------------------------ */
  /* Lines of a byte sequence                                           */
  /* ------------------------------------------------------------------ */

  /** The bytes up to and including the first newline, or everything. */
  function NextLine(input: seq<byte>): (line: seq<byte>)
    ensures line <= input
    ensures input != [] ==> line != []
  {
    if input == [] then []
    else if input[0] == NEWLINE then [NEWLINE]
    else [input[0]] + NextLine(input[1..])
  }

  predicate Terminated(line: seq<byte>) {
    line != [] && line[|line| - 1] == NEWLINE
  }

  lemma {:induction false} NextLineAfter(front: seq<byte>, back: seq<byte>)
    requires NEWLINE !in front
    ensures NextLine(front + back) == front + NextLine(back)
  {
    if front == [] {
      assert front + back == back;
    } else {
      assert (front + back)[1..] == front[1..] + back;
      NextLineAfter(front[1..], back);
    }
  }

  /** The next line ends at the first newline. */
  lemma NextLineEnds(body: seq<byte>, rest: seq<byte>)
    requires NEWLINE !in body
    ensures NextLine(body + [NEWLINE] + rest) == body + [NEWLINE]
  {
    NextLineAfter(body, [NEWLINE] + rest);
    assert body + [NEWLINE] + rest == body + ([NEWLINE] + rest);
  }

  lemma NextLineIsAll(body: seq<byte>)
    requires NEWLINE !in body
    ensures NextLine(body) == body && !Terminated(body)
  {
    NextLineAfter(body, []);
    assert body + [] == body;
  }

  /* ------------------------------------------------------------------ */
  /* The buffered reader                                                */
  /* ------------------------------------------------------------------ */

  /** A bufio.Reader with a buffer of `size` bytes over a stream of which `rest` is unread. */
  class Reader {
    var rest: seq<byte>
    const size: nat
    const ending: Ending

    constructor (input: seq<byte>, size: nat, ending: Ending)
      ensures rest == input && this.size == size && this.ending == ending
    {
      rest := input;
      this.size := size;
      this.ending := ending;
    }

    /** `ReadSlice('\n')`. When the unread bytes exactly fill the buffer it depends on
        the stream whether a full buffer or the end of the stream is reported. */
    method ReadSlice() returns (part: seq<byte>, err: ReadError)
      requires size > 0
      modifies this
      ensures old(rest) == part + rest && |part| <= size
      ensures err == NoError ==> Terminated(part) && NEWLINE !in part[..|part| - 1]
      ensures err == BufferFull ==> NEWLINE !in part && |part| == size
      ensures err.AtEnd? ==> NEWLINE !in part && rest == [] && err.ending == ending
    {
      var full: bool := *;
      var i := 0;
      while i < |rest| && i < size && rest[i] != NEWLINE
        invariant i <= |rest| && i <= size
        invariant NEWLINE !in rest[..i]
      {
        i := i + 1;
      }
      if i < |rest| && i < size {
        part, err := rest[..i + 1], NoError;
      } else if i == size && i < |rest| {
        part, err := rest[..i], BufferFull;
      } else if i == size && full {
        part, err := rest, BufferFull;
        assert part == rest[..i];
      } else {
        part, err := rest, AtEnd(ending);
        assert part == rest[..i];
      }
      rest := rest[|part|..];
    }
  }

  /** What one slice says about the line that `front` began. */
  lemma SliceMeaning(front: seq<byte>, part: seq<byte>, rest: seq<byte>, e: ReadError)
    requires NEWLINE !in front
    requires e == NoError ==> Terminated(part) && NEWLINE !in part[..|part| - 1]
    requires e == BufferFull ==> NEWLINE !in part
    requires e.AtEnd? ==> NEWLINE !in part && rest == []
    ensures e == NoError ==> NextLine(front + part + rest) == front + part && Terminated(front + part)
    ensures e.AtEnd? ==> NextLine(front + part + rest) == front + part && !Terminated(front + part)
    ensures e == BufferFull ==> NEWLINE !in front + part && front + part <= NextLine(front + part + rest)
  {
    if e == NoError {
      var body := front + part[..|part| - 1];
      assert front + part == body + [NEWLINE];
      NextLineEnds(body, rest);
    } else {
      if e.AtEnd? {
        assert front + part + rest == front + part;
        NextLineIsAll(front + part);
      } else {
        NextLineAfter(front + part, rest);
      }
    }
  }

  /** `readLine` of the server: exactly the next line, too large exactly when the line
      with its newline exceeds the limit, and never more than the limit held. */
  method ReadLine(r: Reader) returns (line: seq<byte>, tooLarge: bool, err: ReadError)
    requires r.size > 0
    modifies r
    ensures old(r.rest) == NextLine(old(r.rest)) + r.rest
    ensures tooLarge <==> |NextLine(old(r.rest))| > MAX_LINE_BYTES
    ensures line == if tooLarge then [] else NextLine(old(r.rest))
    ensures err == if Terminated(NextLine(old(r.rest))) then NoError else AtEnd(r.ending)
    ensures err.AtEnd? ==> r.rest == []
  {
    line, tooLarge := [], false;
    ghost var input := r.rest;
    ghost var consumed: seq<byte> := [];
    assert consumed + r.rest == input;
    while true
      invariant input == consumed + r.rest
      invariant NEWLINE !in consumed
      invariant tooLarge <==> |consumed| > MAX_LINE_BYTES
      invariant line == if tooLarge then [] else consumed
      decreases |r.rest|
    {
      var part, e := r.ReadSlice();
      ghost var longer := consumed + part;
      assert input == longer + r.rest;
      SliceMeaning(consumed, part, r.rest, e);
      if !tooLarge {
        if |line| + |part| > MAX_LINE_BYTES {
          tooLarge := true;
          line := [];
        } else {
          line := line + part;
        }
      }
      consumed := longer;
      if e != BufferFull {
        err := e;
        return;
      }
    }
  }

  datatype BoundedLine = Line(bytes: seq<byte>) | TooLong | Broken(ending: Ending)

  /** `readBoundedLine` of the model runtime, before trimming: the next terminated line,
      or an error. Only after an error may bytes of the line be left unread or lost. */
  method ReadBoundedLine(r: Reader, limit: nat) returns (result: BoundedLine)
    requires r.size > 0
    modifies r
    ensures result == TooLong <==> |NextLine(old(r.rest))| > limit
    ensures result.Line? <==> |NextLine(old(r.rest))| <= limit && Terminated(NextLine(old(r.rest)))
    ensures result.Line? ==> result.bytes == NextLine(old(r.rest)) && old(r.rest) == result.bytes + r.rest
    ensures result.Broken? ==> result.ending == r.ending
  {
    var output: seq<byte> := [];
    ghost var input := r.rest;
    assert output + r.rest == input;
    while true
      invariant input == output + r.rest
      invariant NEWLINE !in output && |output| <= limit
      decreases |r.rest|
    {
      var part, e := r.ReadSlice();
      ghost var longer := output + part;
      assert input == longer + r.rest;
      SliceMeaning(output, part, r.rest, e);
      if |output| + |part| > limit {
        return TooLong;
      }
      output := output + part;
      if e != BufferFull {
        if e.AtEnd? {
          return Broken(e.ending);
        }
        return Line(output);
      }
    }
  }

  /* ------------------------------------------------------------------ */
  /* Serve                                                              */
  /* ------------------------------------------------------------------ */

  /** The parts of the server that framing does not depend on. */
  datatype Engine<R> = Engine(trim: seq<byte> -> seq<byte>, handle: seq<byte> -> R, tooLarge: R)

  /** The responses one line gets: one per non-blank line, `request_too_large` for an
      oversized one, none for a blank one. */
  function LineResponses<R>(e: Engine<R>, line: seq<byte>): seq<R> {
    if |line| > MAX_LINE_BYTES then [e.tooLarge]
    else if e.trim(line) == [] then []
    else [e.handle(e.trim(line))]
  }

  /** The responses to a whole input. After a read failure the unfinished last line is
      not handled, but an oversized one has been reported already. */
  function Responses<R>(e: Engine<R>, input: seq<byte>, ending: Ending): seq<R>
    decreases |input|
  {
    var line := NextLine(input);
    if Terminated(line) then LineResponses(e, line) + Responses(e, input[|line|..], ending)
    else if ending == Failure && |line| <= MAX_LINE_BYTES then []
    else LineResponses(e, line)
  }

  /** The output stream: `capacity` responses can be encoded before writing fails. */
  class Writer<R> {
    var sent: seq<R>
    const capacity: nat

    constructor (capacity: nat)
      ensures sent == [] && this.capacity == capacity
    {
      sent := [];
      this.capacity := capacity;
    }

    method Encode(r: R) returns (ok: bool)
      modifies this
      ensures ok == (|old(sent)| < capacity)
      ensures sent == if ok then old(sent) + [r] else old(sent)
    {
      ok := |sent| < capacity;
      if ok {
        sent := sent + [r];
      }
    }
  }

  datatype Ended = Finished | ReadFailed | EncodeFailed

  function Min(a: nat, b: nat): nat {
    if a < b then a else b
  }

  /** What was written, and how the server ended, when `expected` is due. */
  predicate Served<R(==)>(sent: seq<R>, expected: seq<R>, capacity: nat, ending: Ending, ended: Ended) {
    && sent == expected[..Min(|expected|, capacity)]
    && ended == (if |expected| > capacity then EncodeFailed else if ending == Failure then ReadFailed else Finished)
  }

  /** One `enc.Encode` of the response that is due next. */
  method EncodeNext<R(==)>(w: Writer<R>, next: R, ghost ending: Ending, ghost expected: seq<R>) returns (ok: bool)
    requires w.sent + [next] <= expected && |w.sent| <= w.capacity
    modifies w
    ensures ok ==> w.sent == old(w.sent) + [next] && |w.sent| <= w.capacity
    ensures !ok ==> Served(w.sent, expected, w.capacity, ending, EncodeFailed)
  {
    ok := w.Encode(next);
    if !ok {
      assert |expected| > |w.sent|;
      assert w.sent == expected[..|w.sent|];
    }
  }

  lemma Reassociate<R>(a: seq<R>, b: seq<R>, c: seq<R>)
    ensures a + (b + c) == (a + b) + c
  {
  }

  /** The next line's share of the responses. */
  lemma ResponsesUnfold<R>(e: Engine<R>, input: seq<byte>, ending: Ending, rest: seq<byte>)
    requires input == NextLine(input) + rest
    ensures Terminated(NextLine(input)) ==>
              Responses(e, input, ending) == LineResponses(e, NextLine(input)) + Responses(e, rest, ending)
    ensures !Terminated(NextLine(input)) ==>
              Responses(e, input, ending)
              == (if ending == Failure && |NextLine(input)| <= MAX_LINE_BYTES then []
                  else LineResponses(e, NextLine(input)))
  {
    assert input[|NextLine(input)|..] == rest;
  }

  /** The share of a line in the responses: after a read failure only an oversized line has one. */
  function Share<R>(e: Engine<R>, plain: seq<byte>, err: ReadError): seq<R> {
    if err == AtEnd(Failure) && |plain| <= MAX_LINE_BYTES then [] else LineResponses(e, plain)
  }

  /** The responses to one line that was read; false once the writer fails. */
  method Answer<R(==)>(e: Engine<R>, w: Writer<R>, line: seq<byte>, tooLarge: bool, err: ReadError,
                       ghost plain: seq<byte>, ghost ending: Ending, ghost expected: seq<R>)
    returns (ok: bool)
    requires tooLarge <==> |plain| > MAX_LINE_BYTES
    requires line == (if tooLarge then [] else plain) && e.trim([]) == []
    requires w.sent + Share(e, plain, err) <= expected && |w.sent| <= w.capacity
    modifies w
    ensures ok ==> |w.sent| <= w.capacity && w.sent == old(w.sent) + Share(e, plain, err)
    ensures !ok ==> Served(w.sent, expected, w.capacity, ending, EncodeFailed)
  {
    ok := true;
    if tooLarge {
      ok := EncodeNext(w, e.tooLarge, ending, expected);
    }
    if !ok || err == AtEnd(Failure) {
      return;
    }
    var trimmed := e.trim(line);
    if trimmed != [] {
      ok := EncodeNext(w, e.handle(trimmed), ending, expected);
    }
  }

  /** `Serve`: whatever the buffer size, the responses are those of the plain lines, in
      order, up to the first response that cannot be written. */
  method Serve<R(==)>(e: Engine<R>, r: Reader, w: Writer<R>) returns (ended: Ended)
    requires r.size > 0 && w.sent == [] && e.trim([]) == []
    modifies r, w
    ensures Served(w.sent, Responses(e, old(r.rest), r.ending), w.capacity, r.ending, ended)
  {
    ghost var expected := Responses(e, r.rest, r.ending);
    while true
      invariant w.sent + Responses(e, r.rest, r.ending) == expected
      invariant |w.sent| <= w.capacity
      decreases |r.rest|
    {
      ghost var before, input := w.sent, r.rest;
      var line, tooLarge, err := ReadLine(r);
      ResponsesUnfold(e, input, r.ending, r.rest);
      ghost var due := LineResponses(e, NextLine(input));
      Reassociate(before, due, Responses(e, r.rest, r.ending));
      var ok := Answer(e, w, line, tooLarge, err, NextLine(input), r.ending, expected);
      if !ok {
        return EncodeFailed;
      }
      if err.AtEnd? {
        return if err.ending == Failure then ReadFailed else Finished;
      }
    }
  }

  /** The bytes of a sequence of request lines. */
  function Joined(lines: seq<seq<byte>>): seq<byte> {
    if lines == [] then [] else lines[0] + [NEWLINE] + Joined(lines[1..])
  }

  /** One handling per line, in order. */
  function Handlings<R>(e: Engine<R>, lines: seq<seq<byte>>): (rs: seq<R>)
    ensures |rs| == |lines|
    ensures forall i | 0 <= i < |lines| :: rs[i] == e.handle(lines[i])
  {
    if lines == [] then [] else [e.handle(lines[0])] + Handlings(e, lines[1..])
  }

  /** Every request line that fits is answered by exactly one response, in order: the
      server never falls out of step with a client that writes well-formed lines. */
  lemma {:induction false} OneResponsePerRequest<R>(e: Engine<R>, lines: seq<seq<byte>>, ending: Ending)
    requires e.trim([]) == []
    requires forall l | l in lines :: NEWLINE !in l && |l| < MAX_LINE_BYTES && l != [] && e.trim(l + [NEWLINE]) == l
    ensures Responses(e, Joined(lines), ending) == Handlings(e, lines)
  {
    if lines == [] {
      assert NextLine([]) == [];
    } else {
      var line := lines[0] + [NEWLINE];
      var rest := Joined(lines[1..]);
      assert lines[0] in lines;
      NextLineEnds(lines[0], rest);
      assert Joined(lines) == line + rest && (line + rest)[|line|..] == rest;
      OneResponsePerRequest(e, lines[1..], ending);
      assert LineResponses(e, line) == [e.handle(lines[0])];
    }
  }

  /** After an oversized line the server is back in step: the rest of the input is
      served as if it came alone. */
  lemma OversizedLineIsSkipped<R>(e: Engine<R>, long: seq<byte>, rest: seq<byte>, ending: Ending)
    requires NEWLINE !in long && |long| >= MAX_LINE_BYTES
    ensures Responses(e, long + [NEWLINE] + rest, ending) == [e.tooLarge] + Responses(e, rest, ending)
  {
    var line := long + [NEWLINE];
    NextLineEnds(long, rest);
    assert (line + rest)[|line|..] == rest;
  }

  /** What one line is worth: an error beyond 1 MiB, nothing if it is blank, else its handling. */
  function Reply<R>(e: Engine<R>): seq<byte> -> seq<R> {
    (line: seq<byte>) =>
      if |line| > 1_048_576 then [e.tooLarge] else if e.trim(line) == [] then [] else [e.handle(e.trim(line))]
  }

  /** The lines with their terminators. */
  function WithNewlines(lines: seq<seq<byte>>): (ended: seq<seq<byte>>)
    ensures |ended| == |lines| && forall i | 0 <= i < |lines| :: ended[i] == lines[i] + [NEWLINE]
  {
    seq(|lines|, i requires 0 <= i < |lines| => lines[i] + [NEWLINE])
  }

  /** The replies to terminated lines. */
  function Replies<R>(e: Engine<R>, lines: seq<seq<byte>>): seq<R> {
    FlatMap(WithNewlines(lines), Reply(e))
  }

  lemma RepliesUnfold<R>(e: Engine<R>, lines: seq<seq<byte>>)
    requires lines != []
    ensures Replies(e, lines) == Reply(e)(lines[0] + [NEWLINE]) + Replies(e, lines[1..])
  {
    var line := lines[0] + [NEWLINE];
    assert WithNewlines(lines) == [line] + WithNewlines(lines[1..]);
    FlatMapConcat([line], WithNewlines(lines[1..]), Reply(e));
    FlatMapOne(line, Reply(e));
  }

  lemma FirstLineIsServed<R>(e: Engine<R>, first: seq<byte>, more: seq<byte>, ending: Ending)
    requires NEWLINE !in first
    ensures Responses(e, first + [NEWLINE] + more, ending)
         == Reply(e)(first + [NEWLINE]) + Responses(e, more, ending)
  {
    var line := first + [NEWLINE];
    NextLineEnds(first, more);
    assert (line + more)[|line|..] == more;
  }

  /** The reply to the last, unterminated line. */
  function LastReply<R>(e: Engine<R>, rest: seq<byte>, ending: Ending): seq<R> {
    if ending == Failure && |rest| <= 1_048_576 then [] else Reply(e)(rest)
  }

  lemma LastLineIsServed<R>(e: Engine<R>, rest: seq<byte>, ending: Ending)
    requires NEWLINE !in rest
    ensures Responses(e, rest, ending) == LastReply(e, rest, ending)
  {
    NextLineIsAll(rest);
  }

  /** Any input is some terminated lines and a rest: the terminated lines get their replies in order,
      and so does the rest when the input ends there; when reading fails instead, the rest gets
      a reply only if it was too long already. */
  lemma {:induction false} InputIsServedLineByLine<R>(e: Engine<R>, lines: seq<seq<byte>>, rest: seq<byte>,
      ending: Ending)
    requires NEWLINE !in rest && forall l | l in lines :: NEWLINE !in l
    ensures Responses(e, Joined(lines) + rest, ending) == Replies(e, lines) + LastReply(e, rest, ending)
  {
    if lines == [] {
      LastLineIsServed(e, rest, ending);
      assert Joined(lines) + rest == rest;
    } else {
      var more := Joined(lines[1..]) + rest;
      assert lines[0] in lines;
      assert Joined(lines) + rest == lines[0] + [NEWLINE] + more;
      FirstLineIsServed(e, lines[0], more, ending);
      InputIsServedLineByLine(e, lines[1..], rest, ending);
      RepliesUnfold(e, lines);
      Reassociate(Reply(e)(lines[0] + [NEWLINE]), Replies(e, lines[1..]), LastReply(e, rest, ending));
    }
  }
}
