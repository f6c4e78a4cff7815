/**
 `handle` of internal/jsonl/server.go and what a client that writes one request per line
 sees: one response per request, in order, under the id it sent.
 */
module ServerHandle {
  import opened Prelude
  import F = LineFraming

  /** A strictly decoded request; `id` and `params` are raw JSON. */
  datatype Request = Request(id: seq<byte>, version: string, name: string, params: seq<byte>)

  datatype Body = Health | Capabilities | Plan(plan: seq<byte>) | Transcript(text: seq<byte>) | Failure(code: string)

  datatype Response = Response(id: Option<seq<byte>>, body: Body)

  datatype Interpreted = BadInput | Refused | Interpreted(plan: seq<byte>)

  datatype Transcribed = BadParams | InvalidAudio | RuntimeFailed | Transcribed(text: seq<byte>)

  /** JSON decoding and the interpreter and transcriber behind the server. */
  datatype Engine = Engine(
    decode: seq<byte> -> Option<Request>,
    interpret: seq<byte> -> Interpreted,
    transcribe: Option<seq<byte> -> Transcribed>)

  const PROTOCOL_VERSION := "1"

  /** The raw JSON `null`. */
  const NULL: seq<byte> := [110, 117, 108, 108]

  /** A request that names its caller. */
  predicate HasId(r: Request) {
    r.id != [] && r.id != NULL
  }

  function Handle(e: Engine, line: seq<byte>): Response {
    match e.decode(line)
    case None => Response(None, Failure("parse_error"))
    case Some(r) =>
      if !HasId(r) then Response(None, Failure("invalid_request"))
      else Response(Some(r.id), Dispatch(e, r))
  }

  function Dispatch(e: Engine, r: Request): Body {
    if r.name == "" then Failure("invalid_request")
    else if r.version != "" && r.version != PROTOCOL_VERSION then Failure("unsupported_protocol_version")
    else if r.name == "health" then Health
    else if r.name == "capabilities" then Capabilities
    else if r.name == "interpret" then
      if r.params == [] then Failure("invalid_params")
      else
        match e.interpret(r.params)
        case BadInput => Failure("invalid_params")
        case Refused => Failure("invalid_params")
        case Interpreted(plan) => Plan(plan)
    else if r.name == "transcribe" then
      if e.transcribe.None? then Failure("method_unavailable")
      else if r.params == [] then Failure("invalid_params")
      else
        match e.transcribe.value(r.params)
        case BadParams => Failure("invalid_params")
        case InvalidAudio => Failure("invalid_params")
        case RuntimeFailed => Failure("transcription_failed")
        case Transcribed(text) => Transcript(text)
    else Failure("method_not_found")
  }

  /** What answers a request: each result, and each error, exactly the requests it belongs to. A
      request may leave its version out. */
  ghost predicate Suits(e: Engine, r: Request, body: Body) {
    var known, some := r.version == "" || r.version == "1", r.params != [];
    && (body == Failure("invalid_request") <==> r.name == "")
    && (body == Failure("unsupported_protocol_version") <==> r.name != "" && !known)
    && (body == Health <==> known && r.name == "health")
    && (body == Capabilities <==> known && r.name == "capabilities")
    && (forall plan :: body == Plan(plan) <==>
          known && r.name == "interpret" && some && e.interpret(r.params) == Interpreted(plan))
    && (forall text :: body == Transcript(text) <==>
          known && r.name == "transcribe" && some && e.transcribe.Some?
          && e.transcribe.value(r.params) == Transcribed(text))
    && (body == Failure("method_unavailable") <==> known && r.name == "transcribe" && e.transcribe.None?)
    && (body == Failure("transcription_failed") <==>
          known && r.name == "transcribe" && some && e.transcribe.Some?
          && e.transcribe.value(r.params) == RuntimeFailed)
    && (body == Failure("invalid_params") <==>
          known && if r.name == "interpret" then !some || !e.interpret(r.params).Interpreted?
                   else r.name == "transcribe" && e.transcribe.Some?
                        && (!some || e.transcribe.value(r.params) in {BadParams, InvalidAudio}))
    && (body == Failure("method_not_found") <==>
          known && r.name !in {"", "health", "capabilities", "interpret", "transcribe"})
  }

  lemma DispatchSuits(e: Engine, r: Request)
    ensures Suits(e, r, Dispatch(e, r))
  {
  }

  function Server(e: Engine, trim: seq<byte> -> seq<byte>): F.Engine<Response> {
    F.Engine(trim, (line: seq<byte>) => Handle(e, line), Response(None, Failure("request_too_large")))
  }

  /** The lines are requests with an id, each within the limit. */
  ghost predicate WellFormed(e: Engine, trim: seq<byte> -> seq<byte>, lines: seq<seq<byte>>) {
    && trim([]) == []
    && forall l | l in lines ::
         && F.NEWLINE !in l && |l| < F.MAX_LINE_BYTES && l != [] && trim(l + [F.NEWLINE]) == l
         && e.decode(l).Some? && HasId(e.decode(l).value)
  }

  /** What the server prints for well-formed lines is one response per line, in order,
      each under the id of its own line and with that line's outcome. */
  lemma RepliesEchoRequests(e: Engine, trim: seq<byte> -> seq<byte>, lines: seq<seq<byte>>, ending: F.Ending)
    requires WellFormed(e, trim, lines)
    ensures var replies := F.Responses(Server(e, trim), F.Joined(lines), ending);
      && |replies| == |lines|
      && forall i | 0 <= i < |lines| ::
           replies[i] == Response(Some(e.decode(lines[i]).value.id), Dispatch(e, e.decode(lines[i]).value))
  {
    F.OneResponsePerRequest(Server(e, trim), lines, ending);
    forall i | 0 <= i < |lines|
      ensures Handle(e, lines[i]) == Response(Some(e.decode(lines[i]).value.id), Dispatch(e, e.decode(lines[i]).value))
    {
      assert lines[i] in lines;
    }
  }

  /** So the body of reply `i` suits request `i`. */
  lemma RepliesSuitRequests(e: Engine, trim: seq<byte> -> seq<byte>, lines: seq<seq<byte>>, ending: F.Ending)
    requires WellFormed(e, trim, lines)
    ensures var replies := F.Responses(Server(e, trim), F.Joined(lines), ending);
      && |replies| == |lines|
      && forall i | 0 <= i < |lines| :: Suits(e, e.decode(lines[i]).value, replies[i].body)
  {
    RepliesEchoRequests(e, trim, lines, ending);
    forall i | 0 <= i < |lines| ensures Suits(e, e.decode(lines[i]).value, Dispatch(e, e.decode(lines[i]).value)) {
      DispatchSuits(e, e.decode(lines[i]).value);
    }
  }

  /** A line that is not blank and not too long is answered by one reply: without an id exactly if it
      does not decode or has no id or a null one, and else under its id. */
  lemma LineIsAnswered(e: Engine, trim: seq<byte> -> seq<byte>, line: seq<byte>, ending: F.Ending)
    requires F.NEWLINE !in line && |line| < 1_048_576 && trim([]) == [] && trim(line + [F.NEWLINE]) != []
    ensures var replies, request :=
        F.Responses(Server(e, trim), line + [F.NEWLINE], ending), e.decode(trim(line + [F.NEWLINE]));
      && |replies| == 1
      && (replies[0] == Response(None, Failure("parse_error")) <==> request.None?)
      && (replies[0] == Response(None, Failure("invalid_request"))
          <==> request.Some? && (request.value.id == [] || request.value.id == [110, 117, 108, 108]))
      && (request.Some? && request.value.id != [] && request.value.id != [110, 117, 108, 108] ==>
            replies[0].id == Some(request.value.id) && Suits(e, request.value, replies[0].body))
  {
    var server := Server(e, trim);
    assert line + [F.NEWLINE] + [] == line + [F.NEWLINE];
    F.FirstLineIsServed(server, line, [], ending);
    F.LastLineIsServed(server, [], ending);
    var request := e.decode(trim(line + [F.NEWLINE]));
    if request.Some? {
      DispatchSuits(e, request.value);
    }
  }

  /** The reply is the handling of this line, a request with an id, under that id. */
  ghost predicate Answers(e: Engine, trim: seq<byte> -> seq<byte>, line: seq<byte>, r: Response) {
    var request := e.decode(trim(line));
    && |line| <= F.MAX_LINE_BYTES && request.Some? && HasId(request.value)
    && r == Response(Some(request.value.id), Dispatch(e, request.value))
  }

  /** The plain lines of an input. */
  function InputLines(input: seq<byte>): seq<seq<byte>>
    decreases |input|
  {
    var line := F.NextLine(input);
    if F.Terminated(line) then [line] + InputLines(input[|line|..]) else [line]
  }

  /** On arbitrary input a reply without id is one of three errors, and a reply with an id is the
      outcome of a line of the input that is a request of that id: no caller is answered with an id
      that nobody sent. */
  lemma {:induction false} IdlessRepliesAreErrors(e: Engine, trim: seq<byte> -> seq<byte>, input: seq<byte>,
      ending: F.Ending)
    ensures forall r | r in F.Responses(Server(e, trim), input, ending) ::
              if r.id.None? then r.body.Failure?
                  && r.body.code in {"parse_error", "invalid_request", "request_too_large"}
              else exists line :: line in InputLines(input) && Answers(e, trim, line, r)
    decreases |input|
  {
    var line := F.NextLine(input);
    assert line in InputLines(input);
    forall r | r in F.LineResponses(Server(e, trim), line) && r.id.Some?
      ensures Answers(e, trim, line, r)
    {
    }
    if F.Terminated(line) {
      IdlessRepliesAreErrors(e, trim, input[|line|..], ending);
      assert forall l | l in InputLines(input[|line|..]) :: l in InputLines(input);
    }
  }
}
