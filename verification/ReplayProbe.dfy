/**
 The replay loop of internal/streamprobe/probe.go: audio arrives in chunks, at most one
 speculative transcription of a trailing window runs at a time, and the final
 transcription sees the complete recording. Waiting, polling, temporary files and
 transcriptions are decided by the environment; wall-clock metrics are not part of this
 model.
 */
module ReplayProbe {
  import opened Prelude
  import Wav

  const SECOND: nat := 1_000_000_000
  const MILLISECOND: nat := 1_000_000
  const INT64_LIMIT: int := 0x8000_0000_0000_0000

  /* ------------------------------------------------------------------ */
  /* int64 arithmetic                                                   */
  /* ------------------------------------------------------------------ */

  /** The value of an int64 computation whose exact result is `n`. */
  function Wrap64(n: int): (w: int)
    ensures -INT64_LIMIT <= w < INT64_LIMIT
    ensures -INT64_LIMIT <= n < INT64_LIMIT ==> w == n
  {
    (n + INT64_LIMIT) % (2 * INT64_LIMIT) - INT64_LIMIT
  }

  /** Go's division truncates toward zero. */
  function TruncDiv(a: int, b: nat): int
    requires b > 0
  {
    if a >= 0 then a / b else -(-a / b)
  }

  /** `n -= n % 2` with Go's remainder. */
  function Even(n: int): (even: int)
    ensures even % 2 == 0 && -1 <= n - even <= 1
    ensures n >= 0 ==> 0 <= even <= n
  {
    n - (if n >= 0 then n % 2 else -(-n % 2))
  }

  /** `durationBytes`. */
  function DurationBytes(duration: int, bytesPerSecond: nat): int {
    TruncDiv(Wrap64(duration * bytesPerSecond), SECOND)
  }

  /** `time.Duration(length) * time.Second / time.Duration(bytesPerSecond)`. */
  function Nanos(length: nat, bytesPerSecond: nat): int
    requires bytesPerSecond > 0
  {
    TruncDiv(Wrap64(length * SECOND), bytesPerSecond)
  }

  /** The byte count of a duration is exact if and only if the product fits an int64. */
  lemma DurationBytesIsExact(duration: nat, bytesPerSecond: nat)
    ensures DurationBytes(duration, bytesPerSecond) == duration * bytesPerSecond / SECOND
            <==> duration * bytesPerSecond < INT64_LIMIT
  {
    var exact := duration * bytesPerSecond;
    var wrapped := Wrap64(exact);
    if exact >= INT64_LIMIT {
      assert wrapped <= exact - 2 * INT64_LIMIT;
      if wrapped >= 0 {
        assert wrapped + SECOND <= exact;
      }
    }
  }

  /** A PCM length comes from a 32-bit chunk size, so its nanoseconds never overflow, and
      they grow with the length. */
  lemma NanosAreExact(length: nat, longer: nat, bytesPerSecond: nat)
    requires length <= longer < Wav.U32 && bytesPerSecond > 0
    ensures Nanos(length, bytesPerSecond) == length * SECOND / bytesPerSecond
    ensures 0 <= Nanos(length, bytesPerSecond) <= Nanos(longer, bytesPerSecond) < INT64_LIMIT
  {
    DivIsMonotone(length * SECOND, longer * SECOND, bytesPerSecond);
    DivIsMonotone(0, length * SECOND, bytesPerSecond);
  }

  lemma MulIsMonotone(d: nat, x: nat, y: nat)
    requires x <= y
    ensures d * x <= d * y
  {
    assert d * y == d * x + d * (y - x);
  }

  lemma DivIsMonotone(a: nat, b: nat, d: nat)
    requires a <= b && d > 0
    ensures a / d <= b / d <= b
  {
    var x, y := a / d, b / d;
    assert a == d * x + a % d && b == d * y + b % d;
    if x > y {
      MulIsMonotone(d, y + 1, x);
    }
    MulIsMonotone(y, 1, d);
  }

  /* ------------------------------------------------------------------ */
  /* Configuration                                                      */
  /* ------------------------------------------------------------------ */

  /** Durations in nanoseconds; values that are not positive select the defaults. */
  datatype Config = Config(chunk: int, after: int, interval: int, window: int, max: int)

  function Positive(value: int, default: nat): int {
    if value <= 0 then default else value
  }

  /** `applyDefaults`. */
  function WithDefaults(c: Config): (d: Config)
    ensures d.chunk > 0 && d.after > 0 && d.interval > 0 && d.window > 0 && d.max > 0
    ensures c.chunk > 0 && c.after > 0 && c.interval > 0 && c.window > 0 && c.max > 0 ==> d == c
    ensures c.chunk <= 0 && c.after <= 0 && c.interval <= 0 && c.window <= 0 && c.max <= 0 ==>
      d == Config(100_000_000, 1_000_000_000, 1_500_000_000, 4_000_000_000, 15_000_000_000)
  {
    Config(Positive(c.chunk, 100 * MILLISECOND), Positive(c.after, SECOND), Positive(c.interval, 1500 * MILLISECOND),
           Positive(c.window, 4 * SECOND), Positive(c.max, 15 * SECOND))
  }

  /** The audio time of a byte count. */
  function Clock(bytesPerSecond: nat): (clock: nat -> int)
    requires bytesPerSecond > 0
    ensures forall length: nat :: clock(length) == Nanos(length, bytesPerSecond)
  {
    (length: nat) => Nanos(length, bytesPerSecond)
  }

  /** Byte counts and times derived from the audio and the configuration. */
  datatype Settings = Settings(clock: nat -> int, chunkBytes: nat, windowBytes: int, after: int, interval: int)

  /* ------------------------------------------------------------------ */
  /* The environment                                                    */
  /* ------------------------------------------------------------------ */

  datatype PartialOutcome = Text(text: string) | Canceled | Failed(message: string)

  /** Decisions by round of the loop, and by attempt. */
  datatype Env = Env(
    waits: nat -> bool,
    done: nat -> bool,
    tempFile: nat -> bool,
    outcome: nat -> PartialOutcome,
    finalFile: bool,
    final: Option<string>)

  datatype RunError = BadAudio(error: Wav.WavError) | NotMono16 | TooLong | ChunkTooSmall
                    | ContextDone | TempFileFailed | FinalFailed | SliceOutOfRange

  /* ------------------------------------------------------------------ */
  /* The loop                                                           */
  /* ------------------------------------------------------------------ */

  /** One speculative transcription: when it started, in audio time, and its input. */
  datatype Attempt = Attempt(at: int, length: nat, window: seq<byte>)

  datatype Event = Event(sequence: nat, audioMS: int, text: string)

  /** The variables of `Run`; `log` lists all attempts. */
  datatype Probe = Probe(
    offset: nat, round: nat, captured: seq<byte>, active: Option<Attempt>, nextPartialAt: int,
    sequence: nat, attempts: nat, completed: nat, cancelled: nat,
    partials: seq<Event>, errors: seq<string>, log: seq<Attempt>)

  function InitialProbe(s: Settings): Probe {
    Probe(0, 0, [], None, s.after, 0, 0, 0, 0, [], [], [])
  }

  function Milliseconds(nanos: int): (ms: int)
    ensures nanos >= 0 ==> ms * 1_000_000 <= nanos < (ms + 1) * 1_000_000
  {
    TruncDiv(nanos, MILLISECOND)
  }

  /** `collect`, and the end of the active attempt. */
  function Collect(p: Probe, env: Env): Probe
    requires p.active.Some? && p.attempts > 0
  {
    match env.outcome(p.attempts - 1)
    case Canceled => p.(active := None, cancelled := p.cancelled + 1)
    case Failed(message) => p.(active := None, errors := p.errors + [message])
    case Text(text) =>
      p.(active := None, sequence := p.sequence + 1, completed := p.completed + 1,
         partials := p.partials + [Event(p.sequence + 1, Milliseconds(p.active.value.at), text)])
  }

  function Capture(s: Settings, pcm: seq<byte>, p: Probe): Probe
    requires p.offset < |pcm|
  {
    var end := if p.offset + s.chunkBytes < |pcm| then p.offset + s.chunkBytes else |pcm|;
    p.(captured := p.captured + pcm[p.offset..end])
  }

  function Poll(p: Probe, env: Env): Probe {
    if p.active.Some? && p.attempts > 0 && env.done(p.round) then Collect(p, env) else p
  }

  function Window(s: Settings, captured: seq<byte>): Option<seq<byte>> {
    if |captured| <= s.windowBytes then Some(captured)
    else if s.windowBytes < 0 then None
    else Some(captured[|captured| - s.windowBytes..])
  }

  /** Start an attempt when none is active, it is due, and audio remains. */
  function MaybeLaunch(s: Settings, pcm: seq<byte>, p: Probe, env: Env): Result<Probe, RunError>
  {
    var at := s.clock(|p.captured|);
    if p.active.None? && at >= p.nextPartialAt && p.offset + s.chunkBytes < |pcm| then
      match Window(s, p.captured)
      case None => Err(SliceOutOfRange)
      case Some(window) =>
        if !env.tempFile(p.attempts) then Err(TempFileFailed)
        else
          var attempt := Attempt(at, |p.captured|, window);
          Ok(p.(active := Some(attempt), attempts := p.attempts + 1, log := p.log + [attempt],
                nextPartialAt := Wrap64(at + s.interval)))
    else Ok(p)
  }

  /** One iteration of the replay loop. */
  function Round(s: Settings, pcm: seq<byte>, p: Probe, env: Env): Result<Probe, RunError>
    requires p.offset < |pcm|
  {
    if !env.waits(p.round) then Err(ContextDone)
    else
      match MaybeLaunch(s, pcm, Poll(Capture(s, pcm, p), env), env)
      case Err(error) => Err(error)
      case Ok(next) => Ok(next.(offset := p.offset + s.chunkBytes, round := p.round + 1))
  }

  /** The loop from state `p` on. */
  function Loop(s: Settings, pcm: seq<byte>, p: Probe, env: Env): Result<Probe, RunError>
    requires s.chunkBytes > 0
    decreases |pcm| - p.offset
  {
    if p.offset >= |pcm| then Ok(p)
    else
      match Round(s, pcm, p, env)
      case Err(error) => Err(error)
      case Ok(next) => Loop(s, pcm, next, env)
  }

  /** What a successful run reports, with its attempts and the file it transcribed last. */
  datatype Report = Report(
    final: string, captureMS: int, attempts: nat, completed: nat, cancelled: nat,
    partials: seq<Event>, errors: seq<string>, log: seq<Attempt>, finalFile: seq<byte>)

  /** The end of `Run`: preempt the active attempt, then transcribe everything. */
  function Release(rate: nat, captureMS: int, p: Probe, env: Env): Result<Report, RunError> {
    var q := if p.active.Some? && p.attempts > 0 then Collect(p, env) else p;
    if !env.finalFile then Err(TempFileFailed)
    else if env.final.None? then Err(FinalFailed)
    else Ok(Report(env.final.value, captureMS, q.attempts, q.completed, q.cancelled, q.partials, q.errors, q.log,
                   Wav.Written(rate, q.captured)))
  }

  /** The checks before the loop. */
  function Prepare(audio: Wav.Audio, c: Config): Result<Settings, RunError>
    requires audio.rate > 0
  {
    if audio.channels != 1 || audio.bits != 16 then Err(NotMono16)
    else if Nanos(|audio.pcm|, audio.rate * 2) > c.max then Err(TooLong)
    else
      var chunkBytes := DurationBytes(c.chunk, audio.rate * 2);
      var windowBytes := DurationBytes(c.window, audio.rate * 2);
      if chunkBytes < 2 then Err(ChunkTooSmall)
      else Ok(Settings(Clock(audio.rate * 2), Even(chunkBytes), Even(windowBytes), c.after, c.interval))
  }

  /** `Run`, after the file was read. */
  function RunSpec(audio: Wav.Audio, c: Config, env: Env): Result<Report, RunError>
    requires audio.rate > 0
  {
    match Prepare(audio, c)
    case Err(error) => Err(error)
    case Ok(s) =>
      match Loop(s, audio.pcm, InitialProbe(s), env)
      case Err(error) => Err(error)
      case Ok(p) => Release(audio.rate, Milliseconds(Nanos(|audio.pcm|, audio.rate * 2)), p, env)
  }

  /** `Run`, on the bytes of the audio file. */
  method Run(data: seq<byte>, config: Config, env: Env) returns (result: Result<Report, RunError>)
    ensures Wav.Read(data).Err? ==> result == Err(BadAudio(Wav.Read(data).error))
    ensures Wav.Read(data).Ok? ==>
      Wav.Read(data).value.rate > 0 && result == RunSpec(Wav.Read(data).value, WithDefaults(config), env)
  {
    var read := Wav.ReadPCM16WAV(data);
    if read.Err? {
      return Err(BadAudio(read.error));
    }
    Wav.ReadIsBounded(data);
    var audio := read.value;
    var c := WithDefaults(config);
    if audio.channels != 1 || audio.bits != 16 {
      return Err(NotMono16);
    }
    var bytesPerSecond := audio.rate * 2;
    var duration := Nanos(|audio.pcm|, bytesPerSecond);
    if duration > c.max {
      return Err(TooLong);
    }
    var chunkBytes := DurationBytes(c.chunk, bytesPerSecond);
    var windowBytes := DurationBytes(c.window, bytesPerSecond);
    if chunkBytes < 2 {
      return Err(ChunkTooSmall);
    }
    var s := Settings(Clock(bytesPerSecond), Even(chunkBytes), Even(windowBytes), c.after, c.interval);
    var p := InitialProbe(s);
    while p.offset < |audio.pcm|
      invariant Loop(s, audio.pcm, p, env) == Loop(s, audio.pcm, InitialProbe(s), env)
      decreases |audio.pcm| - p.offset
    {
      var next := RoundStep(s, audio.pcm, p, env);
      if next.Err? {
        return Err(next.error);
      }
      p := next.value;
    }
    return Release(audio.rate, Milliseconds(duration), p, env);
  }

  /** The loop body, statement by statement. */
  method RoundStep(s: Settings, pcm: seq<byte>, p: Probe, env: Env) returns (result: Result<Probe, RunError>)
    requires p.offset < |pcm|
    ensures result == Round(s, pcm, p, env)
  {
    var end := if p.offset + s.chunkBytes < |pcm| then p.offset + s.chunkBytes else |pcm|;
    if !env.waits(p.round) {
      return Err(ContextDone);
    }
    var q := p.(captured := p.captured + pcm[p.offset..end]);
    assert q == Capture(s, pcm, p);
    if q.active.Some? && q.attempts > 0 && env.done(q.round) {
      q := Collect(q, env);
    }
    ghost var polled := q;
    assert polled == Poll(Capture(s, pcm, p), env);
    var at := s.clock(|q.captured|);
    if q.active.None? && at >= q.nextPartialAt && end < |pcm| {
      var window := q.captured;
      if |window| > s.windowBytes {
        if s.windowBytes < 0 {
          return Err(SliceOutOfRange);
        }
        window := window[|window| - s.windowBytes..];
      }
      if !env.tempFile(q.attempts) {
        return Err(TempFileFailed);
      }
      var attempt := Attempt(at, |q.captured|, window);
      q := q.(active := Some(attempt), attempts := q.attempts + 1, log := q.log + [attempt],
              nextPartialAt := Wrap64(at + s.interval));
    }
    assert MaybeLaunch(s, pcm, polled, env) == Ok(q);
    return Ok(q.(offset := p.offset + s.chunkBytes, round := p.round + 1));
  }

  /* ------------------------------------------------------------------ */
  /* The ledger                                                         */
  /* ------------------------------------------------------------------ */

  ghost predicate Applicable(s: Settings, pcm: seq<byte>) {
    && s.chunkBytes >= 2 && s.chunkBytes % 2 == 0 && s.windowBytes % 2 == 0
    && forall a: nat, b: nat | a <= b <= |pcm| :: 0 <= s.clock(a) <= s.clock(b) < INT64_LIMIT
  }

  /** One attempt: its time is that of the audio captured by then, and its window is the
      trailing part of that audio, on 16-bit sample boundaries. */
  predicate AttemptOk(s: Settings, pcm: seq<byte>, a: Attempt)
  {
    && 0 < a.length < |pcm| && a.length % 2 == 0
    && a.at == s.clock(a.length)
    && (a.length > s.windowBytes ==> s.windowBytes >= 0)
    && var size := if a.length <= s.windowBytes then a.length else s.windowBytes;
       a.window == pcm[a.length - size..a.length] && (a.length - size) % 2 == 0
  }

  /** Consecutive attempts: more audio, and not before the scheduled time. */
  predicate Scheduled(s: Settings, earlier: Attempt, later: Attempt) {
    earlier.length < later.length && later.at >= Wrap64(earlier.at + s.interval)
  }

  /** The j-th attempt is sound by itself and after its predecessor. */
  predicate LoggedAt(s: Settings, pcm: seq<byte>, log: seq<Attempt>, j: nat)
    requires j < |log|
  {
    AttemptOk(s, pcm, log[j]) && (if j == 0 then log[0].at >= s.after else Scheduled(s, log[j - 1], log[j]))
  }

  predicate LogOk(s: Settings, pcm: seq<byte>, p: Probe) {
    && (forall j | 0 <= j < |p.log| :: LoggedAt(s, pcm, p.log, j))
    && (p.log != [] ==> p.log[|p.log| - 1].length <= |p.captured|)
    && p.nextPartialAt == (if p.log == [] then s.after else Wrap64(p.log[|p.log| - 1].at + s.interval))
  }

  /** Events are numbered from 1, in the order of their audio times. */
  predicate EventAt(partials: seq<Event>, k: nat)
    requires k < |partials|
  {
    partials[k].sequence == k + 1 && (k > 0 ==> partials[k - 1].audioMS <= partials[k].audioMS)
  }

  predicate EventsOk(p: Probe) {
    && (forall k | 0 <= k < |p.partials| :: EventAt(p.partials, k))
    && (p.partials != [] ==>
          p.log != [] && p.partials[|p.partials| - 1].audioMS <= Milliseconds(p.log[|p.log| - 1].at))
  }

  predicate LedgerOk(p: Probe) {
    && p.attempts == |p.log| && p.completed == |p.partials| == p.sequence
    && p.attempts == p.completed + p.cancelled + |p.errors| + (if p.active.Some? then 1 else 0)
    && (p.active.Some? ==> p.log != [] && p.active.value == p.log[|p.log| - 1])
  }

  predicate Consistent(s: Settings, pcm: seq<byte>, p: Probe)
  {
    && p.captured <= pcm && LogOk(s, pcm, p) && EventsOk(p) && LedgerOk(p)
  }

  /** At the head of the loop the captured audio is exactly the prefix up to `offset`. */
  predicate AtHead(s: Settings, pcm: seq<byte>, p: Probe)
  {
    && Consistent(s, pcm, p) && p.offset % 2 == 0
    && |p.captured| == (if p.offset < |pcm| then p.offset else |pcm|)
  }

  lemma CollectKeeps(s: Settings, pcm: seq<byte>, p: Probe, env: Env)
    requires Consistent(s, pcm, p) && p.active.Some?
    ensures p.attempts > 0
    ensures Consistent(s, pcm, Collect(p, env)) && Collect(p, env).active.None?
    ensures Collect(p, env).log == p.log && Collect(p, env).captured == p.captured && Collect(p, env).offset == p.offset
  {
    var q := Collect(p, env);
    forall k | 0 <= k < |q.partials|
      ensures EventAt(q.partials, k)
    {
      assert k < |p.partials| ==> EventAt(p.partials, k);
    }
  }

  function Launched(s: Settings, p: Probe, a: Attempt): Probe {
    p.(active := Some(a), attempts := p.attempts + 1, log := p.log + [a], nextPartialAt := Wrap64(a.at + s.interval))
  }

  lemma AppendKeeps(s: Settings, pcm: seq<byte>, p: Probe, a: Attempt)
    requires Applicable(s, pcm) && Consistent(s, pcm, p) && p.active.None?
    requires AttemptOk(s, pcm, a) && a.length == |p.captured| && a.at >= p.nextPartialAt
    requires p.log != [] ==> p.log[|p.log| - 1].length < a.length
    ensures Consistent(s, pcm, Launched(s, p, a))
  {
    var q := Launched(s, p, a);
    forall j | 0 <= j < |q.log|
      ensures LoggedAt(s, pcm, q.log, j)
    {
      assert j < |p.log| ==> LoggedAt(s, pcm, p.log, j);
    }
    if p.log != [] {
      var last := p.log[|p.log| - 1];
      assert LoggedAt(s, pcm, p.log, |p.log| - 1);
      assert 0 <= s.clock(last.length) <= s.clock(a.length);
      MillisecondsGrow(last.at, a.at);
    }
  }

  lemma WindowIsAligned(s: Settings, pcm: seq<byte>, captured: seq<byte>)
    requires Applicable(s, pcm) && captured <= pcm && 0 < |captured| < |pcm| && |captured| % 2 == 0
    requires Window(s, captured).Some?
    ensures AttemptOk(s, pcm, Attempt(s.clock(|captured|), |captured|, Window(s, captured).value))
  {
    assert captured == pcm[..|captured|];
  }

  lemma LaunchKeeps(s: Settings, pcm: seq<byte>, p: Probe, env: Env)
    requires Applicable(s, pcm) && Consistent(s, pcm, p) && p.active.None?
    requires p.log != [] ==> p.log[|p.log| - 1].length < |p.captured|
    requires 0 < |p.captured| == (if p.offset + s.chunkBytes < |pcm| then p.offset + s.chunkBytes else |pcm|)
    requires p.offset % 2 == 0
    ensures MaybeLaunch(s, pcm, p, env).Ok? ==> Consistent(s, pcm, MaybeLaunch(s, pcm, p, env).value)
    ensures MaybeLaunch(s, pcm, p, env).Ok? ==> MaybeLaunch(s, pcm, p, env).value.captured == p.captured
  {
    var result := MaybeLaunch(s, pcm, p, env);
    if result.Ok? && result.value != p {
      WindowIsAligned(s, pcm, p.captured);
      AppendKeeps(s, pcm, p, Attempt(s.clock(|p.captured|), |p.captured|, Window(s, p.captured).value));
    }
  }

  lemma MillisecondsGrow(a: int, b: int)
    requires 0 <= a <= b
    ensures Milliseconds(a) <= Milliseconds(b)
  {
  }

  lemma CaptureKeeps(s: Settings, pcm: seq<byte>, p: Probe)
    requires Applicable(s, pcm) && AtHead(s, pcm, p) && p.offset < |pcm|
    ensures Consistent(s, pcm, Capture(s, pcm, p))
    ensures |Capture(s, pcm, p).captured|
        == (if p.offset + s.chunkBytes < |pcm| then p.offset + s.chunkBytes else |pcm|)
    ensures |Capture(s, pcm, p).captured| > |p.captured|
  {
    var end := if p.offset + s.chunkBytes < |pcm| then p.offset + s.chunkBytes else |pcm|;
    assert p.captured == pcm[..p.offset];
    assert pcm[..p.offset] + pcm[p.offset..end] == pcm[..end];
  }

  lemma MoveOn(s: Settings, pcm: seq<byte>, p: Probe, offset: nat, round: nat)
    requires Consistent(s, pcm, p) && offset % 2 == 0 && |p.captured| == (if offset < |pcm| then offset else |pcm|)
    ensures AtHead(s, pcm, p.(offset := offset, round := round))
  {
  }

  lemma PollKeeps(s: Settings, pcm: seq<byte>, p: Probe, env: Env)
    requires Applicable(s, pcm) && Consistent(s, pcm, p)
    ensures Consistent(s, pcm, Poll(p, env))
    ensures Poll(p, env).captured == p.captured && Poll(p, env).log == p.log && Poll(p, env).offset == p.offset
  {
    if p.active.Some? {
      CollectKeeps(s, pcm, p, env);
    }
  }

  lemma BodyKeeps(s: Settings, pcm: seq<byte>, p: Probe, env: Env)
    requires Applicable(s, pcm) && AtHead(s, pcm, p) && p.offset < |pcm|
    ensures var result := MaybeLaunch(s, pcm, Poll(Capture(s, pcm, p), env), env);
      result.Ok? ==>
        Consistent(s, pcm, result.value)
        && |result.value.captured| == (if p.offset + s.chunkBytes < |pcm| then p.offset + s.chunkBytes else |pcm|)
  {
    CaptureKeeps(s, pcm, p);
    var q := Capture(s, pcm, p);
    PollKeeps(s, pcm, q, env);
    var r := Poll(q, env);
    if r.active.None? {
      LaunchKeeps(s, pcm, r, env);
    }
  }

  /** A round that succeeds is its body and the move to the next chunk. */
  lemma RoundBody(s: Settings, pcm: seq<byte>, p: Probe, env: Env) returns (q: Probe)
    requires p.offset < |pcm| && Round(s, pcm, p, env).Ok?
    ensures MaybeLaunch(s, pcm, Poll(Capture(s, pcm, p), env), env) == Ok(q)
    ensures Round(s, pcm, p, env).value == q.(offset := p.offset + s.chunkBytes, round := p.round + 1)
  {
    q := MaybeLaunch(s, pcm, Poll(Capture(s, pcm, p), env), env).value;
  }

  /** Throughout the replay: the captured audio is a prefix of the PCM, at most one
      attempt is in flight, and every attempt is completed, cancelled, failed or active. */
  lemma RoundKeepsLedger(s: Settings, pcm: seq<byte>, p: Probe, env: Env)
    requires Applicable(s, pcm) && AtHead(s, pcm, p) && p.offset < |pcm|
    ensures Round(s, pcm, p, env).Ok? ==> AtHead(s, pcm, Round(s, pcm, p, env).value)
  {
    if Round(s, pcm, p, env).Ok? {
      var q := RoundBody(s, pcm, p, env);
      BodyKeeps(s, pcm, p, env);
      MoveOn(s, pcm, q, p.offset + s.chunkBytes, p.round + 1);
    }
  }

  lemma {:induction false} LoopKeepsLedger(s: Settings, pcm: seq<byte>, p: Probe, env: Env)
    requires Applicable(s, pcm) && AtHead(s, pcm, p)
    ensures Loop(s, pcm, p, env).Ok? ==>
              AtHead(s, pcm, Loop(s, pcm, p, env).value) && Loop(s, pcm, p, env).value.captured == pcm
    decreases |pcm| - p.offset
  {
    if p.offset < |pcm| {
      RoundKeepsLedger(s, pcm, p, env);
      var next := Round(s, pcm, p, env);
      if next.Ok? {
        LoopKeepsLedger(s, pcm, next.value, env);
      }
    }
  }

  /* ------------------------------------------------------------------ */
  /* What a successful run reports                                      */
  /* ------------------------------------------------------------------ */

  lemma PrepareIsApplicable(audio: Wav.Audio, c: Config)
    requires 0 < audio.rate && |audio.pcm| < Wav.U32 && Prepare(audio, c).Ok?
    ensures Applicable(Prepare(audio, c).value, audio.pcm)
        && AtHead(Prepare(audio, c).value, audio.pcm, InitialProbe(Prepare(audio, c).value))
    ensures Nanos(|audio.pcm|, audio.rate * 2) <= c.max
    ensures Prepare(audio, c).value.clock(|audio.pcm|) == Nanos(|audio.pcm|, audio.rate * 2)
  {
    var s := Prepare(audio, c).value;
    forall a: nat, b: nat | a <= b <= |audio.pcm| ensures 0 <= s.clock(a) <= s.clock(b) < INT64_LIMIT {
      NanosAreExact(a, b, audio.rate * 2);
    }
  }

  /** On success nothing is active: attempts are completed, cancelled or failed, the
      events are numbered 1..n with non-decreasing audio times, and every attempt had an
      aligned trailing window of the audio captured before its start. */
  lemma ReportIsBalanced(audio: Wav.Audio, c: Config, env: Env)
    requires 0 < audio.rate && |audio.pcm| < Wav.U32 && RunSpec(audio, c, env).Ok?
    ensures Prepare(audio, c).Ok?
    ensures var report, s := RunSpec(audio, c, env).value, Prepare(audio, c).value;
      && report.attempts == report.completed + report.cancelled + |report.errors| == |report.log|
      && report.completed == |report.partials|
      && (forall k | 0 <= k < |report.partials| :: EventAt(report.partials, k))
      && (forall j | 0 <= j < |report.log| :: LoggedAt(s, audio.pcm, report.log, j))
  {
    var s := Prepare(audio, c).value;
    PrepareIsApplicable(audio, c);
    LoopKeepsLedger(s, audio.pcm, InitialProbe(s), env);
    var p := Loop(s, audio.pcm, InitialProbe(s), env).value;
    if p.active.Some? {
      CollectKeeps(s, audio.pcm, p, env);
    }
  }

  /** The authoritative transcription hears the complete recording: the file written for
      it reads back as the audio that was replayed. */
  lemma FinalHearsEverything(audio: Wav.Audio, c: Config, env: Env)
    requires 0 < audio.rate < Wav.U32 && 0 < |audio.pcm| < Wav.U32 && RunSpec(audio, c, env).Ok?
    ensures Wav.Read(RunSpec(audio, c, env).value.finalFile) == Ok(audio)
  {
    var s := Prepare(audio, c).value;
    PrepareIsApplicable(audio, c);
    LoopKeepsLedger(s, audio.pcm, InitialProbe(s), env);
    var p := Loop(s, audio.pcm, InitialProbe(s), env).value;
    if p.active.Some? {
      CollectKeeps(s, audio.pcm, p, env);
    }
    Wav.RoundTrip(audio.rate, audio.pcm);
  }
}
