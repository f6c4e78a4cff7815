/**
 When the replay loop of internal/streamprobe/probe.go starts its attempts. The first attempt
 is fixed by the recording and the configuration, whatever the environment does; it decides
 whether the window slice can be out of range and whether the interval between attempts is kept.
 */
module ReplaySchedule {
  import opened Prelude
  import opened ReplayProbe
  import Wav

  /* ------------------------------------------------------------------ */
  /* The first attempt                                                  */
  /* ------------------------------------------------------------------ */

  /** The first chunk boundary from `length` on that is due, or one past the recording. */
  function FirstDue(s: Settings, total: nat, length: nat): nat
    requires s.chunkBytes > 0
    decreases total - length
  {
    if length >= total || s.clock(length) >= s.after then length else FirstDue(s, total, length + s.chunkBytes)
  }

  /** The length of audio captured when the first attempt is due; no attempt is due if it is
      not below the length of the recording. */
  function Due(s: Settings, pcm: seq<byte>): nat
    requires s.chunkBytes > 0
  {
    FirstDue(s, |pcm|, s.chunkBytes)
  }

  /** It is the first chunk boundary inside the recording whose time has reached PartialAfter. */
  lemma {:induction false} FirstDueMeaning(s: Settings, total: nat, length: nat, k: nat)
    requires s.chunkBytes > 0 && length == k * s.chunkBytes
    ensures var due := FirstDue(s, total, length);
      && due >= length && due % s.chunkBytes == 0 && (due < total ==> s.clock(due) >= s.after)
      && forall i: nat | k <= i && i * s.chunkBytes < due && i * s.chunkBytes < total ::
          s.clock(i * s.chunkBytes) < s.after
    decreases total - length
  {
    if length >= total || s.clock(length) >= s.after {
      MultipleHasNoRest(k, s.chunkBytes);
      forall i: nat | k <= i
        ensures i * s.chunkBytes >= length
      {
        MulIsMonotone(s.chunkBytes, k, i);
      }
    } else {
      assert (k + 1) * s.chunkBytes == length + s.chunkBytes;
      FirstDueMeaning(s, total, length + s.chunkBytes, k + 1);
    }
  }

  lemma MultipleHasNoRest(k: nat, d: nat)
    requires d > 0
    ensures k * d % d == 0
  {
    var q, r := k * d / d, k * d % d;
    assert k * d == d * q + r;
    if q < k {
      MulIsMonotone(d, q + 1, k);
    } else if q > k {
      MulIsMonotone(d, k + 1, q);
    }
  }

  /** At the head of the loop before any attempt. */
  predicate Untried(s: Settings, pcm: seq<byte>, p: Probe) {
    && p.active.None? && p.log == [] && p.attempts == 0 && p.nextPartialAt == s.after
    && |p.captured| == (if p.offset < |pcm| then p.offset else |pcm|)
  }

  /** The state after the first attempt was launched. */
  predicate Tried(s: Settings, p: Probe, length: nat) {
    && |p.log| == p.attempts == 1 && p.log[0].length == length == |p.captured| == p.offset && p.active.Some?
    && p.nextPartialAt == Wrap64(s.clock(length) + s.interval)
  }

  /** One round before or at the first attempt. */
  lemma UntriedRound(s: Settings, pcm: seq<byte>, p: Probe, env: Env)
    requires Untried(s, pcm, p) && p.offset < |pcm| && s.chunkBytes > 0
    ensures var end, result := p.offset + s.chunkBytes, Round(s, pcm, p, env);
      if !env.waits(p.round) then result == Err(ContextDone)
      else if end >= |pcm| || s.clock(end) < s.after then
        result.Ok? && Untried(s, pcm, result.value) && result.value.offset == end
      else if s.windowBytes < 0 then result == Err(SliceOutOfRange)
      else if !env.tempFile(0) then result == Err(TempFileFailed)
      else result.Ok? && Tried(s, result.value, end)
  {
  }

  /** No later round drops an attempt from the log, and none but a negative window is out of range. */
  lemma {:induction false} LoopKeepsLog(s: Settings, pcm: seq<byte>, p: Probe, env: Env)
    requires s.chunkBytes > 0
    ensures Loop(s, pcm, p, env).Ok? ==> p.log <= Loop(s, pcm, p, env).value.log
    ensures s.windowBytes >= 0 ==> Loop(s, pcm, p, env) != Err(SliceOutOfRange)
    decreases |pcm| - p.offset
  {
    if p.offset < |pcm| {
      var next := Round(s, pcm, p, env);
      if next.Ok? {
        RoundKeepsLog(s, pcm, p, env);
        LoopKeepsLog(s, pcm, next.value, env);
      }
    }
  }

  lemma RoundKeepsLog(s: Settings, pcm: seq<byte>, p: Probe, env: Env)
    requires p.offset < |pcm| && Round(s, pcm, p, env).Ok?
    ensures p.log <= Round(s, pcm, p, env).value.log
  {
  }

  /** A loop that starts with its last chunk launches nothing. */
  lemma LastRound(s: Settings, pcm: seq<byte>, p: Probe, env: Env)
    requires s.chunkBytes > 0 && p.offset < |pcm| <= p.offset + s.chunkBytes && Loop(s, pcm, p, env).Ok?
    ensures Loop(s, pcm, p, env).value.log == p.log
  {
    var next := Round(s, pcm, p, env).value;
    assert next.log == p.log && next.offset >= |pcm|;
  }

  /** What the first due boundary says about a whole loop, in every environment. */
  ghost predicate FirstDecides(s: Settings, pcm: seq<byte>, due: nat, env: Env, result: Result<Probe, RunError>)
  {
    && (due >= |pcm| ==> result != Err(SliceOutOfRange) && (result.Ok? ==> result.value.log == []))
    && (due < |pcm| && s.windowBytes < 0 ==> result.Err?)
    && (due < |pcm| && s.windowBytes < 0 && (forall k: nat :: env.waits(k)) ==> result == Err(SliceOutOfRange))
    && (due < |pcm| && result.Ok? ==> result.value.log != [] && result.value.log[0].length == due)
    && (due < |pcm| <= due + s.chunkBytes && result.Ok? ==> |result.value.log| == 1)
  }

  lemma {:induction false} FirstAttempt(s: Settings, pcm: seq<byte>, p: Probe, env: Env)
    requires Untried(s, pcm, p) && s.chunkBytes > 0
    ensures FirstDecides(s, pcm, FirstDue(s, |pcm|, p.offset + s.chunkBytes), env, Loop(s, pcm, p, env))
    decreases |pcm| - p.offset
  {
    if p.offset < |pcm| {
      UntriedRound(s, pcm, p, env);
      var end, next := p.offset + s.chunkBytes, Round(s, pcm, p, env);
      if next.Ok? {
        if end >= |pcm| || s.clock(end) < s.after {
          FirstAttempt(s, pcm, next.value, env);
        } else {
          LoopKeepsLog(s, pcm, next.value, env);
          if end + s.chunkBytes >= |pcm| && Loop(s, pcm, next.value, env).Ok? {
            LastRound(s, pcm, next.value, env);
          }
        }
      }
    }
  }

  lemma FirstAttemptOfRun(audio: Wav.Audio, c: Config, env: Env)
    requires audio.rate > 0 && Prepare(audio, c).Ok? && |audio.pcm| < Wav.U32
    ensures Prepare(audio, c).value.chunkBytes > 0
    ensures var s := Prepare(audio, c).value;
      FirstDecides(s, audio.pcm, Due(s, audio.pcm), env, Loop(s, audio.pcm, InitialProbe(s), env))
  {
    PrepareIsApplicable(audio, c);
    var s := Prepare(audio, c).value;
    FirstAttempt(s, audio.pcm, InitialProbe(s), env);
  }

  /** The first attempt of every successful run hears exactly the audio up to the first due boundary. */
  lemma FirstAttemptIsFixed(audio: Wav.Audio, c: Config, env: Env)
    requires audio.rate > 0 && |audio.pcm| < Wav.U32 && RunSpec(audio, c, env).Ok?
    ensures Prepare(audio, c).Ok? && Prepare(audio, c).value.chunkBytes > 0
    ensures var log, due := RunSpec(audio, c, env).value.log, Due(Prepare(audio, c).value, audio.pcm);
      && (log != [] <==> due < |audio.pcm|)
      && (log != [] ==> log[0].length == due)
      && (|log| >= 2 ==> due + Prepare(audio, c).value.chunkBytes < |audio.pcm|)
  {
    FirstAttemptOfRun(audio, c, env);
  }

  /* ------------------------------------------------------------------ */
  /* The window slice                                                   */
  /* ------------------------------------------------------------------ */

  /** An environment in which nothing fails and every attempt is over by the next round. */
  const PATIENT: Env := Env((k: nat) => true, (k: nat) => true, (k: nat) => true, (k: nat) => Text(""), true, Some(""))

  /** Some run slices out of range exactly if the byte count of the window is negative, which
      takes an overflow, and a first attempt is due before the recording ends. */
  lemma SliceIsOutOfRangeExactly(audio: Wav.Audio, c: Config)
    requires audio.rate > 0 && |audio.pcm| < Wav.U32
    ensures (exists env :: RunSpec(audio, c, env) == Err(SliceOutOfRange))
       <==> && Prepare(audio, c).Ok?
            && Even(DurationBytes(c.window, audio.rate * 2)) < 0
            && Prepare(audio, c).value.chunkBytes > 0
            && Due(Prepare(audio, c).value, audio.pcm) < |audio.pcm|
  {
    if Prepare(audio, c).Ok? {
      var s := Prepare(audio, c).value;
      FirstAttemptOfRun(audio, c, PATIENT);
      forall env
        ensures RunSpec(audio, c, env) == Err(SliceOutOfRange) ==> s.windowBytes < 0 && Due(s, audio.pcm) < |audio.pcm|
      {
        FirstAttemptOfRun(audio, c, env);
        LoopKeepsLog(s, audio.pcm, InitialProbe(s), env);
      }
      if s.windowBytes < 0 && Due(s, audio.pcm) < |audio.pcm| {
        assert RunSpec(audio, c, PATIENT) == Err(SliceOutOfRange);
      }
    }
  }

  /** So no run does when the byte count of the window is not negative, and in particular when
      the product that gives it fits an int64. */
  lemma WindowsStayInRange(audio: Wav.Audio, c: Config, env: Env)
    requires audio.rate > 0 && |audio.pcm| < Wav.U32
    requires Even(DurationBytes(c.window, audio.rate * 2)) >= 0 || 0 <= c.window * (audio.rate * 2) < INT64_LIMIT
    ensures RunSpec(audio, c, env) != Err(SliceOutOfRange)
  {
    SliceIsOutOfRangeExactly(audio, c);
  }

  /** Two seconds at 16 kHz, replayed with a window of a hundred hours. */
  lemma HundredHourWindowPanics(pcm: seq<byte>)
    requires |pcm| == 64000
    ensures RunSpec(Wav.Audio(16000, 1, 16, pcm), Config(SECOND, SECOND, SECOND, 360000 * SECOND, 15 * SECOND), PATIENT)
         == Err(SliceOutOfRange)
  {
    var audio := Wav.Audio(16000, 1, 16, pcm);
    var c := Config(SECOND, SECOND, SECOND, 360000 * SECOND, 15 * SECOND);
    var s := Prepare(audio, c).value;
    assert s.chunkBytes == 32000 && s.clock(32000) == SECOND && s.windowBytes < 0;
    FirstAttemptOfRun(audio, c, PATIENT);
  }

  /* ------------------------------------------------------------------ */
  /* The interval between attempts                                      */
  /* ------------------------------------------------------------------ */

  /** Two consecutive attempts are a full interval apart if and only if the scheduled
      time fits an int64. */
  lemma IntervalIsKept(s: Settings, pcm: seq<byte>, earlier: Attempt, later: Attempt)
    requires Applicable(s, pcm) && AttemptOk(s, pcm, earlier) && AttemptOk(s, pcm, later)
    requires Scheduled(s, earlier, later) && 0 < s.interval < INT64_LIMIT
    ensures later.at >= earlier.at + s.interval <==> earlier.at + s.interval < INT64_LIMIT
  {
    assert 0 <= s.clock(earlier.length) <= s.clock(later.length) < INT64_LIMIT;
  }

  /** The j-th attempt starts no earlier than PartialAfter + j * PartialInterval. */
  lemma {:induction false} AttemptIsNotEarly(s: Settings, pcm: seq<byte>, log: seq<Attempt>, j: nat)
    requires Applicable(s, pcm) && j < |log| && 0 < s.interval
    requires forall i | 0 <= i < |log| :: LoggedAt(s, pcm, log, i)
    requires s.clock(|pcm|) + s.interval < INT64_LIMIT
    ensures s.after + j * s.interval <= log[j].at <= s.clock(|pcm|)
  {
    assert LoggedAt(s, pcm, log, j);
    assert 0 <= s.clock(log[j].length) <= s.clock(|pcm|);
    if j > 0 {
      AttemptIsNotEarly(s, pcm, log, j - 1);
      assert LoggedAt(s, pcm, log, j - 1);
      IntervalIsKept(s, pcm, log[j - 1], log[j]);
      assert j * s.interval == (j - 1) * s.interval + s.interval;
    }
  }

  /** A recording lasts less than 2^62 ns, so two of its times never overflow together. */
  lemma RecordingsAreShort(length: nat, bytesPerSecond: nat)
    requires length < Wav.U32 && bytesPerSecond >= 2
    ensures 0 <= Nanos(length, bytesPerSecond) < INT64_LIMIT / 2
  {
    NanosAreExact(length, length, bytesPerSecond);
    var n := length * SECOND;
    var d := n / bytesPerSecond;
    assert n == bytesPerSecond * d + n % bytesPerSecond;
    MulIsMonotone(d, 2, bytesPerSecond);
  }

  /** If the time scheduled after the first attempt fits an int64, so do all later ones,
      because the interval is then no longer than the recording. */
  lemma IntervalFits(s: Settings, pcm: seq<byte>, log: seq<Attempt>)
    requires Applicable(s, pcm) && s.clock(|pcm|) < INT64_LIMIT / 2 && 0 < s.interval < INT64_LIMIT
    requires |log| >= 2 && forall i | 0 <= i < |log| :: LoggedAt(s, pcm, log, i)
    ensures 0 <= log[0].at <= s.clock(|pcm|)
    ensures log[0].at + s.interval < INT64_LIMIT ==> s.clock(|pcm|) + s.interval < INT64_LIMIT
  {
    assert LoggedAt(s, pcm, log, 0) && LoggedAt(s, pcm, log, 1);
    assert 0 <= s.clock(log[0].length) <= s.clock(|pcm|) && 0 <= s.clock(log[1].length) <= s.clock(|pcm|);
    IntervalIsKept(s, pcm, log[0], log[1]);
  }

  lemma Overshoots(interval: nat, k: nat, limit: int)
    requires interval > limit && k >= 1
    ensures k * interval > limit
  {
    MulIsMonotone(interval, 1, k);
  }

  lemma LogFits(s: Settings, pcm: seq<byte>, log: seq<Attempt>)
    requires Applicable(s, pcm) && s.clock(|pcm|) < INT64_LIMIT / 2 && 0 <= s.after && 0 < s.interval < INT64_LIMIT
    requires forall i | 0 <= i < |log| :: LoggedAt(s, pcm, log, i)
    ensures |log| >= 1 ==>
      (s.after + (|log| - 1) * s.interval <= s.clock(|pcm|) <==> |log| == 1 || log[0].at + s.interval < INT64_LIMIT)
  {
    if |log| == 1 {
      assert LoggedAt(s, pcm, log, 0);
      assert s.clock(log[0].length) <= s.clock(|pcm|);
    } else if |log| >= 2 {
      IntervalFits(s, pcm, log);
      if log[0].at + s.interval < INT64_LIMIT {
        assert s.clock(|pcm|) + s.interval < INT64_LIMIT;
        AttemptIsNotEarly(s, pcm, log, |log| - 1);
      } else {
        Overshoots(s.interval, |log| - 1, s.clock(|pcm|));
      }
    }
  }

  /** With n attempts, PartialAfter + (n-1) * PartialInterval <= duration. */
  ghost predicate KeepsInterval(audio: Wav.Audio, c: Config, env: Env)
    requires audio.rate > 0
  {
    var result := RunSpec(audio, c, env);
    result.Ok? && result.value.attempts >= 1 ==>
      c.after + (result.value.attempts - 1) * c.interval <= Nanos(|audio.pcm|, audio.rate * 2)
  }

  /** Decidable before the run: the first attempt fails or is the last that can be started, or
      the time scheduled after it fits an int64. */
  predicate IntervalFitsFirst(s: Settings, pcm: seq<byte>)
    requires s.chunkBytes > 0
  {
    s.windowBytes < 0 || Due(s, pcm) + s.chunkBytes >= |pcm| || s.clock(Due(s, pcm)) + s.interval < INT64_LIMIT
  }

  lemma PreparedIsShort(audio: Wav.Audio, c: Config)
    requires 0 < audio.rate && |audio.pcm| < Wav.U32 && Prepare(audio, c).Ok?
    ensures var s := Prepare(audio, c).value;
      && Applicable(s, audio.pcm) && s.after == c.after && s.interval == c.interval
      && s.clock(|audio.pcm|) == Nanos(|audio.pcm|, audio.rate * 2) < INT64_LIMIT / 2
  {
    PrepareIsApplicable(audio, c);
    RecordingsAreShort(|audio.pcm|, audio.rate * 2);
  }

  lemma FittingIntervalIsKept(audio: Wav.Audio, c: Config, env: Env)
    requires 0 < audio.rate && |audio.pcm| < Wav.U32 && Prepare(audio, c).Ok? && Prepare(audio, c).value.chunkBytes > 0
    requires 0 < c.after && 0 < c.interval < INT64_LIMIT && IntervalFitsFirst(Prepare(audio, c).value, audio.pcm)
    ensures KeepsInterval(audio, c, env)
  {
    if RunSpec(audio, c, env).Ok? && RunSpec(audio, c, env).value.attempts >= 1 {
      var s, report := Prepare(audio, c).value, RunSpec(audio, c, env).value;
      ReportIsBalanced(audio, c, env);
      PreparedIsShort(audio, c);
      FirstAttemptIsFixed(audio, c, env);
      FirstAttemptOfRun(audio, c, env);
      LogFits(s, audio.pcm, report.log);
      assert LoggedAt(s, audio.pcm, report.log, 0);
    }
  }

  /** A round in which an attempt is due, none is in flight any more and audio remains. */
  lemma LaunchRound(s: Settings, pcm: seq<byte>, p: Probe, env: Env)
    requires |p.captured| == p.offset && 0 < s.chunkBytes && p.offset + s.chunkBytes < |pcm| && s.windowBytes >= 0
    requires env.waits(p.round) && env.tempFile(p.attempts)
    requires p.active.None? || (p.attempts > 0 && env.done(p.round))
    requires s.clock(p.offset + s.chunkBytes) >= p.nextPartialAt
    ensures Round(s, pcm, p, env).Ok? && |Round(s, pcm, p, env).value.log| == |p.log| + 1
  {
  }

  /** Nothing stops a patient run, and no attempt is dropped from its log. */
  lemma {:induction false} PatientFinishes(s: Settings, pcm: seq<byte>, p: Probe)
    requires s.chunkBytes > 0 && s.windowBytes >= 0
    ensures Loop(s, pcm, p, PATIENT).Ok? && p.log <= Loop(s, pcm, p, PATIENT).value.log
    decreases |pcm| - p.offset
  {
    if p.offset < |pcm| {
      var next := Round(s, pcm, p, PATIENT);
      RoundKeepsLog(s, pcm, p, PATIENT);
      PatientFinishes(s, pcm, next.value);
    }
  }

  /** When the scheduled time wraps around, the second attempt follows the first at once. */
  lemma {:induction false} SecondFollowsAtOnce(s: Settings, pcm: seq<byte>, p: Probe)
    requires Applicable(s, pcm) && s.clock(|pcm|) < INT64_LIMIT / 2 && 0 < s.interval < INT64_LIMIT
        && s.windowBytes >= 0
    requires Untried(s, pcm, p) && p.offset < |pcm|
    requires var due := FirstDue(s, |pcm|, p.offset + s.chunkBytes);
      due + s.chunkBytes < |pcm| && s.clock(due) + s.interval >= INT64_LIMIT
    ensures Loop(s, pcm, p, PATIENT).Ok? && |Loop(s, pcm, p, PATIENT).value.log| >= 2
    decreases |pcm| - p.offset
  {
    var end := p.offset + s.chunkBytes;
    UntriedRound(s, pcm, p, PATIENT);
    var next := Round(s, pcm, p, PATIENT).value;
    if end >= |pcm| || s.clock(end) < s.after {
      SecondFollowsAtOnce(s, pcm, next);
    } else {
      assert 0 <= s.clock(end) <= s.clock(|pcm|) && 0 <= s.clock(end + s.chunkBytes);
      assert next.nextPartialAt < 0;
      LaunchRound(s, pcm, next, PATIENT);
      PatientFinishes(s, pcm, Round(s, pcm, next, PATIENT).value);
    }
  }

  lemma WrappedRunHasTwo(audio: Wav.Audio, c: Config)
    requires 0 < audio.rate && |audio.pcm| < Wav.U32 && Prepare(audio, c).Ok? && Prepare(audio, c).value.chunkBytes > 0
    requires 0 < c.after && 0 < c.interval < INT64_LIMIT && !IntervalFitsFirst(Prepare(audio, c).value, audio.pcm)
    ensures RunSpec(audio, c, PATIENT).Ok? && |RunSpec(audio, c, PATIENT).value.log| >= 2
  {
    PreparedIsShort(audio, c);
    SecondFollowsAtOnce(Prepare(audio, c).value, audio.pcm, InitialProbe(Prepare(audio, c).value));
  }

  lemma WrappedIntervalIsLost(audio: Wav.Audio, c: Config)
    requires 0 < audio.rate && |audio.pcm| < Wav.U32 && Prepare(audio, c).Ok? && Prepare(audio, c).value.chunkBytes > 0
    requires 0 < c.after && 0 < c.interval < INT64_LIMIT && !IntervalFitsFirst(Prepare(audio, c).value, audio.pcm)
    ensures !KeepsInterval(audio, c, PATIENT)
  {
    var s := Prepare(audio, c).value;
    WrappedRunHasTwo(audio, c);
    var report := RunSpec(audio, c, PATIENT).value;
    PreparedIsShort(audio, c);
    ReportIsBalanced(audio, c, PATIENT);
    FirstAttemptIsFixed(audio, c, PATIENT);
    assert LoggedAt(s, audio.pcm, report.log, 0);
    LogFits(s, audio.pcm, report.log);
  }

  /** Every run keeps PartialAfter + (n-1) * PartialInterval <= duration <= MaxUtterance exactly
      if the time scheduled after the first due boundary fits an int64, no boundary follows it,
      or no attempt can be made. All of it is known before the run. */
  lemma AttemptsFitTheRecording(audio: Wav.Audio, c: Config)
    requires 0 < audio.rate && |audio.pcm| < Wav.U32 && 0 < c.after && 0 < c.interval < INT64_LIMIT
    ensures Prepare(audio, c).Ok? ==>
        Nanos(|audio.pcm|, audio.rate * 2) <= c.max && Prepare(audio, c).value.chunkBytes > 0
    ensures (forall env :: KeepsInterval(audio, c, env))
       <==> (Prepare(audio, c).Ok? ==> IntervalFitsFirst(Prepare(audio, c).value, audio.pcm))
  {
    if Prepare(audio, c).Ok? {
      PrepareIsApplicable(audio, c);
      if IntervalFitsFirst(Prepare(audio, c).value, audio.pcm) {
        forall env
          ensures KeepsInterval(audio, c, env)
        {
          FittingIntervalIsKept(audio, c, env);
        }
      } else {
        WrappedIntervalIsLost(audio, c);
      }
    }
  }

  /** In particular every interval up to 2^62 ns, some 146 years, is kept. */
  lemma UsualIntervalsAreKept(audio: Wav.Audio, c: Config, env: Env)
    requires 0 < audio.rate && |audio.pcm| < Wav.U32 && 0 < c.after && 0 < c.interval <= INT64_LIMIT / 2
    ensures KeepsInterval(audio, c, env)
  {
    if Prepare(audio, c).Ok? {
      var s := Prepare(audio, c).value;
      PreparedIsShort(audio, c);
      if Due(s, audio.pcm) < |audio.pcm| {
        assert s.clock(Due(s, audio.pcm)) <= s.clock(|audio.pcm|);
      }
      FittingIntervalIsKept(audio, c, env);
    }
  }

  /** Three seconds at 1 Hz with the largest interval: the second attempt follows at once. */
  lemma HugeIntervalIsIgnored(pcm: seq<byte>)
    requires |pcm| == 6
    ensures !KeepsInterval(Wav.Audio(1, 1, 16, pcm), Config(SECOND, SECOND, INT64_LIMIT - 1, 4 * SECOND, 15 * SECOND),
        PATIENT)
  {
    var audio := Wav.Audio(1, 1, 16, pcm);
    var c := Config(SECOND, SECOND, INT64_LIMIT - 1, 4 * SECOND, 15 * SECOND);
    var s := Prepare(audio, c).value;
    assert s.chunkBytes == 2 && s.windowBytes == 8 && s.clock(2) == SECOND;
    assert Due(s, pcm) == 2;
    WrappedIntervalIsLost(audio, c);
  }
}
