/**
 What a replay of internal/streamprobe/probe.go reports about its attempts, and at which rounds
 it starts them: the report lists the outcomes of all attempts in order, and an attempt starts
 at the first round that finds the one before it over and its scheduled time reached.
 */
module ReplayOutcomes {
  import opened Prelude
  import opened ReplayProbe
  import opened ReplaySchedule
  import Wav

  /* ------------------------------------------------------------------ */
  /* Outcomes                                                           */
  /* ------------------------------------------------------------------ */

  /** How many of the first `n` attempts were cancelled. */
  function Cancellations(env: Env, n: nat): nat {
    if n == 0 then 0 else Cancellations(env, n - 1) + if env.outcome(n - 1).Canceled? then 1 else 0
  }

  /** The messages of the failed ones among the first `n` attempts. */
  function Messages(env: Env, n: nat): seq<string> {
    if n == 0 then []
    else Messages(env, n - 1) + if env.outcome(n - 1).Failed? then [env.outcome(n - 1).message] else []
  }

  /** The texts of the first `n` attempts, numbered from 1, with the audio time of their attempt. */
  function Texts(env: Env, log: seq<Attempt>, n: nat): (events: seq<Event>)
    requires n <= |log|
  {
    if n == 0 then []
    else
      var before := Texts(env, log, n - 1);
      if env.outcome(n - 1).Text? then
        before + [Event(|before| + 1, Milliseconds(log[n - 1].at), env.outcome(n - 1).text)]
      else before
  }

  lemma {:induction false} TextsOfPrefix(env: Env, log: seq<Attempt>, more: seq<Attempt>, n: nat)
    requires n <= |log| && log <= more
    ensures Texts(env, more, n) == Texts(env, log, n)
  {
    if n > 0 {
      TextsOfPrefix(env, log, more, n - 1);
    }
  }

  /** The attempts that are over. */
  function Over(p: Probe): nat {
    if p.active.Some? && p.log != [] then |p.log| - 1 else |p.log|
  }

  predicate Settled(p: Probe, env: Env) {
    && p.attempts == |p.log| && (p.active.Some? ==> p.log != [] && p.active.value == p.log[|p.log| - 1])
    && p.sequence == |p.partials| == p.completed
    && p.cancelled == Cancellations(env, Over(p)) && p.errors == Messages(env, Over(p))
    && p.partials == Texts(env, p.log, Over(p))
  }

  lemma CollectSettles(p: Probe, env: Env)
    requires Settled(p, env) && p.active.Some?
    ensures p.attempts > 0 && Settled(Collect(p, env), env)
  {
    var n := |p.log|;
    assert Cancellations(env, n) == Cancellations(env, n - 1) + if env.outcome(n - 1).Canceled? then 1 else 0;
  }

  lemma LaunchSettles(s: Settings, p: Probe, env: Env, a: Attempt)
    requires Settled(p, env) && p.active.None?
    ensures Settled(Launched(s, p, a), env)
  {
    TextsOfPrefix(env, p.log, p.log + [a], |p.log|);
  }

  lemma RoundSettles(s: Settings, pcm: seq<byte>, p: Probe, env: Env)
    requires Settled(p, env) && p.offset < |pcm| && Round(s, pcm, p, env).Ok?
    ensures Settled(Round(s, pcm, p, env).value, env)
  {
    var q := RoundBody(s, pcm, p, env);
    var captured := Capture(s, pcm, p);
    if captured.active.Some? {
      CollectSettles(captured, env);
    }
    var polled := Poll(captured, env);
    assert Settled(polled, env);
    if q != polled {
      var a := Attempt(s.clock(|polled.captured|), |polled.captured|, Window(s, polled.captured).value);
      LaunchSettles(s, polled, env, a);
    }
  }

  lemma {:induction false} LoopSettles(s: Settings, pcm: seq<byte>, p: Probe, env: Env)
    requires Settled(p, env) && s.chunkBytes > 0 && Loop(s, pcm, p, env).Ok?
    ensures Settled(Loop(s, pcm, p, env).value, env)
    decreases |pcm| - p.offset
  {
    if p.offset < |pcm| {
      RoundSettles(s, pcm, p, env);
      LoopSettles(s, pcm, Round(s, pcm, p, env).value, env);
    }
  }

  /** A successful run reports what happened to every attempt: how many were cancelled, the message
      of each failed one, the text and audio time of each completed one, both in the order of the
      attempts, and the text of the final transcription. */
  lemma OutcomesAreReported(audio: Wav.Audio, c: Config, env: Env)
    requires audio.rate > 0 && RunSpec(audio, c, env).Ok?
    ensures var report := RunSpec(audio, c, env).value;
      var n := |report.log|;
      && report.attempts == n
      && report.cancelled == Cancellations(env, n)
      && report.errors == Messages(env, n)
      && report.partials == Texts(env, report.log, n)
      && env.final == Some(report.final)
  {
    var s := Prepare(audio, c).value;
    var p := InitialProbe(s);
    assert Settled(p, env);
    LoopSettles(s, audio.pcm, p, env);
    var q := Loop(s, audio.pcm, p, env).value;
    if q.active.Some? {
      CollectSettles(q, env);
    }
  }

  /* ------------------------------------------------------------------ */
  /* When attempts start                                                */
  /* ------------------------------------------------------------------ */

  /** What has been captured at the end of round `r`, if the recording goes on. */
  function Boundary(s: Settings, r: nat): nat {
    (r + 1) * s.chunkBytes
  }

  /** The round that started an attempt. */
  function RoundOf(s: Settings, a: Attempt): int
    requires s.chunkBytes > 0
  {
    a.length / s.chunkBytes - 1
  }

  /** Round `r` can start the attempt after `a`: a later round up to `r` found `a` over, and the
      scheduled time is reached. */
  predicate CanFollow(s: Settings, env: Env, a: Attempt, r: nat)
    requires s.chunkBytes > 0
  {
    && (exists d: nat | RoundOf(s, a) < d <= r :: env.done(d))
    && s.clock(Boundary(s, r)) >= Wrap64(a.at + s.interval)
  }

  /** No round before `end` can. */
  ghost predicate NoneFollows(s: Settings, env: Env, a: Attempt, end: nat)
    requires s.chunkBytes > 0
  {
    forall r: nat | RoundOf(s, a) < r < end :: !CanFollow(s, env, a, r)
  }

  /** `b` starts in the first round that can start the attempt after `a`. */
  ghost predicate Follows(s: Settings, env: Env, a: Attempt, b: Attempt)
    requires s.chunkBytes > 0
  {
    && 0 <= RoundOf(s, a) < RoundOf(s, b) && b.length == Boundary(s, RoundOf(s, b))
    && CanFollow(s, env, a, RoundOf(s, b)) && NoneFollows(s, env, a, RoundOf(s, b))
  }

  /** The last attempt is still running before round `end` exactly if no round found it over. */
  ghost predicate Latest(s: Settings, env: Env, a: Attempt, running: bool, end: nat)
    requires s.chunkBytes > 0
  {
    && 0 <= RoundOf(s, a) < end && a.length == Boundary(s, RoundOf(s, a))
    && (running <==> forall d: nat | RoundOf(s, a) < d < end :: !env.done(d))
  }

  /** Before round `end`. */
  ghost predicate Paced(s: Settings, env: Env, p: Probe, end: nat)
    requires s.chunkBytes > 0
  {
    && p.attempts == |p.log| && (p.active.Some? ==> p.log != [])
    && (forall j | 0 < j < |p.log| :: Follows(s, env, p.log[j - 1], p.log[j]))
    && (p.log != [] ==>
          && Latest(s, env, p.log[|p.log| - 1], p.active.Some?, end)
          && p.nextPartialAt == Wrap64(p.log[|p.log| - 1].at + s.interval))
  }

  /** Nor while audio remains. */
  ghost predicate NoneFollowsIn(s: Settings, pcm: seq<byte>, env: Env, a: Attempt, end: nat)
    requires s.chunkBytes > 0
  {
    forall r: nat | RoundOf(s, a) < r < end && Boundary(s, r) < |pcm| :: !CanFollow(s, env, a, r)
  }

  /** At the head of the loop. */
  ghost predicate PacedAtHead(s: Settings, pcm: seq<byte>, env: Env, p: Probe)
    requires s.chunkBytes > 0
  {
    && Paced(s, env, p, p.round) && p.offset == p.round * s.chunkBytes
    && |p.captured| == (if p.offset < |pcm| then p.offset else |pcm|)
    && (p.log != [] ==> NoneFollowsIn(s, pcm, env, p.log[|p.log| - 1], p.round))
  }

  lemma MulGrows(d: nat, x: nat, y: nat)
    requires d > 0
    ensures x < y ==> d * x < d * y
  {
    assert d * y - d * x == d * (y - x);
  }

  lemma BoundaryRound(s: Settings, r: nat)
    requires s.chunkBytes > 0
    ensures Boundary(s, r) / s.chunkBytes == r + 1
  {
    MultipleHasNoRest(r + 1, s.chunkBytes);
    var q := Boundary(s, r) / s.chunkBytes;
    assert s.chunkBytes * q == s.chunkBytes * (r + 1);
    MulGrows(s.chunkBytes, q, r + 1);
    MulGrows(s.chunkBytes, r + 1, q);
  }

  /** Polling in round `r`. */
  lemma PollPaces(s: Settings, env: Env, p: Probe, r: nat)
    requires s.chunkBytes > 0 && Paced(s, env, p, r) && p.round == r
    ensures Paced(s, env, Poll(p, env), r + 1)
    ensures Poll(p, env).log == p.log && Poll(p, env).captured == p.captured && Poll(p, env).offset == p.offset
  {
    if p.log != [] {
      var a := p.log[|p.log| - 1];
      var after := Poll(p, env).active.Some?;
      if after {
        assert forall d: nat | RoundOf(s, a) < d < r + 1 :: !env.done(d);
      } else if p.active.Some? {
        assert RoundOf(s, a) < r < r + 1 && env.done(r);
      }
      assert Latest(s, env, a, after, r + 1);
    }
  }

  /** A launch in round `r`, after the poll. */
  lemma LaunchPaces(s: Settings, env: Env, p: Probe, r: nat, a: Attempt)
    requires s.chunkBytes > 0 && Paced(s, env, p, r + 1) && p.active.None? && a.length == Boundary(s, r)
    requires a.at == s.clock(a.length) && a.at >= p.nextPartialAt
    requires p.log != [] ==> RoundOf(s, p.log[|p.log| - 1]) < r && NoneFollows(s, env, p.log[|p.log| - 1], r)
    ensures Paced(s, env, Launched(s, p, a), r + 1)
  {
    BoundaryRound(s, r);
    var q := Launched(s, p, a);
    if p.log != [] {
      var last := p.log[|p.log| - 1];
      var d: nat :| RoundOf(s, last) < d < r + 1 && env.done(d);
      assert CanFollow(s, env, last, r);
      assert Follows(s, env, last, a);
    }
    forall j | 0 < j < |q.log| ensures Follows(s, env, q.log[j - 1], q.log[j]) {
      assert j < |p.log| ==> Follows(s, env, p.log[j - 1], p.log[j]);
    }
  }

  /** A round in which nothing starts cannot start the next attempt, unless the recording ends. */
  lemma NothingStarts(s: Settings, pcm: seq<byte>, env: Env, p: Probe, r: nat, a: Attempt)
    requires s.chunkBytes > 0 && Latest(s, env, a, p.active.Some?, r + 1) && NoneFollowsIn(s, pcm, env, a, r)
    requires p.nextPartialAt == Wrap64(a.at + s.interval)
    requires Boundary(s, r) < |pcm| ==>
      p.active.Some? || s.clock(Boundary(s, r)) < p.nextPartialAt
    ensures NoneFollowsIn(s, pcm, env, a, r + 1)
  {
    forall i: nat | RoundOf(s, a) < i < r + 1 && Boundary(s, i) < |pcm| ensures !CanFollow(s, env, a, i) {
    }
  }

  lemma EarlierRoundsCannot(s: Settings, pcm: seq<byte>, env: Env, a: Attempt, end: nat)
    requires s.chunkBytes > 0 && NoneFollowsIn(s, pcm, env, a, end) && Boundary(s, end) < |pcm|
    ensures NoneFollows(s, env, a, end)
  {
    forall r: nat | RoundOf(s, a) < r < end ensures !CanFollow(s, env, a, r) {
      MulIsMonotone(s.chunkBytes, r + 1, end + 1);
    }
  }

  /** After the loop no round is left inside the recording. */
  lemma NoRoundIsLeft(s: Settings, pcm: seq<byte>, env: Env, a: Attempt, end: nat)
    requires s.chunkBytes > 0 && NoneFollowsIn(s, pcm, env, a, end) && end * s.chunkBytes >= |pcm|
    ensures forall r: nat | RoundOf(s, a) < r && Boundary(s, r) < |pcm| :: !CanFollow(s, env, a, r)
  {
    forall r: nat | RoundOf(s, a) < r && Boundary(s, r) < |pcm| ensures !CanFollow(s, env, a, r) {
      if r >= end {
        MulIsMonotone(s.chunkBytes, end, r + 1);
      }
    }
  }

  /** The part of round `r` after the poll. */
  lemma DecisionPaces(s: Settings, pcm: seq<byte>, env: Env, p: Probe, r: nat, q: Probe)
    requires s.chunkBytes > 0 && Paced(s, env, p, r + 1) && p.offset == r * s.chunkBytes
    requires |p.captured| == (if p.offset + s.chunkBytes < |pcm| then p.offset + s.chunkBytes else |pcm|)
    requires p.log != [] ==>
      RoundOf(s, p.log[|p.log| - 1]) < r && NoneFollowsIn(s, pcm, env, p.log[|p.log| - 1], r)
    requires MaybeLaunch(s, pcm, p, env) == Ok(q)
    ensures Paced(s, env, q, r + 1) && q.captured == p.captured
    ensures q.log != [] ==> NoneFollowsIn(s, pcm, env, q.log[|q.log| - 1], r + 1)
  {
    assert Boundary(s, r) == p.offset + s.chunkBytes;
    if q != p {
      var a := Attempt(s.clock(|p.captured|), |p.captured|, Window(s, p.captured).value);
      assert q == Launched(s, p, a);
      BoundaryRound(s, r);
      if p.log != [] {
        EarlierRoundsCannot(s, pcm, env, p.log[|p.log| - 1], r);
      }
      LaunchPaces(s, env, p, r, a);
    } else if p.log != [] {
      NothingStarts(s, pcm, env, p, r, p.log[|p.log| - 1]);
    }
  }

  /** The part of a round before that. */
  lemma PollInRoundPaces(s: Settings, pcm: seq<byte>, env: Env, p: Probe, captured: Probe) returns (polled: Probe)
    requires s.chunkBytes > 0 && PacedAtHead(s, pcm, env, p) && p.offset < |pcm| && captured == Capture(s, pcm, p)
    ensures polled == Poll(captured, env) && Paced(s, env, polled, p.round + 1)
    ensures polled.offset == p.offset && polled.log == p.log
    ensures |polled.captured| == (if p.offset + s.chunkBytes < |pcm| then p.offset + s.chunkBytes else |pcm|)
  {
    assert Paced(s, env, captured, p.round);
    PollPaces(s, env, captured, p.round);
    polled := Poll(captured, env);
  }

  lemma MoveOnPaces(s: Settings, pcm: seq<byte>, env: Env, q: Probe, r: nat, offset: nat)
    requires s.chunkBytes > 0 && Paced(s, env, q, r + 1) && offset == r * s.chunkBytes
    requires q.log != [] ==> NoneFollowsIn(s, pcm, env, q.log[|q.log| - 1], r + 1)
    requires |q.captured| == (if offset + s.chunkBytes < |pcm| then offset + s.chunkBytes else |pcm|)
    ensures PacedAtHead(s, pcm, env, q.(offset := offset + s.chunkBytes, round := r + 1))
  {
    assert (r + 1) * s.chunkBytes == offset + s.chunkBytes;
  }

  lemma RoundPaces(s: Settings, pcm: seq<byte>, env: Env, p: Probe, next: Probe)
    requires s.chunkBytes > 0 && PacedAtHead(s, pcm, env, p) && p.offset < |pcm| && Round(s, pcm, p, env) == Ok(next)
    ensures PacedAtHead(s, pcm, env, next)
  {
    var q := RoundBody(s, pcm, p, env);
    BodyPaces(s, pcm, env, p, q);
    MoveOnPaces(s, pcm, env, q, p.round, p.offset);
  }

  lemma BodyPaces(s: Settings, pcm: seq<byte>, env: Env, p: Probe, q: Probe)
    requires s.chunkBytes > 0 && PacedAtHead(s, pcm, env, p) && p.offset < |pcm|
    requires MaybeLaunch(s, pcm, Poll(Capture(s, pcm, p), env), env) == Ok(q)
    ensures Paced(s, env, q, p.round + 1)
    ensures q.log != [] ==> NoneFollowsIn(s, pcm, env, q.log[|q.log| - 1], p.round + 1)
    ensures |q.captured| == (if p.offset + s.chunkBytes < |pcm| then p.offset + s.chunkBytes else |pcm|)
  {
    var polled := PollInRoundPaces(s, pcm, env, p, Capture(s, pcm, p));
    DecisionPaces(s, pcm, env, polled, p.round, q);
  }

  lemma {:induction false} LoopPaces(s: Settings, pcm: seq<byte>, env: Env, p: Probe)
    requires s.chunkBytes > 0 && PacedAtHead(s, pcm, env, p) && Loop(s, pcm, p, env).Ok?
    ensures PacedAtHead(s, pcm, env, Loop(s, pcm, p, env).value) && Loop(s, pcm, p, env).value.offset >= |pcm|
    decreases |pcm| - p.offset
  {
    if p.offset < |pcm| {
      RoundPaces(s, pcm, env, p, Round(s, pcm, p, env).value);
      LoopPaces(s, pcm, env, Round(s, pcm, p, env).value);
    }
  }

  /** The attempts of a loop that ran through. */
  ghost predicate WellPaced(s: Settings, pcm: seq<byte>, env: Env, log: seq<Attempt>)
    requires s.chunkBytes > 0
  {
    && (forall j | 0 < j < |log| :: Follows(s, env, log[j - 1], log[j]))
    && (log != [] ==> forall r: nat | RoundOf(s, log[|log| - 1]) < r && Boundary(s, r) < |pcm| ::
          !CanFollow(s, env, log[|log| - 1], r))
  }

  lemma LoopIsWellPaced(s: Settings, pcm: seq<byte>, env: Env)
    requires s.chunkBytes > 0 && Loop(s, pcm, InitialProbe(s), env).Ok?
    ensures WellPaced(s, pcm, env, Loop(s, pcm, InitialProbe(s), env).value.log)
  {
    LoopPaces(s, pcm, env, InitialProbe(s));
    var q := Loop(s, pcm, InitialProbe(s), env).value;
    if q.log != [] {
      NoRoundIsLeft(s, pcm, env, q.log[|q.log| - 1], q.round);
    }
  }

  /** In every successful run each attempt starts in the first round that can start it: the one
      before it was found over, its scheduled time is reached and audio remains. None is missing
      at the end. */
  lemma AttemptsStartWhenTheyCan(audio: Wav.Audio, c: Config, env: Env)
    requires audio.rate > 0 && RunSpec(audio, c, env).Ok?
    ensures Prepare(audio, c).Ok? && Prepare(audio, c).value.chunkBytes > 0
    ensures WellPaced(Prepare(audio, c).value, audio.pcm, env, RunSpec(audio, c, env).value.log)
  {
    LoopIsWellPaced(Prepare(audio, c).value, audio.pcm, env);
  }

  /* ------------------------------------------------------------------ */
  /* Refusals                                                           */
  /* ------------------------------------------------------------------ */

  lemma {:induction false} LoopErrors(s: Settings, pcm: seq<byte>, p: Probe, env: Env)
    requires s.chunkBytes > 0
    ensures Loop(s, pcm, p, env).Err? ==>
      Loop(s, pcm, p, env).error in {ContextDone, TempFileFailed, SliceOutOfRange}
    decreases |pcm| - p.offset
  {
    if p.offset < |pcm| && Round(s, pcm, p, env).Ok? {
      LoopErrors(s, pcm, Round(s, pcm, p, env).value, env);
    }
  }

  /** A recording is refused exactly for its format, for a duration above the limit, or for a chunk
      of less than one sample, in this order; a run that is not refused and succeeds had a final
      transcription. */
  lemma RunRefusesExactly(audio: Wav.Audio, c: Config, env: Env)
    requires audio.rate > 0
    ensures var result, mono16 := RunSpec(audio, c, env), audio.channels == 1 && audio.bits == 16;
      var fits := Nanos(|audio.pcm|, audio.rate * 2) <= c.max;
      var chunked := DurationBytes(c.chunk, audio.rate * 2) >= 2;
      && (result == Err(NotMono16) <==> !mono16)
      && (result == Err(TooLong) <==> mono16 && !fits)
      && (result == Err(ChunkTooSmall) <==> mono16 && fits && !chunked)
      && (result.Ok? ==> mono16 && fits && chunked && env.finalFile && env.final.Some?
                         && result.value.captureMS == Milliseconds(Nanos(|audio.pcm|, audio.rate * 2)))
  {
    if Prepare(audio, c).Ok? {
      LoopErrors(Prepare(audio, c).value, audio.pcm, InitialProbe(Prepare(audio, c).value), env);
    }
  }

  /** The settings of a run are those of its configuration: chunk and window are the byte counts of
      their durations without a half sample, and everything else is as configured. */
  lemma SettingsAreConfigured(audio: Wav.Audio, c: Config)
    requires audio.rate > 0 && Prepare(audio, c).Ok?
    ensures var s := Prepare(audio, c).value;
      && s.after == c.after && s.interval == c.interval
      && s.chunkBytes % 2 == 0 && DurationBytes(c.chunk, 2 * audio.rate) - s.chunkBytes in {0, 1}
      && s.windowBytes % 2 == 0 && DurationBytes(c.window, 2 * audio.rate) - s.windowBytes in {-1, 0, 1}
      && forall length: nat :: s.clock(length) == Nanos(length, 2 * audio.rate)
  {
  }
}
