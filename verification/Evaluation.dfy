/**
 The report over all fixtures: `Evaluator.Run` of internal/evaluation/evaluation.go.
 */
module Evaluation {
  import opened Prelude
  import opened Scoring
  import opened Percentile
  import LabelMatching

  /** One fixture with what happened to it: the rules' confidence, the subject's answer and the time it took. */
  datatype Trial = Trial(name: string, expected: Expected, ruleConfidence: real, plan: Plan, err: Option<string>,
      latency: real)

  /** Counting does not depend on what scoring means, so the scorer is a value. */
  type Scorer = (Plan, Expected) -> seq<Failure>

  function ScoreWith(lower: Lower): Scorer { (plan, expected) => Score(plan, expected, lower) }

  /** `hybrid` is "mode hybrid and rules given". */
  datatype Setup = Setup(hybrid: bool, threshold: real, score: Scorer)

  datatype CaseResult = CaseResult(
    name: string, passed: bool, latency: real, failures: seq<Failure>, error: string, eligible: bool, used: bool)

  datatype Report = Report(
    total: nat, passed: nat, failed: nat, targetAccuracy: Option<real>, actionAccuracy: Option<real>,
    invalidPlans: nat, runtimeErrors: nat, fallbackEligible: nat, fallbackUsed: nat, p95: real, cases: seq<CaseResult>)

  const INVALID := "invalid model output"
  const UNAVAILABLE := "model fallback unavailable"

  /* ------------------------------------------------------------------ */
  /* What one trial counts as                                           */
  /* ------------------------------------------------------------------ */

  function Threshold(setup: Setup): real { if setup.threshold == 0.0 then 0.8 else setup.threshold }

  predicate IsEligible(t: Trial, setup: Setup) { setup.hybrid && t.ruleConfidence < Threshold(setup) }

  predicate IsUsed(t: Trial, setup: Setup) { IsEligible(t, setup) && t.err.None? && UNAVAILABLE !in t.plan.reasons }

  predicate SaysInvalid(message: string) { LabelMatching.Occurs(INVALID, message) }

  predicate IsInvalid(t: Trial) { t.err.Some? && SaysInvalid(t.err.value) }

  predicate IsRuntimeError(t: Trial) { t.err.Some? && !SaysInvalid(t.err.value) }

  function FailuresOf(t: Trial, setup: Setup): seq<Failure> {
    if t.err.Some? then [] else setup.score(t.plan, t.expected)
  }

  function ErrorOf(t: Trial): string { if t.err.Some? then t.err.value else "" }

  /** A case passes without failures and without an error message. */
  predicate IsPassed(t: Trial, setup: Setup) { ErrorOf(t) == "" && FailuresOf(t, setup) == [] }

  predicate HasTargets(t: Trial) { t.err.None? && t.expected.targetSerials.Some? }

  predicate HasAction(t: Trial) { t.err.None? && t.expected.action.Some? }

  predicate TargetsRight(t: Trial, setup: Setup) { HasTargets(t) && Targets !in FailuresOf(t, setup) }

  predicate ActionRight(t: Trial, setup: Setup) { HasAction(t) && ActionDiffers !in FailuresOf(t, setup) }

  function Failing(): Trial -> bool { (t: Trial) => t.err.Some? }

  function Invalid(): Trial -> bool { (t: Trial) => IsInvalid(t) }

  function RuntimeError(): Trial -> bool { (t: Trial) => IsRuntimeError(t) }

  function Eligible(setup: Setup): Trial -> bool { (t: Trial) => IsEligible(t, setup) }

  function Used(setup: Setup): Trial -> bool { (t: Trial) => IsUsed(t, setup) }

  function Passed(setup: Setup): Trial -> bool { (t: Trial) => IsPassed(t, setup) }

  function Failed(setup: Setup): Trial -> bool { (t: Trial) => !IsPassed(t, setup) }

  function TargetJudged(): Trial -> bool { (t: Trial) => HasTargets(t) }

  function TargetPassed(setup: Setup): Trial -> bool { (t: Trial) => TargetsRight(t, setup) }

  function ActionJudged(): Trial -> bool { (t: Trial) => HasAction(t) }

  function ActionPassed(setup: Setup): Trial -> bool { (t: Trial) => ActionRight(t, setup) }

  function CaseOf(t: Trial, setup: Setup): CaseResult {
    CaseResult(t.name, IsPassed(t, setup), t.latency, FailuresOf(t, setup), ErrorOf(t), IsEligible(t, setup),
        IsUsed(t, setup))
  }

  function Cases(trials: seq<Trial>, setup: Setup): (r: seq<CaseResult>)
    ensures |r| == |trials| && forall i | 0 <= i < |r| :: r[i] == CaseOf(trials[i], setup)
  {
    seq(|trials|, i requires 0 <= i < |trials| => CaseOf(trials[i], setup))
  }

  function Durations(trials: seq<Trial>): (r: seq<real>)
    ensures |r| == |trials| && forall i | 0 <= i < |r| :: r[i] == trials[i].latency
  {
    seq(|trials|, i requires 0 <= i < |trials| => trials[i].latency)
  }

  function Accuracy(right: nat, judged: nat): Option<real> {
    if judged > 0 then Some(right as real / judged as real) else None
  }

  /** The report: every number counts trials. */
  function Summary(trials: seq<Trial>, setup: Setup): Report {
    var tally := Tallied(trials, setup);
    Report(|trials|, tally.passed, tally.failed,
           Accuracy(tally.targetPassed, tally.targetTotal), Accuracy(tally.actionPassed, tally.actionTotal),
           tally.invalid, tally.runtime, tally.eligible, tally.used,
           PercentileOf(Durations(trials)), Cases(trials, setup))
  }

  /* ------------------------------------------------------------------ */
  /* The loop                                                           */
  /* ------------------------------------------------------------------ */

  /** The counters of the loop in `Evaluator.Run`. */
  datatype Tally = Tally(
    passed: nat, failed: nat, invalid: nat, runtime: nat, eligible: nat, used: nat,
    targetPassed: nat, targetTotal: nat, actionPassed: nat, actionTotal: nat)

  function Tallied(trials: seq<Trial>, setup: Setup): Tally {
    Tally(Count(trials, Passed(setup)), Count(trials, Failed(setup)),
          Count(trials, Invalid()), Count(trials, RuntimeError()),
          Count(trials, Eligible(setup)), Count(trials, Used(setup)),
          Count(trials, TargetPassed(setup)), Count(trials, TargetJudged()),
          Count(trials, ActionPassed(setup)), Count(trials, ActionJudged()))
  }

  function One(b: bool): nat { if b then 1 else 0 }

  function CountedEligible(tally: Tally, t: Trial, setup: Setup): Tally {
    tally.(eligible := tally.eligible + One(IsEligible(t, setup)))
  }

  function CountedError(tally: Tally, t: Trial): Tally {
    tally.(invalid := tally.invalid + One(IsInvalid(t)), runtime := tally.runtime + One(IsRuntimeError(t)))
  }

  function CountedPlan(tally: Tally, t: Trial, setup: Setup): Tally {
    tally.(used := tally.used + One(IsUsed(t, setup)),
           targetPassed := tally.targetPassed + One(TargetsRight(t, setup)),
           targetTotal := tally.targetTotal + One(HasTargets(t)),
           actionPassed := tally.actionPassed + One(ActionRight(t, setup)),
           actionTotal := tally.actionTotal + One(HasAction(t)))
  }

  function CountedResult(tally: Tally, passed: bool): Tally {
    tally.(passed := tally.passed + One(passed), failed := tally.failed + One(!passed))
  }

  /** The counters after one more trial. */
  function Next(tally: Tally, t: Trial, setup: Setup): Tally {
    CountedResult(CountedPlan(CountedError(CountedEligible(tally, t, setup), t), t, setup), IsPassed(t, setup))
  }

  lemma TalliedStep(trials: seq<Trial>, setup: Setup)
    requires trials != []
    ensures Tallied(trials, setup) == Next(Tallied(trials[..|trials| - 1], setup), trials[|trials| - 1], setup)
  {
  }

  method Judge(t: Trial, lower: Lower, ghost setup: Setup) returns (failures: seq<Failure>)
    requires t.err.None? && setup.score == ScoreWith(lower)
    ensures failures == FailuresOf(t, setup)
  {
    failures := ScorePlan(t.plan, t.expected, lower);
  }

  /** The counters of a plan that was scored. */
  method CountScores(t: Trial, failures: seq<Failure>, tally: Tally) returns (r: Tally)
    ensures r == tally.(
      targetPassed := tally.targetPassed + One(t.expected.targetSerials.Some? && Targets !in failures),
      targetTotal := tally.targetTotal + One(t.expected.targetSerials.Some?),
      actionPassed := tally.actionPassed + One(t.expected.action.Some? && ActionDiffers !in failures),
      actionTotal := tally.actionTotal + One(t.expected.action.Some?))
  {
    r := tally;
    if t.expected.targetSerials.Some? {
      r := r.(targetTotal := r.targetTotal + 1);
      if Targets !in failures {
        r := r.(targetPassed := r.targetPassed + 1);
      }
    }
    if t.expected.action.Some? {
      r := r.(actionTotal := r.actionTotal + 1);
      if ActionDiffers !in failures {
        r := r.(actionPassed := r.actionPassed + 1);
      }
    }
  }

  /** The counters of a failed call. */
  method CountError(t: Trial, tally: Tally) returns (r: Tally)
    requires t.err.Some?
    ensures r == CountedError(tally, t)
  {
    r := tally;
    if SaysInvalid(t.err.value) {
      r := r.(invalid := r.invalid + 1);
    } else {
      r := r.(runtime := r.runtime + 1);
    }
  }

  method CountEligible(t: Trial, setup: Setup, tally: Tally) returns (eligible: bool, r: Tally)
    ensures eligible == IsEligible(t, setup) && r == CountedEligible(tally, t, setup)
  {
    eligible, r := false, tally;
    if setup.hybrid {
      eligible := t.ruleConfidence < Threshold(setup);
      if eligible {
        r := r.(eligible := r.eligible + 1);
      }
    }
  }

  method CountUsed(t: Trial, eligible: bool, setup: Setup, tally: Tally) returns (used: bool, r: Tally)
    requires t.err.None? && eligible == IsEligible(t, setup)
    ensures used == IsUsed(t, setup) && r == tally.(used := tally.used + One(used))
  {
    used, r := false, tally;
    if eligible && UNAVAILABLE !in t.plan.reasons {
      used := true;
      r := r.(used := r.used + 1);
    }
  }

  /** The counters of a call that returned a plan. */
  method CountPlan(t: Trial, eligible: bool, setup: Setup, lower: Lower, tally: Tally)
    returns (failures: seq<Failure>, used: bool, r: Tally)
    requires t.err.None? && setup.score == ScoreWith(lower) && eligible == IsEligible(t, setup)
    ensures failures == FailuresOf(t, setup) && used == IsUsed(t, setup)
    ensures r == CountedPlan(tally, t, setup)
  {
    used, r := CountUsed(t, eligible, setup, tally);
    failures := Judge(t, lower, setup);
    r := CountScores(t, failures, r);
  }

  method CountResult(passed: bool, tally: Tally) returns (r: Tally)
    ensures r == CountedResult(tally, passed)
  {
    r := tally;
    if passed {
      r := r.(passed := r.passed + 1);
    } else {
      r := r.(failed := r.failed + 1);
    }
  }

  /** A failed call has no plan to count, and a plan no error. */
  lemma EitherErrorOrPlan(t: Trial, setup: Setup, tally: Tally)
    ensures t.err.Some? ==> CountedPlan(tally, t, setup) == tally && !IsUsed(t, setup) && FailuresOf(t, setup) == []
    ensures t.err.None? ==> CountedError(tally, t) == tally && ErrorOf(t) == ""
  {
  }

  /** One pass through the loop. */
  method Evaluate(t: Trial, setup: Setup, lower: Lower, tally: Tally) returns (result: CaseResult, r: Tally)
    requires setup.score == ScoreWith(lower)
    ensures result == CaseOf(t, setup) && r == Next(tally, t, setup)
  {
    var eligible, used, error, failures := false, false, "", [];
    eligible, r := CountEligible(t, setup, tally);
    EitherErrorOrPlan(t, setup, r);
    EitherErrorOrPlan(t, setup, CountedError(r, t));
    if t.err.Some? {
      error := t.err.value;
      r := CountError(t, r);
    } else {
      failures, used, r := CountPlan(t, eligible, setup, lower, r);
    }
    var passed := error == "" && failures == [];
    r := CountResult(passed, r);
    result := CaseResult(t.name, passed, t.latency, failures, error, eligible, used);
  }

  method Run(fixtures: seq<Trial>, setup: Setup, lower: Lower) returns (report: Report)
    requires setup.score == ScoreWith(lower)
    ensures report == Summary(fixtures, setup)
  {
    var tally := Tally(0, 0, 0, 0, 0, 0, 0, 0, 0, 0);
    var cases: seq<CaseResult> := [];
    var durations: seq<real> := [];
    for i := 0 to |fixtures|
      invariant tally == Tallied(fixtures[..i], setup)
      invariant cases == Cases(fixtures[..i], setup)
      invariant durations == Durations(fixtures[..i])
    {
      var result;
      result, tally := Evaluate(fixtures[i], setup, lower, tally);
      Extend(fixtures, i, setup);
      durations := durations + [result.latency];
      cases := cases + [result];
    }
    assert fixtures[..|fixtures|] == fixtures;
    report := Report(|fixtures|, tally.passed, tally.failed,
                     Accuracy(tally.targetPassed, tally.targetTotal), Accuracy(tally.actionPassed, tally.actionTotal),
                     tally.invalid, tally.runtime, tally.eligible, tally.used, PercentileOf(durations), cases);
  }

  lemma Extend(trials: seq<Trial>, i: nat, setup: Setup)
    requires i < |trials|
    ensures Tallied(trials[..i + 1], setup) == Next(Tallied(trials[..i], setup), trials[i], setup)
    ensures Cases(trials[..i + 1], setup) == Cases(trials[..i], setup) + [CaseOf(trials[i], setup)]
    ensures Durations(trials[..i + 1]) == Durations(trials[..i]) + [trials[i].latency]
  {
    var done := trials[..i + 1];
    assert done[..|done| - 1] == trials[..i];
    TalliedStep(done, setup);
  }

  /* ------------------------------------------------------------------ */
  /* The report as a whole                                              */
  /* ------------------------------------------------------------------ */

  /** The books balance: every case is counted once, as passed or failed, and every failing call once, by its kind. */
  lemma ReportBalances(trials: seq<Trial>, setup: Setup)
    ensures var r := Summary(trials, setup);
            && r.passed + r.failed == r.total == |r.cases| == |trials|
            && r.invalidPlans + r.runtimeErrors == Count(trials, Failing())
            && r.fallbackUsed <= r.fallbackEligible <= r.total
            && (!setup.hybrid ==> r.fallbackEligible == 0)
  {
    var all := (t: Trial) => true;
    CountSplits(trials, Passed(setup), Failed(setup), all);
    CountAll(trials, all);
    CountSplits(trials, Invalid(), RuntimeError(), Failing());
    CountLess(trials, Used(setup), Eligible(setup));
    if !setup.hybrid {
      NoneCounted(trials, Eligible(setup));
    }
  }

  /** The counters agree with the case list. */
  lemma CountersMatchCases(trials: seq<Trial>, setup: Setup)
    ensures var r := Summary(trials, setup);
            && r.passed == Count(r.cases, (c: CaseResult) => c.passed)
            && r.fallbackEligible == Count(r.cases, (c: CaseResult) => c.eligible)
            && r.fallbackUsed == Count(r.cases, (c: CaseResult) => c.used)
  {
    CountMapped(trials, Cases(trials, setup), Passed(setup), (c: CaseResult) => c.passed);
    CountMapped(trials, Cases(trials, setup), Eligible(setup), (c: CaseResult) => c.eligible);
    CountMapped(trials, Cases(trials, setup), Used(setup), (c: CaseResult) => c.used);
  }

  /**
   A case passes exactly when the call succeeded and the plan meets the expectations, or the call
   failed with an empty message, which the report takes for no error.
   */
  lemma PassedMeaning(trials: seq<Trial>, setup: Setup, lower: Lower, i: nat)
    requires i < |trials| && setup.score == ScoreWith(lower)
    ensures Summary(trials, setup).cases[i].passed
       <==> if trials[i].err.None? then Meets(trials[i].plan, trials[i].expected, lower) else trials[i].err.value == ""
  {
    NoFailuresMeansMet(trials[i].plan, trials[i].expected, lower);
  }

  /** A single failing call without a message: one runtime error, and nothing failed. */
  lemma EmptyErrorPasses(setup: Setup)
    ensures var plan := Plan([], 0.0, false, [], false);
      var trial := Trial("silent", Expected(Some(["d073d5000001"]), None, None, false, None), 0.0, plan, Some(""), 1.0);
      var report := Summary([trial], setup);
      report.runtimeErrors == 1 && report.passed == 1 && report.failed == 0 && report.cases[0].passed
  {
    var plan := Plan([], 0.0, false, [], false);
    var trial := Trial("silent", Expected(Some(["d073d5000001"]), None, None, false, None), 0.0, plan, Some(""), 1.0);
    assert [trial][..0] == [];
    assert IsPassed(trial, setup);
    assert !SaysInvalid("") by {
      assert |INVALID| > 0;
    }
  }

  /** So failing calls are reported as failed cases exactly when every error has a message. */
  lemma ErrorsFailTheirCases(trials: seq<Trial>, setup: Setup)
    ensures (forall i | 0 <= i < |trials| && trials[i].err.Some? :: !Summary(trials, setup).cases[i].passed)
       <==> (forall i | 0 <= i < |trials| && trials[i].err.Some? :: trials[i].err.value != "")
  {
    forall i | 0 <= i < |trials| && trials[i].err.Some?
      ensures Summary(trials, setup).cases[i].passed <==> trials[i].err.value == ""
    {
    }
  }

  /** The target accuracy is a fraction of the judged plans, and 1 exactly when all have the expected serials. */
  lemma TargetAccuracyMeaning(trials: seq<Trial>, setup: Setup, lower: Lower)
    requires setup.score == ScoreWith(lower)
    requires exists i :: 0 <= i < |trials| && HasTargets(trials[i])
    ensures var a := Summary(trials, setup).targetAccuracy;
            && a.Some? && 0.0 <= a.value <= 1.0
            && (a.value == 1.0
                <==> forall i | 0 <= i < |trials| && HasTargets(trials[i]) :: HitsTargets(trials[i], lower))
  {
    var i :| 0 <= i < |trials| && HasTargets(trials[i]);
    SomeCounted(trials, TargetJudged(), i);
    CountLess(trials, TargetPassed(setup), TargetJudged());
    CountEqual(trials, TargetPassed(setup), TargetJudged());
    Fraction(Count(trials, TargetPassed(setup)), Count(trials, TargetJudged()));
    forall k | 0 <= k < |trials| && HasTargets(trials[k])
      ensures TargetPassed(setup)(trials[k]) <==> HitsTargets(trials[k], lower)
    {
      TargetCheckComparesMultisets(trials[k].plan, trials[k].expected, lower);
    }
  }

  /** The plan addresses exactly the expected serials, each as often. */
  ghost predicate HitsTargets(t: Trial, lower: Lower)
    requires t.expected.targetSerials.Some?
  {
    multiset(TargetSerials(t.plan.commands, lower)) == multiset(t.expected.targetSerials.value)
  }

  lemma Fraction(right: nat, judged: nat)
    requires right <= judged && judged > 0
    ensures 0.0 <= right as real / judged as real <= 1.0
    ensures right as real / judged as real == 1.0 <==> right == judged
  {
    Quotient(right as real, judged as real);
  }

  lemma Quotient(x: real, y: real)
    requires 0.0 <= x <= y && y > 0.0
    ensures 0.0 <= x / y <= 1.0 && (x / y == 1.0 <==> x == y)
  {
    var q := x / y;
    assert x == q * y;
    Scaled(q, y);
  }

  /** Scaling by a positive number keeps the order around 0 and 1. */
  lemma Scaled(q: real, y: real)
    requires y > 0.0
    ensures (q < 0.0 <==> q * y < 0.0) && (q > 1.0 <==> q * y > y) && (q == 1.0 <==> q * y == y)
  {
    assert q * y - y == (q - 1.0) * y;
  }
}
