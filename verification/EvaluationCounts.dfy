/**
 What each number in the report of internal/evaluation/evaluation.go counts, said of the fixtures
 and the answers alone.
 */
module EvaluationCounts {
  import opened Prelude
  import opened Scoring
  import opened Percentile
  import opened Evaluation
  import LabelMatching

  /** The rules were not sure enough: below 0.8, unless another threshold is set. */
  function Unsure(setup: Setup): Trial -> bool {
    (t: Trial) => setup.hybrid && t.ruleConfidence < if setup.threshold == 0.0 then 0.8 else setup.threshold
  }

  /** And the model answered, instead of being unavailable. */
  function FellBack(setup: Setup): Trial -> bool {
    (t: Trial) => Unsure(setup)(t) && t.err.None? && "model fallback unavailable" !in t.plan.reasons
  }

  /** The error says that the output was invalid. */
  ghost predicate BlamesOutput(t: Trial) {
    t.err.Some? && exists front, back :: t.err.value == front + "invalid model output" + back
  }

  ghost function BlamingOutput(): Trial -> bool { (t: Trial) => BlamesOutput(t) }

  ghost function OtherError(): Trial -> bool { (t: Trial) => t.err.Some? && !BlamesOutput(t) }

  /** A plan whose expectations name serials. */
  function ExpectsTargets(): Trial -> bool { (t: Trial) => t.err.None? && t.expected.targetSerials.Some? }

  /** Each expected serial is addressed, as often as expected, and no other. */
  ghost function AddressesThem(lower: Lower): Trial -> bool {
    (t: Trial) => ExpectsTargets()(t) && HitsTargets(t, lower)
  }

  /** A plan whose expectations name an action. */
  function ExpectsAction(): Trial -> bool { (t: Trial) => t.err.None? && t.expected.action.Some? }

  /** Some command does it. */
  ghost function DoesIt(): Trial -> bool {
    (t: Trial) => ExpectsAction()(t) && SomeCommandAgrees(t)
  }

  ghost predicate SomeCommandAgrees(t: Trial)
    requires t.expected.action.Some?
  {
    exists c :: c in t.plan.commands && Agrees(c.action, t.expected.action.value)
  }

  lemma SameCount<T>(s: seq<T>, p: T -> bool, q: T -> bool)
    requires forall i | 0 <= i < |s| :: p(s[i]) == q(s[i])
    ensures Count(s, p) == Count(s, q)
  {
    CountMapped(s, s, p, q);
  }

  /** The share of `right` among `judged`; none if nothing is judged. */
  ghost predicate IsShare(value: Option<real>, right: nat, judged: nat) {
    if judged == 0 then value.None? else value.Some? && value.value * judged as real == right as real
  }

  lemma AccuracyIsShare(right: nat, judged: nat)
    ensures IsShare(Accuracy(right, judged), right, judged)
  {
  }

  lemma ActionJudgement(t: Trial, setup: Setup, lower: Lower)
    requires setup.score == ScoreWith(lower)
    ensures ActionRight(t, setup) == DoesIt()(t)
  {
    assert ExpectsAction()(t) == HasAction(t);
    assert DoesIt()(t) == (HasAction(t) && SomeCommandAgrees(t));
    if HasAction(t) {
      var plan, expected := t.plan, t.expected;
      assert FailuresOf(t, setup) == Score(plan, expected, lower);
      FailuresMeaning(WrongCount(plan, expected), WrongTargets(plan, expected, lower), WrongAction(plan, expected),
                      WrongConfirmation(plan, expected), Incautious(plan, expected));
      SomeCommandMatches(plan.commands, expected.action.value);
    }
  }

  lemma TargetJudgement(t: Trial, setup: Setup, lower: Lower)
    requires setup.score == ScoreWith(lower)
    ensures TargetsRight(t, setup) == AddressesThem(lower)(t)
  {
    assert ExpectsTargets()(t) == HasTargets(t);
    assert AddressesThem(lower)(t) == (HasTargets(t) && HitsTargets(t, lower));
    if HasTargets(t) {
      assert FailuresOf(t, setup) == Score(t.plan, t.expected, lower);
      TargetCheckComparesMultisets(t.plan, t.expected, lower);
    }
  }

  lemma InvalidMeaning(t: Trial)
    ensures IsInvalid(t) == BlamesOutput(t)
  {
    if t.err.Some? {
      var message := t.err.value;
      if i :| 0 <= i <= |message| && LabelMatching.StandsAt(INVALID, message, i) {
        assert message == message[..i] + "invalid model output" + message[i + |INVALID|..];
      }
      if front, back :| message == front + "invalid model output" + back {
        assert message[|front|..|front| + |INVALID|] == INVALID;
        assert LabelMatching.StandsAt(INVALID, message, |front|);
      }
    }
  }

  /** The fallback and error counts. */
  lemma FallbacksAndErrorsAreCounted(trials: seq<Trial>, setup: Setup)
    ensures var r := Summary(trials, setup);
      && r.fallbackEligible == Count(trials, Unsure(setup))
      && r.fallbackUsed == Count(trials, FellBack(setup))
      && r.invalidPlans == Count(trials, BlamingOutput())
      && r.runtimeErrors == Count(trials, OtherError())
  {
    forall t: Trial ensures IsInvalid(t) == BlamesOutput(t) { InvalidMeaning(t); }
    SameCount(trials, Eligible(setup), Unsure(setup));
    SameCount(trials, Used(setup), FellBack(setup));
    SameCount(trials, Invalid(), BlamingOutput());
    SameCount(trials, RuntimeError(), OtherError());
  }

  /** The accuracies are the shares of plans that address the expected serials, and that have a
      command for the expected action, among the plans judged by each. */
  lemma AccuraciesAreShares(trials: seq<Trial>, setup: Setup, lower: Lower)
    requires setup.score == ScoreWith(lower)
    ensures var r := Summary(trials, setup);
      && IsShare(r.targetAccuracy, Count(trials, AddressesThem(lower)), Count(trials, ExpectsTargets()))
      && IsShare(r.actionAccuracy, Count(trials, DoesIt()), Count(trials, ExpectsAction()))
  {
    forall i | 0 <= i < |trials|
      ensures TargetsRight(trials[i], setup) == AddressesThem(lower)(trials[i])
      ensures ActionRight(trials[i], setup) == DoesIt()(trials[i])
    {
      TargetJudgement(trials[i], setup, lower);
      ActionJudgement(trials[i], setup, lower);
    }
    SameCount(trials, TargetPassed(setup), AddressesThem(lower));
    SameCount(trials, TargetJudged(), ExpectsTargets());
    SameCount(trials, ActionPassed(setup), DoesIt());
    SameCount(trials, ActionJudged(), ExpectsAction());
    AccuracyIsShare(Count(trials, TargetPassed(setup)), Count(trials, TargetJudged()));
    AccuracyIsShare(Count(trials, ActionPassed(setup)), Count(trials, ActionJudged()));
  }
}
