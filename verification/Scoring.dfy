/**
 Scoring one plan against the expectations of a fixture: `score` of
 internal/evaluation/evaluation.go.
 */
module Scoring {
  import opened Prelude
  import opened Sorting
  import PlanRewrite

  type Action = PlanRewrite.Action
  type Lower = PlanRewrite.Lower

  datatype Plan = Plan(
    commands: seq<PlanRewrite.Command>, confidence: real, high: bool, reasons: seq<string>, needsConfirmation: bool)

  /** A nil slice or pointer in the fixture is None: nothing is expected of that part. */
  datatype Expected = Expected(
    targetSerials: Option<seq<string>>, commandCount: Option<int>, action: Option<Action>,
    ambiguous: bool, requiresConfirmation: Option<bool>)

  /** Which expectation failed; the formatted message starts with the kind. */
  datatype Failure = CommandCount | Targets | ActionDiffers | Confirmation | Ambiguity

  function Close(a: Option<real>, b: Option<real>): bool {
    match (a, b)
    case (None, None) => true
    case (Some(x), Some(y)) => -0.01 <= x - y <= 0.01
    case _ => false
  }

  predicate ActionMatches(got: Action, want: Action) {
    && got.power == want.power && Close(got.hue, want.hue) && Close(got.saturation, want.saturation)
    && Close(got.brightness, want.brightness) && got.kelvin == want.kelvin && got.durationMS == want.durationMS
  }

  function SerialsOf(lower: Lower): PlanRewrite.Command -> seq<string> {
    (c: PlanRewrite.Command) => FlatMap(c.targets, SerialOf(lower))
  }

  function SerialOf(lower: Lower): PlanRewrite.Target -> seq<string> {
    (t: PlanRewrite.Target) => [lower(t.serial)]
  }

  function TargetSerials(commands: seq<PlanRewrite.Command>, lower: Lower): seq<string> {
    FlatMap(commands, SerialsOf(lower))
  }

  predicate SomeActionMatches(commands: seq<PlanRewrite.Command>, want: Action) {
    exists i | 0 <= i < |commands| :: ActionMatches(commands[i].action, want)
  }

  function If(b: bool, f: Failure): seq<Failure> { if b then [f] else [] }

  /** One message per failed expectation, in this order. */
  function Failures(count: bool, targets: bool, action: bool, confirmation: bool, ambiguity: bool): seq<Failure> {
    If(count, CommandCount) + If(targets, Targets) + If(action, ActionDiffers) + If(confirmation, Confirmation)
        + If(ambiguity, Ambiguity)
  }

  lemma FailuresMeaning(count: bool, targets: bool, action: bool, confirmation: bool, ambiguity: bool)
    ensures var f := Failures(count, targets, action, confirmation, ambiguity);
            && (CommandCount in f <==> count) && (Targets in f <==> targets) && (ActionDiffers in f <==> action)
            && (Confirmation in f <==> confirmation) && (Ambiguity in f <==> ambiguity)
            && (f == [] <==> !(count || targets || action || confirmation || ambiguity))
  {
  }

  /** The sorted copies of the two lists of serials differ. */
  predicate TargetsDiffer(got: seq<string>, want: seq<string>) {
    StringOrder();
    Sort(got, StringLE) != Sort(want, StringLE)
  }

  predicate WrongCount(plan: Plan, expected: Expected) {
    expected.commandCount.Some? && |plan.commands| != expected.commandCount.value
  }

  predicate WrongTargets(plan: Plan, expected: Expected, lower: Lower) {
    expected.targetSerials.Some? && TargetsDiffer(TargetSerials(plan.commands, lower), expected.targetSerials.value)
  }

  predicate WrongAction(plan: Plan, expected: Expected) {
    expected.action.Some? && !SomeActionMatches(plan.commands, expected.action.value)
  }

  predicate WrongConfirmation(plan: Plan, expected: Expected) {
    expected.requiresConfirmation.Some? && plan.needsConfirmation != expected.requiresConfirmation.value
  }

  predicate Incautious(plan: Plan, expected: Expected) {
    expected.ambiguous && (!plan.needsConfirmation || plan.high)
  }

  function Score(plan: Plan, expected: Expected, lower: Lower): seq<Failure> {
    Failures(WrongCount(plan, expected), WrongTargets(plan, expected, lower), WrongAction(plan, expected),
             WrongConfirmation(plan, expected), Incautious(plan, expected))
  }

  method CollectSerials(commands: seq<PlanRewrite.Command>, lower: Lower) returns (out: seq<string>)
    ensures out == TargetSerials(commands, lower)
  {
    out := [];
    for c := 0 to |commands|
      invariant out == FlatMap(commands[..c], SerialsOf(lower))
    {
      assert commands[..c + 1][..c] == commands[..c];
      var targets := commands[c].targets;
      ghost var before := out;
      for t := 0 to |targets|
        invariant out == before + FlatMap(targets[..t], SerialOf(lower))
      {
        assert targets[..t + 1][..t] == targets[..t];
        out := out + [lower(targets[t].serial)];
      }
      assert targets[..|targets|] == targets;
    }
    assert commands[..|commands|] == commands;
  }

  method MatchesAction(commands: seq<PlanRewrite.Command>, want: Action) returns (found: bool)
    ensures found <==> SomeActionMatches(commands, want)
  {
    for c := 0 to |commands|
      invariant forall i | 0 <= i < c :: !ActionMatches(commands[i].action, want)
    {
      if ActionMatches(commands[c].action, want) {
        return true;
      }
    }
    return false;
  }

  method CheckTargets(plan: Plan, expected: Expected, lower: Lower) returns (wrong: bool)
    ensures wrong <==> WrongTargets(plan, expected, lower)
  {
    StringOrder();
    wrong := false;
    if expected.targetSerials.Some? {
      var got := CollectSerials(plan.commands, lower);
      got := Sort(got, StringLE);
      var want := Sort(expected.targetSerials.value, StringLE);
      wrong := got != want;
    }
  }

  method ScorePlan(plan: Plan, expected: Expected, lower: Lower) returns (failures: seq<Failure>)
    ensures failures == Score(plan, expected, lower)
  {
    failures := [];
    if expected.commandCount.Some? && |plan.commands| != expected.commandCount.value {
      failures := failures + [CommandCount];
    }
    ghost var counted := If(WrongCount(plan, expected), CommandCount);
    assert failures == counted;
    var wrongTargets := CheckTargets(plan, expected, lower);
    if wrongTargets {
      failures := failures + [Targets];
    }
    ghost var targeted := counted + If(WrongTargets(plan, expected, lower), Targets);
    assert failures == targeted;
    if expected.action.Some? {
      var found := MatchesAction(plan.commands, expected.action.value);
      if !found {
        failures := failures + [ActionDiffers];
      }
    }
    ghost var acted := targeted + If(WrongAction(plan, expected), ActionDiffers);
    assert failures == acted;
    if expected.requiresConfirmation.Some? && plan.needsConfirmation != expected.requiresConfirmation.value {
      failures := failures + [Confirmation];
    }
    ghost var confirmed := acted + If(WrongConfirmation(plan, expected), Confirmation);
    assert failures == confirmed;
    if expected.ambiguous && (!plan.needsConfirmation || plan.high) {
      failures := failures + [Ambiguity];
    }
    assert failures == confirmed + If(Incautious(plan, expected), Ambiguity);
  }

  /** Comparing sorted copies compares multisets. */
  lemma TargetsDifferMeaning(got: seq<string>, want: seq<string>)
    ensures TargetsDiffer(got, want) <==> multiset(got) != multiset(want)
  {
    StringOrder();
    SortsAgree(got, want, StringLE);
  }

  /** The target check fails exactly when the serials differ as multisets: order never matters and
      repetition does. */
  lemma TargetCheckComparesMultisets(plan: Plan, expected: Expected, lower: Lower)
    ensures Targets in Score(plan, expected, lower)
       <==> (expected.targetSerials.Some?
             && multiset(TargetSerials(plan.commands, lower)) != multiset(expected.targetSerials.value))
  {
    FailuresMeaning(WrongCount(plan, expected), WrongTargets(plan, expected, lower), WrongAction(plan, expected),
                    WrongConfirmation(plan, expected), Incautious(plan, expected));
    if expected.targetSerials.Some? {
      TargetsDifferMeaning(TargetSerials(plan.commands, lower), expected.targetSerials.value);
    }
  }

  /** Two numbers are a hundredth apart at most, or both are missing. */
  predicate Near(a: Option<real>, b: Option<real>) {
    a.Some? == b.Some? && (a.Some? && b.Some? ==> a.value <= b.value + 0.01 && b.value <= a.value + 0.01)
  }

  /** The same switch, temperature and duration, and nearly the same colour and brightness. */
  predicate Agrees(got: Action, want: Action) {
    && got.power == want.power && got.kelvin == want.kelvin && got.durationMS == want.durationMS
    && Near(got.hue, want.hue) && Near(got.saturation, want.saturation) && Near(got.brightness, want.brightness)
  }

  lemma MatchingIsAgreeing(got: Action, want: Action)
    ensures ActionMatches(got, want) <==> Agrees(got, want)
  {
  }

  /** The serials of a plan are those of its targets, lower-cased, command by command. */
  lemma SerialsOfOneMore(commands: seq<PlanRewrite.Command>, c: PlanRewrite.Command, lower: Lower)
    returns (added: seq<string>)
    ensures TargetSerials([], lower) == []
    ensures TargetSerials(commands + [c], lower) == TargetSerials(commands, lower) + added
    ensures |added| == |c.targets| && forall i | 0 <= i < |added| :: added[i] == lower(c.targets[i].serial)
  {
    FlatMapConcat(commands, [c], SerialsOf(lower));
    FlatMapOne(c, SerialsOf(lower));
    LoweredOneByOne(c.targets, lower);
    added := FlatMap(c.targets, SerialOf(lower));
  }

  lemma {:induction false} LoweredOneByOne(targets: seq<PlanRewrite.Target>, lower: Lower)
    ensures |FlatMap(targets, SerialOf(lower))| == |targets|
    ensures forall i | 0 <= i < |targets| :: FlatMap(targets, SerialOf(lower))[i] == lower(targets[i].serial)
  {
    if targets != [] {
      LoweredOneByOne(targets[..|targets| - 1], lower);
    }
  }

  lemma SomeCommandMatches(commands: seq<PlanRewrite.Command>, want: Action)
    ensures SomeActionMatches(commands, want) <==> exists c :: c in commands && Agrees(c.action, want)
  {
    if i :| 0 <= i < |commands| && ActionMatches(commands[i].action, want) {
      MatchingIsAgreeing(commands[i].action, want);
    }
    if c :| c in commands && Agrees(c.action, want) {
      MatchingIsAgreeing(c.action, want);
      var i :| 0 <= i < |commands| && commands[i] == c;
      assert ActionMatches(commands[i].action, want);
    }
  }

  /** What the expectations of a fixture ask of a plan. */
  ghost predicate Meets(plan: Plan, expected: Expected, lower: Lower) {
    && (expected.commandCount.Some? ==> |plan.commands| == expected.commandCount.value)
    && (expected.targetSerials.Some? ==>
        multiset(TargetSerials(plan.commands, lower)) == multiset(expected.targetSerials.value))
    && (expected.action.Some? ==> exists c :: c in plan.commands && Agrees(c.action, expected.action.value))
    && (expected.requiresConfirmation.Some? ==> plan.needsConfirmation == expected.requiresConfirmation.value)
    && (expected.ambiguous ==> plan.needsConfirmation && !plan.high)
  }

  /** A plan scores without failures exactly when it meets every stated expectation. */
  lemma NoFailuresMeansMet(plan: Plan, expected: Expected, lower: Lower)
    ensures Score(plan, expected, lower) == [] <==> Meets(plan, expected, lower)
  {
    FailuresMeaning(WrongCount(plan, expected), WrongTargets(plan, expected, lower), WrongAction(plan, expected),
                    WrongConfirmation(plan, expected), Incautious(plan, expected));
    if expected.targetSerials.Some? {
      TargetsDifferMeaning(TargetSerials(plan.commands, lower), expected.targetSerials.value);
    }
    if expected.action.Some? {
      SomeCommandMatches(plan.commands, expected.action.value);
    }
  }
}
