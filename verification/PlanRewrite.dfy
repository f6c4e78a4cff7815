/**
 What internal/interpreter/model.go does to a plan proposed by a model: validate it against
 the snapshot, replace its targets by trusted references, and split commands so that
 visual actions switch on the devices that are not known to be on.
 */
module PlanRewrite {
  import opened Prelude

  datatype Action = Action(
    power: Option<bool>, hue: Option<real>, saturation: Option<real>, brightness: Option<real>,
    kelvin: Option<nat>, durationMS: Option<nat>)

  datatype Target = Target(serial: string, name: string, group: string, location: string)

  datatype Command = Command(targets: seq<Target>, action: Action)

  /** A snapshot device; `state` is CurrentState and its Power, either of which may be absent. */
  datatype Device = Device(serial: string, name: string, group: string, location: string, state: Option<Option<bool>>)

  /** `strings.ToLower` is any function on strings. */
  type Lower = string -> string

  type Devices = map<string, Device>

  predicate VisualAction(a: Action) {
    a.hue.Some? || a.saturation.Some? || a.brightness.Some? || a.kelvin.Some?
  }

  predicate EmptyAction(a: Action) {
    a.power.None? && a.hue.None? && a.saturation.None? && a.brightness.None? && a.kelvin.None? && a.durationMS.None?
  }

  /* ------------------------------------------------------------------ */
  /* Power inference                                                    */
  /* ------------------------------------------------------------------ */

  /** The device is known to be on. */
  predicate IsOn(devices: Devices, key: string) {
    key in devices && devices[key].state == Some(Some(true))
  }

  /** The targets whose devices are known to be on, or the others, in order. */
  function Select(targets: seq<Target>, devices: Devices, lower: Lower, on: bool): seq<Target> {
    if targets == [] then []
    else
      var rest := Select(targets[..|targets| - 1], devices, lower, on);
      var last := targets[|targets| - 1];
      if IsOn(devices, lower(last.serial)) == on then rest + [last] else rest
  }

  function WithTargets(c: Command, targets: seq<Target>, action: Action): seq<Command> {
    if targets == [] then [] else [c.(targets := targets, action := action)]
  }

  predicate NeedsPower(a: Action) {
    a.power.None? && VisualAction(a)
  }

  function PoweredOn(a: Action): Action {
    a.(power := Some(true))
  }

  /** What one command becomes. */
  function InferCommand(c: Command, devices: Devices, lower: Lower): seq<Command> {
    if !NeedsPower(c.action) then [c]
    else
      WithTargets(c, Select(c.targets, devices, lower, false), PoweredOn(c.action))
      + WithTargets(c, Select(c.targets, devices, lower, true), c.action)
  }

  function Inferrer(devices: Devices, lower: Lower): Command -> seq<Command> {
    (c: Command) => InferCommand(c, devices, lower)
  }

  function InferPower(commands: seq<Command>, devices: Devices, lower: Lower): seq<Command> {
    FlatMap(commands, Inferrer(devices, lower))
  }

  /** The inner loop of `inferModelPower`. */
  method Partition(targets: seq<Target>, devices: Devices, lower: Lower)
    returns (onTargets: seq<Target>, offTargets: seq<Target>)
    ensures onTargets == Select(targets, devices, lower, true)
    ensures offTargets == Select(targets, devices, lower, false)
  {
    onTargets, offTargets := [], [];
    var i := 0;
    while i < |targets|
      invariant i <= |targets|
      invariant onTargets == Select(targets[..i], devices, lower, true)
      invariant offTargets == Select(targets[..i], devices, lower, false)
    {
      assert targets[..i + 1][..i] == targets[..i];
      if IsOn(devices, lower(targets[i].serial)) {
        onTargets := onTargets + [targets[i]];
      } else {
        offTargets := offTargets + [targets[i]];
      }
      i := i + 1;
    }
    assert targets[..i] == targets;
  }

  /** The body of the outer loop: append what one command becomes. */
  method AppendInferred(before: seq<Command>, command: Command, devices: Devices, lower: Lower)
    returns (result: seq<Command>)
    ensures result == before + InferCommand(command, devices, lower)
  {
    result := before;
    if command.action.power.Some? || !VisualAction(command.action) {
      result := result + [command];
    } else {
      var onTargets, offTargets := Partition(command.targets, devices, lower);
      if |offTargets| > 0 {
        result := result + [command.(targets := offTargets, action := PoweredOn(command.action))];
      }
      assert result == before + WithTargets(command, offTargets, PoweredOn(command.action));
      if |onTargets| > 0 {
        result := result + [command.(targets := onTargets)];
      }
    }
  }

  /** `inferModelPower`. */
  method InferModelPower(commands: seq<Command>, devices: Devices, lower: Lower) returns (result: seq<Command>)
    ensures result == InferPower(commands, devices, lower)
  {
    result := [];
    for i := 0 to |commands|
      invariant result == InferPower(commands[..i], devices, lower)
    {
      assert commands[..i + 1][..i] == commands[..i];
      result := AppendInferred(result, commands[i], devices, lower);
    }
    assert commands[..|commands|] == commands;
  }

  /* ------------------------------------------------------------------ */
  /* The per-device meaning of a plan                                   */
  /* ------------------------------------------------------------------ */

  /** The actions that a command's targets address to device `key`. */
  function ActionsOf(targets: seq<Target>, action: Action, key: string, lower: Lower): seq<Action> {
    if targets == [] then []
    else
      ActionsOf(targets[..|targets| - 1], action, key, lower)
      + (if lower(targets[|targets| - 1].serial) == key then [action] else [])
  }

  function Addressed(key: string, lower: Lower): Command -> seq<Action> {
    (c: Command) => ActionsOf(c.targets, c.action, key, lower)
  }

  /** The ordered list of actions that a plan addresses to device `key`. */
  function ActionsFor(commands: seq<Command>, key: string, lower: Lower): seq<Action> {
    FlatMap(commands, Addressed(key, lower))
  }

  /** What power inference means for one device: a visual action without power switches
      it on, unless it is known to be on already. */
  function Adjusted(a: Action, on: bool): Action {
    if NeedsPower(a) && !on then PoweredOn(a) else a
  }

  function Adjuster(on: bool): Action -> seq<Action> {
    (a: Action) => [Adjusted(a, on)]
  }

  function AllAdjusted(actions: seq<Action>, on: bool): seq<Action> {
    FlatMap(actions, Adjuster(on))
  }

  /** All occurrences of a device in a command land on its own side of the split. */
  lemma {:induction false} SplitKeepsDevice(targets: seq<Target>, devices: Devices, lower: Lower, on: bool,
      action: Action, key: string)
    ensures ActionsOf(Select(targets, devices, lower, on), action, key, lower)
         == if IsOn(devices, key) == on then ActionsOf(targets, action, key, lower) else []
  {
    if targets != [] {
      var n := |targets| - 1;
      SplitKeepsDevice(targets[..n], devices, lower, on, action, key);
      var rest := Select(targets[..n], devices, lower, on);
      assert (rest + [targets[n]])[..|rest|] == rest;
    }
  }

  lemma {:induction false} ActionsOfAreAdjusted(targets: seq<Target>, action: Action, key: string, lower: Lower,
      on: bool)
    ensures AllAdjusted(ActionsOf(targets, action, key, lower), on)
        == ActionsOf(targets, Adjusted(action, on), key, lower)
  {
    if targets != [] {
      var n := |targets| - 1;
      ActionsOfAreAdjusted(targets[..n], action, key, lower, on);
      var rest := ActionsOf(targets[..n], action, key, lower);
      if lower(targets[n].serial) == key {
        FlatMapConcat(rest, [action], Adjuster(on));
        FlatMapOne(action, Adjuster(on));
      } else {
        assert rest + [] == rest;
      }
    }
  }

  lemma ActionsForWithTargets(c: Command, targets: seq<Target>, action: Action, key: string, lower: Lower)
    ensures ActionsFor(WithTargets(c, targets, action), key, lower) == ActionsOf(targets, action, key, lower)
  {
    if targets != [] {
      FlatMapOne(c.(targets := targets, action := action), Addressed(key, lower));
    }
  }

  lemma CommandMeaning(c: Command, devices: Devices, lower: Lower, key: string)
    ensures ActionsFor(InferCommand(c, devices, lower), key, lower)
         == AllAdjusted(ActionsOf(c.targets, c.action, key, lower), IsOn(devices, key))
  {
    ActionsOfAreAdjusted(c.targets, c.action, key, lower, IsOn(devices, key));
    if NeedsPower(c.action) {
      var off, on := Select(c.targets, devices, lower, false), Select(c.targets, devices, lower, true);
      FlatMapConcat(WithTargets(c, off, PoweredOn(c.action)), WithTargets(c, on, c.action), Addressed(key, lower));
      ActionsForWithTargets(c, off, PoweredOn(c.action), key, lower);
      ActionsForWithTargets(c, on, c.action, key, lower);
      SplitKeepsDevice(c.targets, devices, lower, false, PoweredOn(c.action), key);
      SplitKeepsDevice(c.targets, devices, lower, true, c.action, key);
    } else {
      FlatMapOne(c, Addressed(key, lower));
    }
  }

  /** For every device, the ordered list of actions addressed to it after power inference
      is the list before, with power added exactly to visual actions without power when
      the device is not known to be on. */
  lemma {:induction false} InferencePreservesMeaning(commands: seq<Command>, devices: Devices, lower: Lower,
      key: string)
    ensures ActionsFor(InferPower(commands, devices, lower), key, lower)
         == AllAdjusted(ActionsFor(commands, key, lower), IsOn(devices, key))
  {
    if commands != [] {
      var n := |commands| - 1;
      var front, last := commands[..n], commands[n];
      InferencePreservesMeaning(front, devices, lower, key);
      CommandMeaning(last, devices, lower, key);
      FlatMapConcat(InferPower(front, devices, lower), InferCommand(last, devices, lower), Addressed(key, lower));
      FlatMapConcat(ActionsFor(front, key, lower), ActionsOf(last.targets, last.action, key, lower),
          Adjuster(IsOn(devices, key)));
    }
  }

  /** `b` is `a` but for its power. */
  predicate SameButPower(a: Action, b: Action) {
    && b.hue == a.hue && b.saturation == a.saturation && b.brightness == a.brightness && b.kelvin == a.kelvin
    && b.durationMS == a.durationMS
  }

  /** Action by action, `after` is `before`, switched on exactly where a colour, a brightness or a
      temperature is set without power and the device is not known to be on. */
  predicate SwitchedOn(before: seq<Action>, after: seq<Action>, devices: Devices, key: string) {
    && |after| == |before|
    && forall i | 0 <= i < |before| ::
      && SameButPower(before[i], after[i])
      && after[i].power ==
        if before[i].power.None?
           && (before[i].hue.Some? || before[i].saturation.Some? || before[i].brightness.Some?
               || before[i].kelvin.Some?)
           && !(key in devices && devices[key].state == Some(Some(true)))
        then Some(true) else before[i].power
  }

  lemma {:induction false} AdjustedOneByOne(actions: seq<Action>, on: bool)
    ensures |AllAdjusted(actions, on)| == |actions|
    ensures forall i | 0 <= i < |actions| :: AllAdjusted(actions, on)[i] == Adjusted(actions[i], on)
  {
    if actions != [] {
      AdjustedOneByOne(actions[..|actions| - 1], on);
    }
  }

  /** So, for every device, power inference switches it on exactly where its actions call for it. */
  lemma InferenceSwitchesOn(commands: seq<Command>, devices: Devices, lower: Lower, key: string)
    ensures SwitchedOn(ActionsFor(commands, key, lower), ActionsFor(InferPower(commands, devices, lower), key, lower),
                       devices, key)
  {
    InferencePreservesMeaning(commands, devices, lower, key);
    AdjustedOneByOne(ActionsFor(commands, key, lower), IsOn(devices, key));
  }

  /* ------------------------------------------------------------------ */
  /* Conservation and idempotence                                       */
  /* ------------------------------------------------------------------ */

  /** All target occurrences of a plan. */
  function Occurrences(commands: seq<Command>): multiset<Target> {
    if commands == [] then multiset{}
    else Occurrences(commands[..|commands| - 1]) + multiset(commands[|commands| - 1].targets)
  }

  lemma {:induction false} OccurrencesConcat(a: seq<Command>, b: seq<Command>)
    ensures Occurrences(a + b) == Occurrences(a) + Occurrences(b)
  {
    if b == [] {
      assert a + b == a;
    } else {
      assert (a + b)[..|a + b| - 1] == a + b[..|b| - 1];
      OccurrencesConcat(a, b[..|b| - 1]);
    }
  }

  lemma {:induction false} SplitKeepsTargets(targets: seq<Target>, devices: Devices, lower: Lower)
    ensures multiset(Select(targets, devices, lower, false)) + multiset(Select(targets, devices, lower, true))
        == multiset(targets)
  {
    if targets != [] {
      var n := |targets| - 1;
      assert targets == targets[..n] + [targets[n]];
      SplitKeepsTargets(targets[..n], devices, lower);
    }
  }

  lemma OccurrencesOfOne(c: Command, targets: seq<Target>, action: Action)
    ensures Occurrences(WithTargets(c, targets, action)) == multiset(targets)
    ensures Occurrences([c]) == multiset(c.targets)
  {
    assert [c][..0] == [];
    assert [c.(targets := targets, action := action)][..0] == [];
  }

  /** No target is lost, duplicated or changed. */
  lemma {:induction false} TargetsAreConserved(commands: seq<Command>, devices: Devices, lower: Lower)
    ensures Occurrences(InferPower(commands, devices, lower)) == Occurrences(commands)
  {
    if commands != [] {
      var n := |commands| - 1;
      var c := commands[n];
      TargetsAreConserved(commands[..n], devices, lower);
      OccurrencesConcat(InferPower(commands[..n], devices, lower), InferCommand(c, devices, lower));
      var off, on := Select(c.targets, devices, lower, false), Select(c.targets, devices, lower, true);
      OccurrencesConcat(WithTargets(c, off, PoweredOn(c.action)), WithTargets(c, on, c.action));
      OccurrencesOfOne(c, off, PoweredOn(c.action));
      OccurrencesOfOne(c, on, c.action);
      SplitKeepsTargets(c.targets, devices, lower);
    }
  }

  lemma {:induction false} SelectTwice(targets: seq<Target>, devices: Devices, lower: Lower, on: bool)
    ensures Select(Select(targets, devices, lower, on), devices, lower, on) == Select(targets, devices, lower, on)
    ensures Select(Select(targets, devices, lower, on), devices, lower, !on) == []
  {
    if targets != [] {
      var n := |targets| - 1;
      SelectTwice(targets[..n], devices, lower, on);
      var rest := Select(targets[..n], devices, lower, on);
      assert (rest + [targets[n]])[..|rest|] == rest;
    }
  }

  lemma InferWithTargets(c: Command, devices: Devices, lower: Lower, on: bool)
    requires NeedsPower(c.action)
    ensures var action := if on then c.action else PoweredOn(c.action);
      var pieces := WithTargets(c, Select(c.targets, devices, lower, on), action);
      InferPower(pieces, devices, lower) == pieces
  {
    var targets := Select(c.targets, devices, lower, on);
    var action := if on then c.action else PoweredOn(c.action);
    if targets != [] {
      FlatMapOne(c.(targets := targets, action := action), Inferrer(devices, lower));
      SelectTwice(c.targets, devices, lower, on);
    }
  }

  /** Inferring power a second time changes nothing. */
  lemma {:induction false} InferenceIsIdempotent(commands: seq<Command>, devices: Devices, lower: Lower)
    ensures InferPower(InferPower(commands, devices, lower), devices, lower) == InferPower(commands, devices, lower)
  {
    if commands != [] {
      var n := |commands| - 1;
      var c := commands[n];
      InferenceIsIdempotent(commands[..n], devices, lower);
      FlatMapConcat(InferPower(commands[..n], devices, lower), InferCommand(c, devices, lower),
          Inferrer(devices, lower));
      if NeedsPower(c.action) {
        var off, on := Select(c.targets, devices, lower, false), Select(c.targets, devices, lower, true);
        FlatMapConcat(WithTargets(c, off, PoweredOn(c.action)), WithTargets(c, on, c.action), Inferrer(devices, lower));
        InferWithTargets(c, devices, lower, false);
        InferWithTargets(c, devices, lower, true);
      } else {
        FlatMapOne(c, Inferrer(devices, lower));
      }
    }
  }
}
