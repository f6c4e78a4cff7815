/**
 `validateModelPlan` of internal/interpreter/model.go: the gate between a model's proposal and
 the host. The plan is an object whose commands are rewritten in place.
 */
module PlanValidation {
  import opened Prelude
  import opened PlanRewrite

  datatype Level = Low | Medium | High | OtherLevel

  datatype Header = Header(schemaVersion: string, confidence: real, level: Level, summary: string)

  datatype PlanError =
    | BadSchema | BadConfidence | BadLevel | EmptySummary | ConfidentEmptyPlan
    | NoTargets(command: nat) | NoAction(command: nat) | OutOfRange(command: nat) | UnknownTarget(command: nat)

  /** The device index; a later device with the same serial replaces an earlier one. */
  function Index(snapshot: seq<Device>, lower: Lower): Devices {
    if snapshot == [] then map[]
    else
      var last := snapshot[|snapshot| - 1];
      Index(snapshot[..|snapshot| - 1], lower)[lower(last.serial) := last]
  }

  predicate Between(value: Option<real>, low: real, high: real) {
    value.Some? ==> low <= value.value <= high
  }

  predicate InRange(a: Action) {
    && Between(a.hue, 0.0, 360.0) && Between(a.saturation, 0.0, 100.0) && Between(a.brightness, 0.0, 100.0)
    && (a.kelvin.Some? ==> 1500 <= a.kelvin.value <= 9000)
  }

  predicate Known(targets: seq<Target>, devices: Devices, lower: Lower) {
    forall t | t in targets :: lower(t.serial) in devices
  }

  /** The first objection to one command. */
  function CommandProblem(c: Command, ci: nat, devices: Devices, lower: Lower): Option<PlanError> {
    if c.targets == [] then Some(NoTargets(ci))
    else if EmptyAction(c.action) then Some(NoAction(ci))
    else if !InRange(c.action) then Some(OutOfRange(ci))
    else if !Known(c.targets, devices, lower) then Some(UnknownTarget(ci))
    else None
  }

  /** The first objection to the commands from `ci` on. */
  function CommandsProblem(commands: seq<Command>, ci: nat, devices: Devices, lower: Lower): Option<PlanError>
    requires ci <= |commands|
    decreases |commands| - ci
  {
    if ci == |commands| then None
    else
      var problem := CommandProblem(commands[ci], ci, devices, lower);
      if problem.Some? then problem else CommandsProblem(commands, ci + 1, devices, lower)
  }

  function HeaderProblem(h: Header, commands: seq<Command>, blank: string -> bool): Option<PlanError> {
    if h.schemaVersion != "1" then Some(BadSchema)
    else if h.confidence < 0.0 || h.confidence > 1.0 then Some(BadConfidence)
    else if h.level == OtherLevel then Some(BadLevel)
    else if blank(h.summary) then Some(EmptySummary)
    else if commands == [] && h.confidence >= 0.5 then Some(ConfidentEmptyPlan)
    else None
  }

  /** The trusted reference of a target that is in the snapshot. */
  function Trusted(t: Target, devices: Devices, lower: Lower): Target {
    var key := lower(t.serial);
    if key in devices then
        Target(lower(devices[key].serial), devices[key].name, devices[key].group, devices[key].location)
    else t
  }

  function TrustedTargets(targets: seq<Target>, devices: Devices, lower: Lower): (ts: seq<Target>)
    ensures |ts| == |targets|
    ensures forall i | 0 <= i < |targets| :: ts[i] == Trusted(targets[i], devices, lower)
  {
    if targets == [] then []
    else TrustedTargets(targets[..|targets| - 1], devices, lower) + [Trusted(targets[|targets| - 1], devices, lower)]
  }

  function TrustedCommand(c: Command, devices: Devices, lower: Lower): Command {
    c.(targets := TrustedTargets(c.targets, devices, lower))
  }

  function TrustedCommands(commands: seq<Command>, devices: Devices, lower: Lower): (cs: seq<Command>)
    ensures |cs| == |commands|
    ensures forall i | 0 <= i < |commands| :: cs[i] == TrustedCommand(commands[i], devices, lower)
  {
    if commands == [] then []
    else
      var n := |commands| - 1;
      TrustedCommands(commands[..n], devices, lower) + [TrustedCommand(commands[n], devices, lower)]
  }

  /** schema.CommandPlan, as decoded from the model's output. */
  class CommandPlan {
    var header: Header
    var commands: seq<Command>
    var needsConfirmation: bool

    constructor (header: Header, commands: seq<Command>, needsConfirmation: bool)
      ensures this.header == header && this.commands == commands && this.needsConfirmation == needsConfirmation
    {
      this.header := header;
      this.commands := commands;
      this.needsConfirmation := needsConfirmation;
    }
  }

  method BuildIndex(snapshot: seq<Device>, lower: Lower) returns (devices: Devices)
    ensures devices == Index(snapshot, lower)
  {
    devices := map[];
    assert snapshot[..0] == [];
    for i := 0 to |snapshot|
      invariant devices == Index(snapshot[..i], lower)
    {
      assert snapshot[..i + 1][..i] == snapshot[..i];
      devices := devices[lower(snapshot[i].serial) := snapshot[i]];
    }
    assert snapshot[..|snapshot|] == snapshot;
  }

  /** The target loop: rewrite each known target, stop at the first unknown one. */
  method TrustTargets(targets: seq<Target>, devices: Devices, lower: Lower) returns (known: bool, trusted: seq<Target>)
    ensures known <==> Known(targets, devices, lower)
    ensures known ==> trusted == TrustedTargets(targets, devices, lower)
    ensures |trusted| == |targets|
  {
    trusted := targets;
    for ti := 0 to |targets|
      invariant |trusted| == |targets|
      invariant forall k | 0 <= k < ti ::
          lower(targets[k].serial) in devices && trusted[k] == Trusted(targets[k], devices, lower)
      invariant forall k | ti <= k < |targets| :: trusted[k] == targets[k]
    {
      var key := lower(trusted[ti].serial);
      if key !in devices {
        return false, trusted;
      }
      var d := devices[key];
      trusted := trusted[ti := Target(lower(d.serial), d.name, d.group, d.location)];
    }
    return true, trusted;
  }

  /** The checks on one command, and its targets as far as they were rewritten. */
  method CheckCommand(command: Command, ci: nat, devices: Devices, lower: Lower)
    returns (error: Option<PlanError>, targets: seq<Target>)
    ensures error == CommandProblem(command, ci, devices, lower)
    ensures error.None? ==> targets == TrustedTargets(command.targets, devices, lower)
  {
    targets := command.targets;
    if |command.targets| == 0 {
      return Some(NoTargets(ci)), targets;
    }
    if EmptyAction(command.action) {
      return Some(NoAction(ci)), targets;
    }
    if !InRange(command.action) {
      return Some(OutOfRange(ci)), targets;
    }
    var known;
    known, targets := TrustTargets(command.targets, devices, lower);
    if !known {
      return Some(UnknownTarget(ci)), targets;
    }
    return None, targets;
  }

  /** `validateModelPlan`. On acceptance the plan holds the inferred commands over trusted
      targets and always asks for confirmation; its header never changes. */
  method ValidateModelPlan(plan: CommandPlan, snapshot: seq<Device>, lower: Lower, blank: string -> bool)
    returns (error: Option<PlanError>)
    modifies plan
    ensures plan.header == old(plan.header)
    ensures var devices := Index(snapshot, lower);
      var problem := HeaderProblem(old(plan.header), old(plan.commands), blank);
      error == if problem.Some? then problem else CommandsProblem(old(plan.commands), 0, devices, lower)
    ensures error.None? ==>
      plan.needsConfirmation
      && plan.commands == InferPower(TrustedCommands(old(plan.commands), Index(snapshot, lower), lower),
          Index(snapshot, lower), lower)
    ensures error.Some? ==>
        plan.needsConfirmation == old(plan.needsConfirmation) && |plan.commands| == |old(plan.commands)|
  {
    var objection := HeaderProblem(plan.header, plan.commands, blank);
    if objection.Some? {
      return objection;
    }
    var devices := BuildIndex(snapshot, lower);
    ghost var before := plan.commands;
    var ci := 0;
    while ci < |plan.commands|
      invariant ci <= |plan.commands| == |before|
      invariant plan.header == old(plan.header) && plan.needsConfirmation == old(plan.needsConfirmation)
      invariant forall k | 0 <= k < ci :: plan.commands[k] == TrustedCommand(before[k], devices, lower)
      invariant forall k | ci <= k < |before| :: plan.commands[k] == before[k]
      invariant CommandsProblem(before, 0, devices, lower) == CommandsProblem(before, ci, devices, lower)
    {
      var command := plan.commands[ci];
      var problem, targets := CheckCommand(command, ci, devices, lower);
      plan.commands := plan.commands[ci := command.(targets := targets)];
      if problem.Some? {
        return problem;
      }
      ci := ci + 1;
    }
    assert plan.commands == TrustedCommands(before, devices, lower);
    plan.commands := InferModelPower(plan.commands, devices, lower);
    plan.needsConfirmation := true;
    return None;
  }

  /* ------------------------------------------------------------------ */
  /* What acceptance means                                              */
  /* ------------------------------------------------------------------ */

  /** An action that sets some field. */
  predicate SetsSomething(a: Action) {
    a.power.Some? || a.hue.Some? || a.saturation.Some? || a.brightness.Some? || a.kelvin.Some? || a.durationMS.Some?
  }

  /** What a light can do: a hue in degrees, percentages, and a colour temperature in kelvin. */
  predicate IsPossible(a: Action) {
    && (a.hue.Some? ==> 0.0 <= a.hue.value <= 360.0)
    && (a.saturation.Some? ==> 0.0 <= a.saturation.value <= 100.0)
    && (a.brightness.Some? ==> 0.0 <= a.brightness.value <= 100.0)
    && (a.kelvin.Some? ==> 1500 <= a.kelvin.value <= 9000)
  }

  /** A command that a host may preview: non-empty, in range, and every target is the
      reference of a snapshot device under its lower-cased serial. */
  ghost predicate Safe(c: Command, snapshot: seq<Device>, lower: Lower) {
    && c.targets != [] && SetsSomething(c.action) && IsPossible(c.action)
    && forall t | t in c.targets :: exists d ::
        d in snapshot && t == Target(lower(d.serial), d.name, d.group, d.location)
  }

  lemma {:induction false} IndexHoldsSnapshot(snapshot: seq<Device>, lower: Lower)
    ensures forall key | key in Index(snapshot, lower) ::
              Index(snapshot, lower)[key] in snapshot && lower(Index(snapshot, lower)[key].serial) == key
    ensures forall d | d in snapshot :: lower(d.serial) in Index(snapshot, lower)
  {
    if snapshot != [] {
      var n := |snapshot| - 1;
      assert snapshot == snapshot[..n] + [snapshot[n]];
      IndexHoldsSnapshot(snapshot[..n], lower);
    }
  }

  lemma {:induction false} NoProblemMeansSound(commands: seq<Command>, ci: nat, devices: Devices, lower: Lower)
    requires ci <= |commands|
    ensures CommandsProblem(commands, ci, devices, lower).None? <==>
              forall k | ci <= k < |commands| :: CommandProblem(commands[k], k, devices, lower).None?
    decreases |commands| - ci
  {
    if ci < |commands| {
      NoProblemMeansSound(commands, ci + 1, devices, lower);
    }
  }

  lemma {:induction false} SelectIsSubset(targets: seq<Target>, devices: Devices, lower: Lower, on: bool)
    ensures forall t | t in Select(targets, devices, lower, on) :: t in targets
  {
    if targets != [] {
      SelectIsSubset(targets[..|targets| - 1], devices, lower, on);
    }
  }

  lemma SplitIsSafe(c: Command, snapshot: seq<Device>, devices: Devices, lower: Lower)
    requires Safe(c, snapshot, lower)
    ensures forall piece | piece in InferCommand(c, devices, lower) :: Safe(piece, snapshot, lower)
  {
    SelectIsSubset(c.targets, devices, lower, false);
    SelectIsSubset(c.targets, devices, lower, true);
  }

  lemma {:induction false} InferenceIsSafe(commands: seq<Command>, snapshot: seq<Device>, devices: Devices,
      lower: Lower)
    requires forall c | c in commands :: Safe(c, snapshot, lower)
    ensures forall c | c in InferPower(commands, devices, lower) :: Safe(c, snapshot, lower)
  {
    if commands != [] {
      InferenceIsSafe(commands[..|commands| - 1], snapshot, devices, lower);
      SplitIsSafe(commands[|commands| - 1], snapshot, devices, lower);
    }
  }

  lemma TrustedIsSafe(c: Command, ci: nat, snapshot: seq<Device>, lower: Lower)
    requires CommandProblem(c, ci, Index(snapshot, lower), lower).None?
    ensures Safe(TrustedCommand(c, Index(snapshot, lower), lower), snapshot, lower)
  {
    var devices := Index(snapshot, lower);
    IndexHoldsSnapshot(snapshot, lower);
    var trusted := TrustedCommand(c, devices, lower);
    forall t | t in trusted.targets
      ensures exists d :: d in snapshot && t == Target(lower(d.serial), d.name, d.group, d.location)
    {
      var i :| 0 <= i < |trusted.targets| && trusted.targets[i] == t;
      assert c.targets[i] in c.targets;
      var d := devices[lower(c.targets[i].serial)];
      assert d in snapshot;
    }
  }

  /** An accepted plan keeps only snapshot serials with trusted metadata, non-empty
      targets and in-range actions, also after splitting. */
  lemma AcceptedPlanIsSafe(commands: seq<Command>, snapshot: seq<Device>, lower: Lower)
    requires CommandsProblem(commands, 0, Index(snapshot, lower), lower).None?
    ensures var devices := Index(snapshot, lower);
      forall c | c in InferPower(TrustedCommands(commands, devices, lower), devices, lower) ::
              Safe(c, snapshot, lower)
  {
    var devices := Index(snapshot, lower);
    NoProblemMeansSound(commands, 0, devices, lower);
    var trusted := TrustedCommands(commands, devices, lower);
    forall c | c in trusted ensures Safe(c, snapshot, lower) {
      var i :| 0 <= i < |trusted| && trusted[i] == c;
      TrustedIsSafe(commands[i], i, snapshot, lower);
    }
    InferenceIsSafe(trusted, snapshot, devices, lower);
  }

  /** Lower-casing twice is lower-casing once. */
  ghost predicate Idempotent(lower: Lower) {
    forall s :: lower(lower(s)) == lower(s)
  }

  lemma {:induction false} TrustKeepsKeys(targets: seq<Target>, action: Action, snapshot: seq<Device>, lower: Lower,
      key: string)
    requires Idempotent(lower) && Known(targets, Index(snapshot, lower), lower)
    ensures ActionsOf(TrustedTargets(targets, Index(snapshot, lower), lower), action, key, lower)
        == ActionsOf(targets, action, key, lower)
  {
    if targets != [] {
      var n := |targets| - 1;
      var devices := Index(snapshot, lower);
      var front := targets[..n];
      assert forall t | t in front :: t in targets;
      assert targets[n] in targets;
      TrustKeepsKeys(front, action, snapshot, lower, key);
      IndexHoldsSnapshot(snapshot, lower);
      var rest := TrustedTargets(front, devices, lower);
      assert TrustedTargets(targets, devices, lower)[..n] == rest;
    }
  }

  /** From the model's proposal to the accepted plan: for every device the same actions in
      the same order, switched on exactly where a visual action without power meets a device that
      the snapshot does not show on. */
  lemma AcceptedPlanKeepsMeaning(commands: seq<Command>, snapshot: seq<Device>, lower: Lower, key: string)
    requires Idempotent(lower)
    requires CommandsProblem(commands, 0, Index(snapshot, lower), lower).None?
    ensures var devices := Index(snapshot, lower);
      SwitchedOn(ActionsFor(commands, key, lower),
                 ActionsFor(InferPower(TrustedCommands(commands, devices, lower), devices, lower), key, lower),
                 devices, key)
  {
    var devices := Index(snapshot, lower);
    NoProblemMeansSound(commands, 0, devices, lower);
    forall c | c in commands ensures Known(c.targets, devices, lower) {
      var i :| 0 <= i < |commands| && commands[i] == c;
      assert CommandProblem(commands[i], i, devices, lower).None?;
    }
    InferenceSwitchesOn(TrustedCommands(commands, devices, lower), devices, lower, key);
    TrustKeepsActions(commands, snapshot, lower, key);
  }

  lemma {:induction false} TrustKeepsActions(commands: seq<Command>, snapshot: seq<Device>, lower: Lower, key: string)
    requires Idempotent(lower)
    requires forall c | c in commands :: Known(c.targets, Index(snapshot, lower), lower)
    ensures ActionsFor(TrustedCommands(commands, Index(snapshot, lower), lower), key, lower)
        == ActionsFor(commands, key, lower)
  {
    if commands != [] {
      var n := |commands| - 1;
      var devices := Index(snapshot, lower);
      var front := commands[..n];
      assert forall c | c in front :: c in commands;
      assert commands[n] in commands;
      TrustKeepsActions(front, snapshot, lower, key);
      assert TrustedCommands(commands, devices, lower)[..n] == TrustedCommands(front, devices, lower);
      TrustKeepsKeys(commands[n].targets, commands[n].action, snapshot, lower, key);
    }
  }

  /* ------------------------------------------------------------------ */
  /* What is accepted                                                   */
  /* ------------------------------------------------------------------ */

  /** Of the snapshot devices under one key, the last one counts. */
  lemma {:induction false} LastDeviceCounts(snapshot: seq<Device>, lower: Lower, i: nat)
    requires i < |snapshot| && forall j | i < j < |snapshot| :: lower(snapshot[j].serial) != lower(snapshot[i].serial)
    ensures lower(snapshot[i].serial) in Index(snapshot, lower)
    ensures Index(snapshot, lower)[lower(snapshot[i].serial)] == snapshot[i]
  {
    if i < |snapshot| - 1 {
      LastDeviceCounts(snapshot[..|snapshot| - 1], lower, i);
    }
  }

  /** A command that a model may propose: possible, not empty, and every target has the serial of
      a snapshot device, whatever its spelling. */
  ghost predicate Acceptable(c: Command, snapshot: seq<Device>, lower: Lower) {
    && c.targets != [] && SetsSomething(c.action) && IsPossible(c.action)
    && forall t | t in c.targets :: exists d :: d in snapshot && lower(d.serial) == lower(t.serial)
  }

  lemma AcceptableExactly(c: Command, ci: nat, snapshot: seq<Device>, lower: Lower)
    ensures CommandProblem(c, ci, Index(snapshot, lower), lower).None? <==> Acceptable(c, snapshot, lower)
  {
    IndexHoldsSnapshot(snapshot, lower);
    forall t | t in c.targets
      ensures lower(t.serial) in Index(snapshot, lower)
         <==> exists d :: d in snapshot && lower(d.serial) == lower(t.serial)
    {
    }
  }

  /** A plan is accepted exactly if its header is in order, it is not both empty and confident, and
      every command is acceptable. */
  lemma PlanIsAcceptedExactly(h: Header, commands: seq<Command>, snapshot: seq<Device>, lower: Lower,
      blank: string -> bool)
    ensures
      HeaderProblem(h, commands, blank).None? && CommandsProblem(commands, 0, Index(snapshot, lower), lower).None?
      <==> && h.schemaVersion == "1" && 0.0 <= h.confidence <= 1.0 && h.level in {Low, Medium, High}
           && !blank(h.summary) && (commands == [] ==> h.confidence < 0.5)
           && forall c | c in commands :: Acceptable(c, snapshot, lower)
  {
    NoProblemMeansSound(commands, 0, Index(snapshot, lower), lower);
    forall k | 0 <= k < |commands|
      ensures CommandProblem(commands[k], k, Index(snapshot, lower), lower).None?
         <==> Acceptable(commands[k], snapshot, lower)
    {
      AcceptableExactly(commands[k], k, snapshot, lower);
    }
  }

  /** What is wrong with a command, in the order of the checks. */
  ghost predicate IsObjection(error: PlanError, k: nat, c: Command, snapshot: seq<Device>, lower: Lower) {
    match error
    case NoTargets(i) => i == k && c.targets == []
    case NoAction(i) => i == k && c.targets != [] && !SetsSomething(c.action)
    case OutOfRange(i) => i == k && c.targets != [] && SetsSomething(c.action) && !IsPossible(c.action)
    case UnknownTarget(i) => i == k && c.targets != [] && SetsSomething(c.action) && IsPossible(c.action)
    case _ => false
  }

  /** A rejected plan is rejected for its first command that is not acceptable, and for the first
      check that it fails. */
  lemma {:induction false} FirstObjection(commands: seq<Command>, ci: nat, snapshot: seq<Device>, lower: Lower)
    returns (k: nat)
    requires ci <= |commands| && CommandsProblem(commands, ci, Index(snapshot, lower), lower).Some?
    ensures ci <= k < |commands| && !Acceptable(commands[k], snapshot, lower)
    ensures forall j | ci <= j < k :: Acceptable(commands[j], snapshot, lower)
    ensures IsObjection(CommandsProblem(commands, ci, Index(snapshot, lower), lower).value, k, commands[k],
                        snapshot, lower)
    decreases |commands| - ci
  {
    k := ci;
    AcceptableExactly(commands[ci], ci, snapshot, lower);
    if CommandProblem(commands[ci], ci, Index(snapshot, lower), lower).None? {
      k := FirstObjection(commands, ci + 1, snapshot, lower);
    }
  }
}
