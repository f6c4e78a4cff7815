/**
 `extract_plan` of runtimes/functiongemma/runner.py, from the function calls the regular
 expressions found in the generated text to the proposed plan.
 */
module ExtractPlan {
  import opened Prelude
  import opened Sorting
  import opened MergeCommands
  import opened MergeMeaning
  import opened TargetSelection

  /** One function call: its proposed fields, its selectors and the serials of the older format. */
  datatype Call = Call(proposed: Action, selectors: seq<string>, serials: seq<string>)

  /** `apply_action_policy` for the text at hand. */
  type Policy = Action -> Action

  datatype Plan =
    | NothingProposed(reason: string)
    | Proposal(summary: string, commands: seq<Command>)
  {
    function Confidence(): real { if NothingProposed? then 0.1 else 0.65 }
    function Commands(): seq<Command> { if NothingProposed? then [] else commands }
  }

  function Lookup(inventory: Inventory): string -> seq<string> {
    (selector: string) => Get(inventory, selector)
  }

  /** Devices the text names win over selectors, and selectors over plain serials. */
  function Serials(call: Call, inventory: Inventory, named: seq<string>): seq<string> {
    if named != [] then named
    else if call.selectors != [] then FlatMap(call.selectors, Lookup(inventory))
    else call.serials
  }

  function Proposed(inventory: Inventory, named: seq<string>, policy: Policy): Call -> seq<Command> {
    (call: Call) =>
      var serials := Serials(call, inventory, named);
      var action := policy(call.proposed);
      if serials != [] && action != map[] then [Command(Dedup(serials), action)] else []
  }

  function Extract(calls: seq<Call>, text: string, inventory: Inventory, named: seq<string>, policy: Policy): Plan {
    if calls == [] then NothingProposed("model did not propose a LIFX function call")
    else
      var commands := FlatMap(calls, Proposed(inventory, named, policy));
      if commands == [] then NothingProposed("model proposal had no valid target and action")
      else Proposal("Model proposal for: " + text, Merge(commands))
  }

  method GatherSerials(call: Call, inventory: Inventory, named: seq<string>) returns (serials: seq<string>)
    ensures serials == Serials(call, inventory, named)
  {
    serials := [];
    for i := 0 to |call.selectors|
      invariant serials == FlatMap(call.selectors[..i], Lookup(inventory))
    {
      assert call.selectors[..i + 1][..i] == call.selectors[..i];
      serials := serials + (if call.selectors[i] in inventory then inventory[call.selectors[i]] else []);
    }
    assert call.selectors[..|call.selectors|] == call.selectors;
    if call.selectors == [] {
      serials := serials + call.serials;
    }
    if named != [] {
      serials := named;
    }
  }

  /** The body of the loop: append the command of one call, if it has devices and an action. */
  method AppendProposed(before: seq<Command>, call: Call, inventory: Inventory, named: seq<string>, policy: Policy)
    returns (commands: seq<Command>)
    ensures commands == before + Proposed(inventory, named, policy)(call)
  {
    commands := before;
    var serials := GatherSerials(call, inventory, named);
    var action := policy(call.proposed);
    if serials != [] && action != map[] {
      commands := commands + [Command(Dedup(serials), action)];
    }
  }

  method ExtractPlan(calls: seq<Call>, text: string, inventory: Inventory, named: seq<string>, policy: Policy)
    returns (plan: Plan)
    ensures plan == Extract(calls, text, inventory, named, policy)
  {
    if calls == [] {
      return NothingProposed("model did not propose a LIFX function call");
    }
    var commands: seq<Command> := [];
    for i := 0 to |calls|
      invariant commands == FlatMap(calls[..i], Proposed(inventory, named, policy))
    {
      assert calls[..i + 1][..i] == calls[..i];
      commands := AppendProposed(commands, calls[i], inventory, named, policy);
    }
    assert calls[..|calls|] == calls;
    if commands == [] {
      return NothingProposed("model proposal had no valid target and action");
    }
    var merged := MergeCommands.MergeCommands(commands);
    plan := Proposal("Model proposal for: " + text, merged);
  }

  /* ------------------------------------------------------------------ */
  /* What a plan contains                                               */
  /* ------------------------------------------------------------------ */

  ghost predicate FromCall(c: Command, call: Call, inventory: Inventory, named: seq<string>, policy: Policy) {
    && Serials(call, inventory, named) != [] && c.targets == Dedup(Serials(call, inventory, named))
    && c.action == policy(call.proposed) != map[]
  }

  lemma {:induction false} CommandFromCall(calls: seq<Call>, i: nat, inventory: Inventory, named: seq<string>,
      policy: Policy)
    returns (k: nat)
    requires i < |FlatMap(calls, Proposed(inventory, named, policy))|
    ensures k < |calls|
        && FromCall(FlatMap(calls, Proposed(inventory, named, policy))[i], calls[k], inventory, named, policy)
  {
    var front := calls[..|calls| - 1];
    if i < |FlatMap(front, Proposed(inventory, named, policy))| {
      k := CommandFromCall(front, i, inventory, named, policy);
    } else {
      k := |calls| - 1;
    }
  }

  lemma {:induction false} UsableCallCounts(calls: seq<Call>, k: nat, inventory: Inventory, named: seq<string>,
      policy: Policy)
    requires k < |calls| && Serials(calls[k], inventory, named) != [] && policy(calls[k].proposed) != map[]
    ensures FlatMap(calls, Proposed(inventory, named, policy)) != []
  {
    if k < |calls| - 1 {
      UsableCallCounts(calls[..|calls| - 1], k, inventory, named, policy);
    }
  }

  /** A group keeps every field its commands set. */
  lemma {:induction false} GroupKeeps(commands: seq<Command>, i: nat)
    requires i < |commands|
    ensures commands[i].action.Keys <= GroupAction(commands, SetOf(commands[i].targets)).Keys
  {
    if i < |commands| - 1 {
      GroupKeeps(commands[..|commands| - 1], i);
    }
  }

  lemma MergedFromCalls(calls: seq<Call>, c: Command, inventory: Inventory, named: seq<string>, policy: Policy)
    returns (k: nat)
    requires c in Merge(FlatMap(calls, Proposed(inventory, named, policy)))
    ensures k < |calls| && Serials(calls[k], inventory, named) != [] && policy(calls[k].proposed) != map[]
    ensures c.targets == Dedup(Serials(calls[k], inventory, named)) && c.action != map[]
  {
    var commands := FlatMap(calls, Proposed(inventory, named, policy));
    MergeGroups(commands);
    assert ListedAsFirst(c, commands);
    var i :| 0 <= i < |commands| && SetOf(commands[i].targets) == SetOf(c.targets)
        && c.targets == Dedup(commands[i].targets);
    k := CommandFromCall(calls, i, inventory, named, policy);
    GroupKeeps(commands, i);
    DedupOnce(Serials(calls[k], inventory, named));
    NonEmptyKeys(commands[i].action);
  }

  lemma NonEmptyKeys(action: Action)
    requires action != map[]
    ensures action.Keys != {}
  {
    var f :| f in action;
  }

  lemma {:induction false} DedupFixed(s: seq<string>)
    requires Distinct(s)
    ensures Dedup(s) == s
  {
    if s != [] {
      DedupFixed(s[..|s| - 1]);
      assert s == s[..|s| - 1] + [s[|s| - 1]];
    }
  }

  lemma DedupOnce(s: seq<string>)
    ensures Dedup(Dedup(s)) == Dedup(s)
  {
    DedupFixed(Dedup(s));
  }

  lemma {:induction false} FlatMapMember(selectors: seq<string>, inventory: Inventory, serial: string) returns (k: nat)
    requires serial in FlatMap(selectors, Lookup(inventory))
    ensures k < |selectors| && serial in Get(inventory, selectors[k])
  {
    var front := selectors[..|selectors| - 1];
    if serial in FlatMap(front, Lookup(inventory)) {
      k := FlatMapMember(front, inventory, serial);
    } else {
      k := |selectors| - 1;
    }
  }

  /**
   Every proposed command has a non-empty action and at least one device, no device twice, and no
   two commands are for the same set of devices.
   */
  lemma ProposalsAreWellFormed(calls: seq<Call>, text: string, inventory: Inventory, named: seq<string>, policy: Policy)
    ensures forall c | c in Extract(calls, text, inventory, named, policy).Commands() ::
              c.targets != [] && Distinct(c.targets) && c.action != map[]
    ensures Distinct(Sets(Extract(calls, text, inventory, named, policy).Commands()))
  {
    var plan := Extract(calls, text, inventory, named, policy);
    if plan.Proposal? {
      MergeGroups(FlatMap(calls, Proposed(inventory, named, policy)));
      forall c | c in plan.commands
        ensures c.targets != [] && Distinct(c.targets) && c.action != map[]
      {
        var k := MergedFromCalls(calls, c, inventory, named, policy);
        assert Serials(calls[k], inventory, named)[0] in c.targets;
      }
    }
  }

  /** A plan has commands exactly if some call has both a device and an action; its confidence says which. */
  lemma ProposesExactlyUsableCalls(calls: seq<Call>, text: string, inventory: Inventory, named: seq<string>,
      policy: Policy)
    ensures var plan := Extract(calls, text, inventory, named, policy);
            && (plan.Commands() != [] <==> plan.Confidence() == 0.65)
            && (plan == NothingProposed("model did not propose a LIFX function call") <==> calls == [])
            && (plan.Commands() != [] <==>
                exists k :: 0 <= k < |calls| && Serials(calls[k], inventory, named) != []
                    && policy(calls[k].proposed) != map[])
  {
    var commands := FlatMap(calls, Proposed(inventory, named, policy));
    if k :| 0 <= k < |calls| && Serials(calls[k], inventory, named) != [] && policy(calls[k].proposed) != map[] {
      UsableCallCounts(calls, k, inventory, named, policy);
    }
    if commands != [] {
      var k := CommandFromCall(calls, 0, inventory, named, policy);
      MergeGroups(commands);
      assert Sets(commands)[0] in Dedup(Sets(commands));
      assert |Merge(commands)| == |Dedup(Sets(commands))|;
    }
  }

  /** With selectors from the inventory, or devices named in the text, only devices of the snapshot are addressed. */
  lemma ProposalsStayInSnapshot(calls: seq<Call>, text: string, snapshot: seq<Device>, mentions: Mentions,
      policy: Policy, serial: string)
    requires forall call | call in calls :: call.selectors != [] || call.serials == []
    requires exists c ::
        && c in Extract(calls, text, Inventoried(snapshot), Named(snapshot, mentions), policy).Commands()
        && serial in c.targets
    ensures exists d :: d in snapshot && d.serial == serial
  {
    var inventory, named := Inventoried(snapshot), Named(snapshot, mentions);
    var c :| c in Extract(calls, text, inventory, named, policy).Commands() && serial in c.targets;
    var k := MergedFromCalls(calls, c, inventory, named, policy);
    assert calls[k] in calls;
    if named != [] {
      NamedIsMostSpecific(snapshot, mentions, serial);
    } else {
      var s := FlatMapMember(calls[k].selectors, inventory, serial);
      InventoryKnows(snapshot, calls[k].selectors[s], serial);
    }
  }

  /* ------------------------------------------------------------------ */
  /* Devices named in the text                                          */
  /* ------------------------------------------------------------------ */

  lemma {:induction false} DedupConstant<T>(s: seq<T>, x: T)
    requires s != [] && forall i | 0 <= i < |s| :: s[i] == x
    ensures Dedup(s) == [x]
  {
    var front := s[..|s| - 1];
    if front != [] {
      DedupConstant(front, x);
    }
  }

  lemma NamedCommands(calls: seq<Call>, inventory: Inventory, named: seq<string>, policy: Policy)
    requires named != []
    ensures forall i | 0 <= i < |FlatMap(calls, Proposed(inventory, named, policy))| ::
              FlatMap(calls, Proposed(inventory, named, policy))[i].targets == Dedup(named)
  {
    forall i | 0 <= i < |FlatMap(calls, Proposed(inventory, named, policy))|
      ensures FlatMap(calls, Proposed(inventory, named, policy))[i].targets == Dedup(named)
    {
      var k := CommandFromCall(calls, i, inventory, named, policy);
    }
  }

  /** When the text names devices the plan has at most one command, for exactly these devices. */
  lemma NamedDevicesGetOneCommand(calls: seq<Call>, text: string, inventory: Inventory, named: seq<string>,
      policy: Policy)
    requires named != []
    ensures |Extract(calls, text, inventory, named, policy).Commands()| <= 1
    ensures forall c | c in Extract(calls, text, inventory, named, policy).Commands() :: c.targets == Dedup(named)
  {
    var commands := FlatMap(calls, Proposed(inventory, named, policy));
    if commands != [] {
      NamedCommands(calls, inventory, named, policy);
      MergeGroups(commands);
      DedupConstant(Sets(commands), SetOf(Dedup(named)));
      assert |Sets(Merge(commands))| == 1;
      forall c | c in Merge(commands)
        ensures c.targets == Dedup(named)
      {
        var k := MergedFromCalls(calls, c, inventory, named, policy);
      }
    }
  }

  /** Merging the calls into that one command leaves the devices with the fields the calls in turn would give them. */
  lemma NamedDevicesKeepTheirFields(calls: seq<Call>, text: string, inventory: Inventory, named: seq<string>,
      policy: Policy, device: string)
    requires named != []
    ensures Final(Extract(calls, text, inventory, named, policy).Commands(), device)
         == Final(FlatMap(calls, Proposed(inventory, named, policy)), device)
  {
    var commands := FlatMap(calls, Proposed(inventory, named, policy));
    NamedCommands(calls, inventory, named, policy);
    EqualOrDisjointIsSafe(commands);
  }

  /* ------------------------------------------------------------------ */
  /* Every call contributes                                             */
  /* ------------------------------------------------------------------ */

  /** The call is for this device: the text names it, or, if the text names none, some selector
      of the call stands for it, or the call has no selectors and lists it. */
  ghost predicate IsFor(call: Call, serial: string, inventory: Inventory, named: seq<string>) {
    if named != [] then serial in named
    else if call.selectors != [] then
      exists i :: 0 <= i < |call.selectors| && call.selectors[i] in inventory
                  && serial in inventory[call.selectors[i]]
    else serial in call.serials
  }

  lemma {:induction false} SelectorsContribute(selectors: seq<string>, i: nat, inventory: Inventory, serial: string)
    requires i < |selectors| && serial in Get(inventory, selectors[i])
    ensures serial in FlatMap(selectors, Lookup(inventory))
  {
    if i < |selectors| - 1 {
      SelectorsContribute(selectors[..|selectors| - 1], i, inventory, serial);
    }
  }

  lemma SerialsMeaning(call: Call, inventory: Inventory, named: seq<string>, serial: string)
    ensures serial in Serials(call, inventory, named) <==> IsFor(call, serial, inventory, named)
  {
    if named == [] && call.selectors != [] {
      if serial in FlatMap(call.selectors, Lookup(inventory)) {
        var k := FlatMapMember(call.selectors, inventory, serial);
      }
      if i :| 0 <= i < |call.selectors| && call.selectors[i] in inventory && serial in inventory[call.selectors[i]] {
        SelectorsContribute(call.selectors, i, inventory, serial);
      }
    }
  }

  lemma {:induction false} CallIsProposed(calls: seq<Call>, k: nat, inventory: Inventory, named: seq<string>,
      policy: Policy)
    returns (i: nat)
    requires k < |calls| && Serials(calls[k], inventory, named) != [] && policy(calls[k].proposed) != map[]
    ensures var commands := FlatMap(calls, Proposed(inventory, named, policy));
      i < |commands| && FromCall(commands[i], calls[k], inventory, named, policy)
  {
    var front := calls[..|calls| - 1];
    if k < |calls| - 1 {
      i := CallIsProposed(front, k, inventory, named, policy);
    } else {
      i := |FlatMap(front, Proposed(inventory, named, policy))|;
    }
  }

  /** The merged command for a group of devices. */
  lemma GroupIsMerged(commands: seq<Command>, i: nat) returns (c: Command)
    requires i < |commands|
    ensures c in Merge(commands) && SetOf(c.targets) == SetOf(commands[i].targets)
    ensures commands[i].action.Keys <= c.action.Keys
  {
    MergeGroups(commands);
    var group := SetOf(commands[i].targets);
    assert Sets(commands)[i] == group;
    assert group in Sets(Merge(commands));
    var a :| 0 <= a < |Merge(commands)| && Sets(Merge(commands))[a] == group;
    c := Merge(commands)[a];
    GroupKeeps(commands, i);
  }

  /** Every call with an action sets its fields on every device it is for. */
  lemma EveryCallContributes(calls: seq<Call>, text: string, inventory: Inventory, named: seq<string>,
      policy: Policy, k: nat, serial: string)
    returns (c: Command)
    requires k < |calls| && IsFor(calls[k], serial, inventory, named) && policy(calls[k].proposed) != map[]
    ensures c in Extract(calls, text, inventory, named, policy).Commands() && serial in c.targets
    ensures policy(calls[k].proposed).Keys <= c.action.Keys
  {
    SerialsMeaning(calls[k], inventory, named, serial);
    var i := CallIsProposed(calls, k, inventory, named, policy);
    var commands := FlatMap(calls, Proposed(inventory, named, policy));
    c := GroupIsMerged(commands, i);
    assert serial in commands[i].targets;
    assert serial in SetOf(c.targets);
  }

  /** The plan addresses exactly the devices that some call with an action is for. */
  lemma AddressesExactly(calls: seq<Call>, text: string, inventory: Inventory, named: seq<string>, policy: Policy,
      serial: string)
    ensures (exists c :: c in Extract(calls, text, inventory, named, policy).Commands() && serial in c.targets)
       <==> exists k :: 0 <= k < |calls| && IsFor(calls[k], serial, inventory, named)
                        && policy(calls[k].proposed) != map[]
  {
    if c :| c in Extract(calls, text, inventory, named, policy).Commands() && serial in c.targets {
      var k := MergedFromCalls(calls, c, inventory, named, policy);
      SerialsMeaning(calls[k], inventory, named, serial);
    }
    if k :| 0 <= k < |calls| && IsFor(calls[k], serial, inventory, named) && policy(calls[k].proposed) != map[] {
      var c := EveryCallContributes(calls, text, inventory, named, policy, k, serial);
    }
  }
}
