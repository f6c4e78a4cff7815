/**
 What merging means for the devices. Running a list of commands sets, on every device a
 command names, the fields of its action; merging may move a command before one that it
 followed, and exactly then can the final fields differ.
 */
module MergeMeaning {
  import opened Sorting
  import opened MergeCommands

  /** What one command does to the fields of a device. */
  function Applied(before: Action, c: Command, device: string): Action {
    if device in c.targets then before + c.action else before
  }

  /** The fields a device ends up with. */
  function Final(commands: seq<Command>, device: string): Action {
    if commands == [] then map[]
    else Applied(Final(commands[..|commands| - 1], device), commands[|commands| - 1], device)
  }

  ghost predicate SameMeaning(commands: seq<Command>) {
    forall device :: Final(Merge(commands), device) == Final(commands, device)
  }

  /** Commands i and k are for the same devices, and j between them for an overlapping other set. */
  ghost predicate Straddles(sets: seq<set<string>>, i: nat, j: nat, k: nat) {
    i < j < k < |sets| && sets[i] == sets[k] && sets[j] != sets[k] && sets[j] * sets[k] != {}
  }

  ghost predicate NoStraddle(sets: seq<set<string>>) {
    forall i: nat, j: nat, k: nat :: !Straddles(sets, i, j, k)
  }

  /* ------------------------------------------------------------------ */
  /* Without a straddle, merging preserves the meaning                  */
  /* ------------------------------------------------------------------ */

  lemma FinalAppend(commands: seq<Command>, c: Command, device: string)
    ensures Final(commands + [c], device) == Applied(Final(commands, device), c, device)
  {
    assert (commands + [c])[..|commands|] == commands;
  }

  /** Commands that do not name a device do not change it. */
  lemma {:induction false} FinalSkips(commands: seq<Command>, at: nat, device: string)
    requires at < |commands| && forall b | at < b < |commands| :: device !in commands[b].targets
    ensures Final(commands, device) == Final(commands[..at + 1], device)
  {
    if at + 1 < |commands| {
      var front := commands[..|commands| - 1];
      FinalSkips(front, at, device);
      assert front[..at + 1] == commands[..at + 1];
    } else {
      assert commands[..at + 1] == commands;
    }
  }

  /** Adding fields to a command after which no command names the device. */
  lemma FinalUpdate(commands: seq<Command>, at: nat, more: Action, device: string)
    requires at < |commands|
    requires device in commands[at].targets ==> forall b | at < b < |commands| :: device !in commands[b].targets
    ensures Final(commands[at := Extended(commands[at], more)], device)
         == Applied(Final(commands, device), Command(commands[at].targets, more), device)
  {
    var updated := commands[at := Extended(commands[at], more)];
    if device in commands[at].targets {
      FinalUpTo(commands, at, device);
      FinalUpTo(updated, at, device);
      assert updated[..at] == commands[..at];
      var before := Final(commands[..at], device);
      assert before + (commands[at].action + more) == before + commands[at].action + more;
    } else {
      FinalOthers(commands, updated, at, device);
    }
  }

  /** The last command that names the device. */
  lemma FinalUpTo(commands: seq<Command>, at: nat, device: string)
    requires at < |commands| && device in commands[at].targets
    requires forall b | at < b < |commands| :: device !in commands[b].targets
    ensures Final(commands, device) == Final(commands[..at], device) + commands[at].action
  {
    FinalSkips(commands, at, device);
    assert commands[..at + 1] == commands[..at] + [commands[at]];
    FinalAppend(commands[..at], commands[at], device);
  }

  lemma {:induction false} FinalOthers(commands: seq<Command>, updated: seq<Command>, at: nat, device: string)
    requires |updated| == |commands| && at < |commands|
    requires forall b | 0 <= b < |commands| && b != at :: updated[b] == commands[b]
    requires device !in commands[at].targets && device !in updated[at].targets
    ensures Final(updated, device) == Final(commands, device)
  {
    var n := |commands| - 1;
    if at == n {
      assert updated[..n] == commands[..n];
    } else {
      FinalOthers(commands[..n], updated[..n], at, device);
    }
  }

  /** A later entry of the merged list never overlaps an entry that one more command extends. */
  lemma LaterEntriesDisjoint(commands: seq<Command>, at: nat, b: nat, device: string)
    requires commands != [] && NoStraddle(Sets(commands))
    requires at < b < |Dedup(Sets(commands[..|commands| - 1]))|
    requires Dedup(Sets(commands[..|commands| - 1]))[at] == SetOf(commands[|commands| - 1].targets)
    requires device in commands[|commands| - 1].targets
    ensures device !in Dedup(Sets(commands[..|commands| - 1]))[b]
  {
    var front := commands[..|commands| - 1];
    SetsSplit(commands);
    var i, j := DedupOrder(Sets(front), at, b);
    if device in Dedup(Sets(front))[b] {
      assert device in Sets(commands)[j] * Sets(commands)[|commands| - 1];
      assert Straddles(Sets(commands), i, j, |commands| - 1);
    }
  }

  lemma NoStraddlePrefix(commands: seq<Command>)
    requires commands != [] && NoStraddle(Sets(commands))
    ensures NoStraddle(Sets(commands[..|commands| - 1]))
  {
    SetsSplit(commands);
    if !NoStraddle(Sets(commands[..|commands| - 1])) {
      var i: nat, j: nat, k: nat :| Straddles(Sets(commands[..|commands| - 1]), i, j, k);
      assert Straddles(Sets(commands), i, j, k);
    }
  }

  lemma {:induction false} PreservedFor(commands: seq<Command>, device: string)
    requires NoStraddle(Sets(commands))
    ensures Final(Merge(commands), device) == Final(commands, device)
  {
    if commands != [] {
      var front, c := commands[..|commands| - 1], commands[|commands| - 1];
      NoStraddlePrefix(commands);
      PreservedFor(front, device);
      MergedIsGrouped(front);
      if SetOf(c.targets) in Sets(front) {
        MergeExtends(commands, device);
      } else {
        MergeAppends(commands, device);
      }
    }
  }

  lemma MergeAppends(commands: seq<Command>, device: string)
    requires commands != [] && SetOf(commands[|commands| - 1].targets) !in Sets(commands[..|commands| - 1])
    ensures Final(Merge(commands), device)
         == Applied(Final(Merge(commands[..|commands| - 1]), device), commands[|commands| - 1], device)
  {
    var front, c := commands[..|commands| - 1], commands[|commands| - 1];
    MergedIsGrouped(front);
    NewKey(Merged(front), front, c);
    PutAppends(Merged(front), c);
    assert Merge(commands) == Merge(front) + [Command(Dedup(c.targets), c.action)];
    FinalAppend(Merge(front), Command(Dedup(c.targets), c.action), device);
  }

  lemma NoneAfter(commands: seq<Command>, merged: seq<Command>, at: nat, device: string)
    requires commands != [] && NoStraddle(Sets(commands))
    requires merged == Merge(commands[..|commands| - 1])
    requires at < |merged| && SetOf(merged[at].targets) == SetOf(commands[|commands| - 1].targets)
    requires device in commands[|commands| - 1].targets
    ensures forall b | at < b < |merged| :: device !in merged[b].targets
  {
    MergeGroups(commands[..|commands| - 1]);
    assert Sets(merged)[at] == SetOf(merged[at].targets);
    forall b | at < b < |merged|
      ensures device !in merged[b].targets
    {
      LaterEntriesDisjoint(commands, at, b, device);
      assert Sets(merged)[b] == SetOf(merged[b].targets);
    }
  }

  lemma MergeUpdates(commands: seq<Command>, merged: seq<Command>) returns (at: nat)
    requires commands != [] && merged == Merge(commands[..|commands| - 1])
    requires SetOf(commands[|commands| - 1].targets) in Sets(commands[..|commands| - 1])
    ensures at < |merged| && SetOf(merged[at].targets) == SetOf(commands[|commands| - 1].targets)
    ensures Merge(commands) == merged[at := Extended(merged[at], commands[|commands| - 1].action)]
  {
    var front := commands[..|commands| - 1];
    MergedIsGrouped(front);
    at := PutKnown(Merged(front), commands);
    MergedEntry(front, at);
    ValuesUpdate(Merged(front), at,
        Entry(Merged(front)[at].key, Extended(Merged(front)[at].command, commands[|commands| - 1].action)));
  }

  lemma ValuesUpdate(entries: seq<Entry>, at: nat, e: Entry)
    requires at < |entries|
    ensures Values(entries[at := e]) == Values(entries)[at := e.command]
  {
  }

  lemma MergeExtends(commands: seq<Command>, device: string)
    requires commands != [] && NoStraddle(Sets(commands))
    requires SetOf(commands[|commands| - 1].targets) in Sets(commands[..|commands| - 1])
    ensures Final(Merge(commands), device)
         == Applied(Final(Merge(commands[..|commands| - 1]), device), commands[|commands| - 1], device)
  {
    var merged, c := Merge(commands[..|commands| - 1]), commands[|commands| - 1];
    var at := MergeUpdates(commands, merged);
    assert device in merged[at].targets <==> device in c.targets by {
      assert device in SetOf(merged[at].targets) <==> device in SetOf(c.targets);
    }
    if device in c.targets {
      NoneAfter(commands, merged, at, device);
    }
    FinalUpdate(merged, at, c.action, device);
  }

  /* ------------------------------------------------------------------ */
  /* With one, some actions show a difference                           */
  /* ------------------------------------------------------------------ */

  /** The last command for the device that sets the field decides it. */
  lemma {:induction false} LastWriter(commands: seq<Command>, device: string, p: nat, f: Field)
    requires p < |commands| && device in commands[p].targets && f in commands[p].action
    requires forall q | p < q < |commands| :: f !in commands[q].action
    ensures f in Final(commands, device) && Final(commands, device)[f] == commands[p].action[f]
  {
    if p < |commands| - 1 {
      LastWriter(commands[..|commands| - 1], device, p, f);
    }
  }

  /** A field of a group's action comes from a command of the group, and none is lost. */
  lemma {:induction false} GroupField(commands: seq<Command>, group: set<string>, f: Field) returns (i: nat)
    ensures f in GroupAction(commands, group) ==>
              && i < |commands| && SetOf(commands[i].targets) == group
              && f in commands[i].action && commands[i].action[f] == GroupAction(commands, group)[f]
    ensures f !in GroupAction(commands, group) ==>
              forall k | 0 <= k < |commands| && SetOf(commands[k].targets) == group :: f !in commands[k].action
  {
    i := 0;
    if commands != [] {
      i := GroupField(commands[..|commands| - 1], group, f);
      if SetOf(commands[|commands| - 1].targets) == group && f in commands[|commands| - 1].action {
        i := |commands| - 1;
      }
    }
  }

  function WithActions(targets: seq<seq<string>>, actions: seq<Action>): (r: seq<Command>)
    requires |targets| == |actions|
    ensures |r| == |targets|
    ensures forall i | 0 <= i < |r| :: r[i] == Command(targets[i], actions[i])
  {
    seq(|targets|, i requires 0 <= i < |targets| => Command(targets[i], actions[i]))
  }

  function TargetSets(targets: seq<seq<string>>): (r: seq<set<string>>)
    ensures |r| == |targets|
    ensures forall i | 0 <= i < |r| :: r[i] == SetOf(targets[i])
  {
    seq(|targets|, i requires 0 <= i < |targets| => SetOf(targets[i]))
  }

  /** `earlier` switches on, `later` switches off, and every other command only sets a duration. */
  function Contrast(n: nat, earlier: nat, later: nat): (r: seq<Action>)
    requires earlier < later < n
    ensures |r| == n
    ensures r[earlier] == map[Power := Flag(true)] && r[later] == map[Power := Flag(false)]
    ensures forall i | 0 <= i < n && i != earlier && i != later :: r[i] == map[DurationMS := Whole(0)]
  {
    seq(n, i requires 0 <= i < n =>
      if i == earlier then map[Power := Flag(true)]
      else if i == later then map[Power := Flag(false)]
      else map[DurationMS := Whole(0)])
  }

  /** Of any straddle, the three first occurrences form one. */
  lemma FirstStraddle(sets: seq<set<string>>, i: nat, j: nat, k: nat) returns (i0: nat, j0: nat, k0: nat)
    requires Straddles(sets, i, j, k)
    ensures Straddles(sets, i0, j0, k0) && sets[i0] !in sets[..i0] && sets[j0] !in sets[..j0]
  {
    var p := FirstIndex(sets, sets[i]);
    var q := FirstIndex(sets, sets[j]);
    assert p <= i && q <= j;
    if p < q {
      i0, j0, k0 := p, q, k;
    } else {
      i0, j0, k0 := q, p, j;
    }
  }

  /** The merged list puts the group that `k` belongs to before the group of `j`. */
  lemma MovedBefore(commands: seq<Command>, i: nat, j: nat, k: nat, device: string) returns (b: nat)
    requires Straddles(Sets(commands), i, j, k)
    requires Sets(commands)[i] !in Sets(commands)[..i] && Sets(commands)[j] !in Sets(commands)[..j]
    requires device in commands[j].targets
    requires Power in commands[j].action && Power in commands[k].action
    requires forall q | 0 <= q < |commands| && q != j && q != k :: Power !in commands[q].action
    ensures b < |Merge(commands)| && device in Merge(commands)[b].targets
    ensures Power in Merge(commands)[b].action && Merge(commands)[b].action[Power] == commands[j].action[Power]
    ensures forall q | b < q < |Merge(commands)| :: Power !in Merge(commands)[q].action
  {
    var merged := Merge(commands);
    MergeGroups(commands);
    var a: nat;
    a, b := DedupFollows(Sets(commands), i, j);
    assert Sets(merged)[b] == SetOf(merged[b].targets) == SetOf(commands[j].targets);
    assert device in SetOf(merged[b].targets);
    assert merged[b] in merged;
    var w := GroupField(commands, SetOf(merged[b].targets), Power);
    forall q | b < q < |merged|
      ensures Power !in merged[q].action
    {
      assert merged[q] in merged;
      assert Sets(merged)[q] != Sets(merged)[b] && Sets(merged)[q] != Sets(merged)[a];
      var v := GroupField(commands, SetOf(merged[q].targets), Power);
    }
  }

  /** With contrasting actions, the device keeps the moved value although the later command overrode it. */
  lemma ContrastShows(commands: seq<Command>, i: nat, j: nat, k: nat)
    requires Straddles(Sets(commands), i, j, k)
    requires Sets(commands)[i] !in Sets(commands)[..i] && Sets(commands)[j] !in Sets(commands)[..j]
    requires commands[j].action == map[Power := Flag(true)] && commands[k].action == map[Power := Flag(false)]
    requires forall q | 0 <= q < |commands| && q != j && q != k :: Power !in commands[q].action
    ensures !SameMeaning(commands)
  {
    var device :| device in Sets(commands)[j] * Sets(commands)[k];
    assert device in commands[j].targets && device in commands[k].targets;
    var b := MovedBefore(commands, i, j, k, device);
    LastWriter(Merge(commands), device, b, Power);
    LastWriter(commands, device, k, Power);
    assert Final(Merge(commands), device) != Final(commands, device);
  }

  /** A straddle is enough for merging to change what some actions do. */
  lemma StraddleShows(targets: seq<seq<string>>, i: nat, j: nat, k: nat) returns (actions: seq<Action>)
    requires Straddles(TargetSets(targets), i, j, k)
    ensures |actions| == |targets| && map[] !in actions
    ensures !SameMeaning(WithActions(targets, actions))
  {
    var i0, j0, k0 := FirstStraddle(TargetSets(targets), i, j, k);
    actions := Contrast(|targets|, j0, k0);
    var commands := WithActions(targets, actions);
    assert Sets(commands) == TargetSets(targets);
    assert forall a | a in actions :: a != map[] by {
      assert map[Power := Flag(true)][Power] == Flag(true) && map[Power := Flag(false)][Power] == Flag(false);
      assert map[DurationMS := Whole(0)][DurationMS] == Whole(0);
    }
    ContrastShows(commands, i0, j0, k0);
  }

  /* ------------------------------------------------------------------ */
  /* Theorems                                                           */
  /* ------------------------------------------------------------------ */

  /** Without a straddle every device ends with the same fields, whatever the actions are. */
  lemma MergePreservesMeaning(commands: seq<Command>)
    requires NoStraddle(Sets(commands))
    ensures SameMeaning(commands)
  {
    forall device
      ensures Final(Merge(commands), device) == Final(commands, device)
    {
      PreservedFor(commands, device);
    }
  }

  /** And only then: exactly the lists without a straddle may be merged whatever (non-empty) actions they carry. */
  lemma MergeIsSafeExactly(targets: seq<seq<string>>)
    ensures (forall actions: seq<Action> | |actions| == |targets| && map[] !in actions ::
        SameMeaning(WithActions(targets, actions)))
       <==> NoStraddle(TargetSets(targets))
  {
    if NoStraddle(TargetSets(targets)) {
      forall actions: seq<Action> | |actions| == |targets| && map[] !in actions
        ensures SameMeaning(WithActions(targets, actions))
      {
        assert Sets(WithActions(targets, actions)) == TargetSets(targets);
        MergePreservesMeaning(WithActions(targets, actions));
      }
    } else {
      var i: nat, j: nat, k: nat :| Straddles(TargetSets(targets), i, j, k);
      var actions := StraddleShows(targets, i, j, k);
    }
  }

  /** In particular target sets that are pairwise equal or disjoint merge safely. */
  lemma EqualOrDisjointIsSafe(commands: seq<Command>)
    requires forall i, j | 0 <= i < j < |commands| ::
               SetOf(commands[i].targets) == SetOf(commands[j].targets)
                   || SetOf(commands[i].targets) !! SetOf(commands[j].targets)
    ensures SameMeaning(commands)
  {
    MergePreservesMeaning(commands);
  }
}
