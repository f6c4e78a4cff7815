/**
 `merge_commands` of runtimes/functiongemma/runner.py: commands for the same set of devices
 become one command at the place of the first, later fields winning.
 */
module MergeCommands {
  import opened Sorting

  datatype Field = Power | Hue | Saturation | Brightness | Kelvin | DurationMS

  datatype Value = Flag(on: bool) | Number(amount: real) | Whole(count: int)

  /** An action is a Python dict; `update` is the right-biased union of maps. */
  type Action = map<Field, Value>

  datatype Command = Command(targets: seq<string>, action: Action)

  /** One item of the dict `merged`, which keeps its keys in insertion order. */
  datatype Entry = Entry(key: seq<string>, command: Command)

  function Key(targets: seq<string>): seq<string> {
    StringOrder();
    Sort(Dedup(targets), StringLE)
  }

  /** Where the key stands, or the length if it is new. */
  function Position(entries: seq<Entry>, key: seq<string>): (i: nat)
    ensures i <= |entries|
    ensures i < |entries| ==> entries[i].key == key
    ensures forall k | 0 <= k < i :: entries[k].key != key
  {
    if entries == [] || entries[0].key == key then 0
    else
      assert entries == [entries[0]] + entries[1..];
      1 + Position(entries[1..], key)
  }

  /** The command with more fields. */
  function Extended(c: Command, more: Action): Command {
    Command(c.targets, c.action + more)
  }

  /** `setdefault` followed by `update`. */
  function Put(entries: seq<Entry>, c: Command): (r: seq<Entry>)
    ensures |entries| <= |r| <= |entries| + 1
  {
    var at := Position(entries, Key(c.targets));
    var present :=
      if at < |entries| then entries
      else entries + [Entry(Key(c.targets), Command(Dedup(c.targets), map[]))];
    present[at := Entry(present[at].key, Extended(present[at].command, c.action))]
  }

  function Merged(commands: seq<Command>): seq<Entry> {
    if commands == [] then [] else Put(Merged(commands[..|commands| - 1]), commands[|commands| - 1])
  }

  function Values(entries: seq<Entry>): (r: seq<Command>)
    ensures |r| == |entries|
    ensures forall i | 0 <= i < |r| :: r[i] == entries[i].command
  {
    if entries == [] then [] else Values(entries[..|entries| - 1]) + [entries[|entries| - 1].command]
  }

  function Merge(commands: seq<Command>): seq<Command> {
    Values(Merged(commands))
  }

  method MergeCommands(commands: seq<Command>) returns (result: seq<Command>)
    ensures result == Merge(commands)
  {
    StringOrder();
    var merged: seq<Entry> := [];
    for c := 0 to |commands|
      invariant merged == Merged(commands[..c])
    {
      var command := commands[c];
      var targets: seq<string> := [];
      for t := 0 to |command.targets|
        invariant targets == Dedup(command.targets[..t])
      {
        assert command.targets[..t + 1][..t] == command.targets[..t];
        if command.targets[t] !in targets {
          targets := targets + [command.targets[t]];
        }
      }
      assert command.targets[..|command.targets|] == command.targets;
      var key := Sort(targets, StringLE);
      var at := Position(merged, key);
      if at == |merged| {
        merged := merged + [Entry(key, Command(targets, map[]))];
      }
      var existing := merged[at];
      merged := merged[at := Entry(existing.key,
          Command(existing.command.targets, existing.command.action + command.action))];
      assert commands[..c + 1][..c] == commands[..c];
    }
    assert commands[..|commands|] == commands;
    result := Values(merged);
  }

  /* ------------------------------------------------------------------ */
  /* Target sets                                                        */
  /* ------------------------------------------------------------------ */

  function SetOf(targets: seq<string>): set<string> {
    set t | t in targets
  }

  function Sets(commands: seq<Command>): (r: seq<set<string>>)
    ensures |r| == |commands|
    ensures forall i | 0 <= i < |r| :: r[i] == SetOf(commands[i].targets)
  {
    seq(|commands|, i requires 0 <= i < |commands| => SetOf(commands[i].targets))
  }

  lemma KeysAgree(a: seq<string>, b: seq<string>)
    ensures Key(a) == Key(b) <==> multiset(Dedup(a)) == multiset(Dedup(b))
  {
    StringOrder();
    SortsAgree(Dedup(a), Dedup(b), StringLE);
  }

  lemma SetsAgree(a: seq<string>, b: seq<string>)
    ensures multiset(Dedup(a)) == multiset(Dedup(b)) <==> SetOf(a) == SetOf(b)
  {
    DistinctLists(Dedup(a), Dedup(b));
    DedupSet(a);
    DedupSet(b);
    SameMembers(Dedup(a), Dedup(b));
  }

  lemma SameMembers(a: seq<string>, b: seq<string>)
    ensures (forall x :: x in a <==> x in b) <==> SetOf(a) == SetOf(b)
  {
    assert forall x :: (x in a <==> x in SetOf(a)) && (x in b <==> x in SetOf(b));
  }

  /** The key identifies the set of targets: neither order nor repetition matters. */
  lemma KeyIsTargetSet(a: seq<string>, b: seq<string>)
    ensures Key(a) == Key(b) <==> SetOf(a) == SetOf(b)
  {
    KeysAgree(a, b);
    SetsAgree(a, b);
  }

  /** Dedup does not change the set of targets. */
  lemma DedupSet(targets: seq<string>)
    ensures SetOf(Dedup(targets)) == SetOf(targets)
  {
  }

  /** The right-biased union of the actions of the commands for exactly these devices. */
  ghost function GroupAction(commands: seq<Command>, group: set<string>): Action {
    if commands == [] then map[]
    else
      var before := GroupAction(commands[..|commands| - 1], group);
      var last := commands[|commands| - 1];
      if SetOf(last.targets) == group then before + last.action else before
  }

  /** The targets of the first command for exactly these devices, as it lists them. */
  ghost function FirstTargets(commands: seq<Command>, group: set<string>): seq<string> {
    if commands == [] then []
    else
      var front := commands[..|commands| - 1];
      if group in Sets(front) then FirstTargets(front, group) else commands[|commands| - 1].targets
  }

  /** What the entry of one group holds. */
  ghost predicate EntryOf(e: Entry, commands: seq<Command>, group: set<string>) {
    && e.key == Key(e.command.targets)
    && SetOf(e.command.targets) == group
    && e.command.targets == Dedup(FirstTargets(commands, group))
    && e.command.action == GroupAction(commands, group)
  }

  /** The dict has one entry for every set of devices, in the order in which the sets first appear. */
  ghost predicate Grouped(entries: seq<Entry>, commands: seq<Command>) {
    && |entries| == |Dedup(Sets(commands))|
    && forall a | 0 <= a < |entries| :: EntryOf(entries[a], commands, Dedup(Sets(commands))[a])
  }

  lemma SetsSplit(commands: seq<Command>)
    requires commands != []
    ensures Sets(commands)[..|commands| - 1] == Sets(commands[..|commands| - 1])
    ensures Sets(commands) == Sets(commands[..|commands| - 1]) + [SetOf(commands[|commands| - 1].targets)]
  {
  }

  lemma PutAppends(entries: seq<Entry>, c: Command)
    requires forall a | 0 <= a < |entries| :: entries[a].key != Key(c.targets)
    ensures Put(entries, c) == entries + [Entry(Key(c.targets), Command(Dedup(c.targets), c.action))]
  {
    assert map[] + c.action == c.action;
  }

  /** A command for other devices leaves an entry as it was. */
  lemma EntryKept(e: Entry, commands: seq<Command>, group: set<string>)
    requires commands != [] && EntryOf(e, commands[..|commands| - 1], group)
    requires group in Sets(commands[..|commands| - 1]) && group != SetOf(commands[|commands| - 1].targets)
    ensures EntryOf(e, commands, group)
  {
  }

  lemma EntryStarted(commands: seq<Command>)
    requires commands != [] && SetOf(commands[|commands| - 1].targets) !in Sets(commands[..|commands| - 1])
    ensures var c := commands[|commands| - 1];
            EntryOf(Entry(Key(c.targets), Command(Dedup(c.targets), c.action)), commands, SetOf(c.targets))
  {
    var c := commands[|commands| - 1];
    DedupSet(c.targets);
    DedupSet(Dedup(c.targets));
    KeyIsTargetSet(c.targets, Dedup(c.targets));
    NoGroupYet(commands[..|commands| - 1], SetOf(c.targets));
    assert map[] + c.action == c.action;
  }

  /** A command for a new set of devices has a new key. */
  lemma NewKey(entries: seq<Entry>, commands: seq<Command>, c: Command)
    requires Grouped(entries, commands) && SetOf(c.targets) !in Sets(commands)
    ensures forall a | 0 <= a < |entries| :: entries[a].key != Key(c.targets)
  {
    forall a | 0 <= a < |entries|
      ensures entries[a].key != Key(c.targets)
    {
      var group := Dedup(Sets(commands))[a];
      assert EntryOf(entries[a], commands, group) && group in Sets(commands);
      KeyIsTargetSet(entries[a].command.targets, c.targets);
    }
  }

  lemma PutNew(entries: seq<Entry>, commands: seq<Command>)
    requires commands != []
    requires Grouped(entries, commands[..|commands| - 1])
    requires SetOf(commands[|commands| - 1].targets) !in Sets(commands[..|commands| - 1])
    ensures Grouped(Put(entries, commands[|commands| - 1]), commands)
  {
    var front, c := commands[..|commands| - 1], commands[|commands| - 1];
    var groups := Dedup(Sets(front));
    SetsSplit(commands);
    assert Dedup(Sets(commands)) == groups + [SetOf(c.targets)];
    forall a | 0 <= a < |entries|
      ensures EntryOf(entries[a], commands, groups[a])
    {
      assert EntryOf(entries[a], front, groups[a]);
      assert groups[a] in Sets(front);
      EntryKept(entries[a], commands, groups[a]);
    }
    NewKey(entries, front, c);
    PutAppends(entries, c);
    EntryStarted(commands);
  }

  lemma {:induction false} NoGroupYet(commands: seq<Command>, group: set<string>)
    requires group !in Sets(commands)
    ensures GroupAction(commands, group) == map[]
  {
    if commands != [] {
      SetsSplit(commands);
      NoGroupYet(commands[..|commands| - 1], group);
    }
  }

  lemma PutKnown(entries: seq<Entry>, commands: seq<Command>) returns (at: nat)
    requires commands != []
    requires Grouped(entries, commands[..|commands| - 1])
    requires SetOf(commands[|commands| - 1].targets) in Sets(commands[..|commands| - 1])
    ensures Dedup(Sets(commands)) == Dedup(Sets(commands[..|commands| - 1]))
    ensures at < |entries| && Dedup(Sets(commands))[at] == SetOf(commands[|commands| - 1].targets)
    ensures Put(entries, commands[|commands| - 1])
         == entries[at := Entry(entries[at].key, Extended(entries[at].command, commands[|commands| - 1].action))]
    ensures Grouped(Put(entries, commands[|commands| - 1]), commands)
  {
    var front, c := commands[..|commands| - 1], commands[|commands| - 1];
    var groups := Dedup(Sets(front));
    SetsSplit(commands);
    assert Dedup(Sets(commands)) == groups;
    forall a | 0 <= a < |entries|
      ensures entries[a].key == Key(c.targets) <==> groups[a] == SetOf(c.targets)
    {
      assert EntryOf(entries[a], front, groups[a]);
      KeyIsTargetSet(entries[a].command.targets, c.targets);
    }
    assert SetOf(c.targets) in groups;
    at := Position(entries, Key(c.targets));
    var r := Put(entries, c);
    forall a | 0 <= a < |r|
      ensures EntryOf(r[a], commands, groups[a])
    {
      assert EntryOf(entries[a], front, groups[a]);
      assert groups[a] in Sets(front);
      if a != at {
        EntryKept(entries[a], commands, groups[a]);
      }
    }
  }

  lemma {:induction false} MergedIsGrouped(commands: seq<Command>)
    ensures Grouped(Merged(commands), commands)
  {
    if commands != [] {
      var front := commands[..|commands| - 1];
      MergedIsGrouped(front);
      if SetOf(commands[|commands| - 1].targets) in Sets(front) {
        var at := PutKnown(Merged(front), commands);
      } else {
        PutNew(Merged(front), commands);
      }
    }
  }

  lemma {:induction false} FirstOfGroup(commands: seq<Command>, group: set<string>) returns (i: nat)
    requires group in Sets(commands)
    ensures i < |commands| && SetOf(commands[i].targets) == group && group !in Sets(commands)[..i]
    ensures FirstTargets(commands, group) == commands[i].targets
  {
    var front := commands[..|commands| - 1];
    SetsSplit(commands);
    if group in Sets(front) {
      i := FirstOfGroup(front, group);
      assert Sets(commands)[..i] == Sets(front)[..i];
    } else {
      i := |commands| - 1;
    }
  }

  /** The command names its devices once each, as the first command for the same set does. */
  ghost predicate ListedAsFirst(c: Command, commands: seq<Command>) {
    exists i | 0 <= i < |commands| ::
      && SetOf(commands[i].targets) == SetOf(c.targets)
      && SetOf(c.targets) !in Sets(commands)[..i]
      && c.targets == Dedup(commands[i].targets)
  }

  /**
   One command per set of devices, in the order of the sets' first occurrences; each names its
   devices once, as its first command does, and carries the right-biased union of its group.
   */
  lemma MergeGroups(commands: seq<Command>)
    ensures Sets(Merge(commands)) == Dedup(Sets(commands))
    ensures forall c | c in Merge(commands) :: c.action == GroupAction(commands, SetOf(c.targets))
    ensures forall c | c in Merge(commands) :: ListedAsFirst(c, commands)
  {
    MergedIsGrouped(commands);
    forall a | 0 <= a < |Merged(commands)|
      ensures SetOf(Merge(commands)[a].targets) == Dedup(Sets(commands))[a]
      ensures Merge(commands)[a].action == GroupAction(commands, SetOf(Merge(commands)[a].targets))
      ensures ListedAsFirst(Merge(commands)[a], commands)
    {
      MergedEntry(commands, a);
    }
  }

  lemma MergedEntry(commands: seq<Command>, a: nat)
    requires Grouped(Merged(commands), commands) && a < |Merged(commands)|
    ensures SetOf(Merge(commands)[a].targets) == Dedup(Sets(commands))[a]
    ensures Merge(commands)[a].action == GroupAction(commands, Dedup(Sets(commands))[a])
    ensures ListedAsFirst(Merge(commands)[a], commands)
  {
    assert EntryOf(Merged(commands)[a], commands, Dedup(Sets(commands))[a]);
    assert Dedup(Sets(commands))[a] in Sets(commands);
    var i := FirstOfGroup(commands, Dedup(Sets(commands))[a]);
  }
}
