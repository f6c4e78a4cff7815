/**
 How runtimes/functiongemma/runner.py chooses devices: the selectors offered to the model and
 the devices the text names outright.
 */
module TargetSelection {
  import opened Prelude
  import opened Sorting

  /** A snapshot device; an absent field is the empty string, which Python also treats as false. */
  datatype Device = Device(serial: string, name: string, group: string, location: string)

  /* ------------------------------------------------------------------ */
  /* Devices the text names                                             */
  /* ------------------------------------------------------------------ */

  /** The label occurs in the text as a word of its own. */
  type Mentions = string -> bool

  datatype Match = Match(length: nat, serial: string)

  predicate Matching(d: Device, mentions: Mentions) {
    d.name != "" && d.serial != "" && mentions(d.name)
  }

  function MatchOf(mentions: Mentions): Device -> seq<Match> {
    (d: Device) => if Matching(d, mentions) then [Match(|d.name|, d.serial)] else []
  }

  function Matches(devices: seq<Device>, mentions: Mentions): seq<Match> {
    FlatMap(devices, MatchOf(mentions))
  }

  function Longest(matches: seq<Match>): nat {
    if matches == [] then 0
    else
      var before := Longest(matches[..|matches| - 1]);
      if matches[|matches| - 1].length > before then matches[|matches| - 1].length else before
  }

  function SerialIf(length: nat): Match -> seq<string> {
    (m: Match) => if m.length == length then [m.serial] else []
  }

  function Named(devices: seq<Device>, mentions: Mentions): seq<string> {
    var matches := Matches(devices, mentions);
    Dedup(FlatMap(matches, SerialIf(Longest(matches))))
  }

  method ExplicitDeviceTargets(devices: seq<Device>, mentions: Mentions) returns (serials: seq<string>)
    ensures serials == Named(devices, mentions)
  {
    var matches: seq<Match> := [];
    for i := 0 to |devices|
      invariant matches == Matches(devices[..i], mentions)
    {
      assert devices[..i + 1][..i] == devices[..i];
      if devices[i].name != "" && devices[i].serial != "" && mentions(devices[i].name) {
        matches := matches + [Match(|devices[i].name|, devices[i].serial)];
      }
    }
    assert devices[..|devices|] == devices;
    if matches == [] {
      return [];
    }
    serials := Dedup(FlatMap(matches, SerialIf(Longest(matches))));
  }

  lemma {:induction false} MatchesMeaning(devices: seq<Device>, mentions: Mentions, m: Match)
    ensures m in Matches(devices, mentions)
       <==> exists d :: d in devices && Matching(d, mentions) && m == Match(|d.name|, d.serial)
  {
    if devices != [] {
      var front, last := devices[..|devices| - 1], devices[|devices| - 1];
      assert devices == front + [last];
      MatchesMeaning(front, mentions, m);
    }
  }

  lemma {:induction false} LongestMeaning(matches: seq<Match>) returns (at: nat)
    ensures forall i | 0 <= i < |matches| :: matches[i].length <= Longest(matches)
    ensures matches != [] ==> at < |matches| && matches[at].length == Longest(matches)
  {
    at := 0;
    if matches != [] {
      at := LongestMeaning(matches[..|matches| - 1]);
      if matches[|matches| - 1].length == Longest(matches) {
        at := |matches| - 1;
      }
    }
  }

  lemma {:induction false} SerialsMeaning(matches: seq<Match>, length: nat, serial: string)
    ensures serial in FlatMap(matches, SerialIf(length)) <==> Match(length, serial) in matches
  {
    if matches != [] {
      var front, last := matches[..|matches| - 1], matches[|matches| - 1];
      assert matches == front + [last];
      SerialsMeaning(front, length, serial);
    }
  }

  /** A device with a serial whose label the text mentions, and no such device has a longer label. */
  ghost predicate MostSpecific(d: Device, devices: seq<Device>, mentions: Mentions) {
    && d in devices && d.serial != "" && d.name != "" && mentions(d.name)
    && forall e | e in devices && e.serial != "" && e.name != "" && mentions(e.name) :: |e.name| <= |d.name|
  }

  /** Exactly the devices with the longest mentioned label are named, each once. */
  lemma NamedIsMostSpecific(devices: seq<Device>, mentions: Mentions, serial: string)
    ensures serial in Named(devices, mentions) <==> exists d :: MostSpecific(d, devices, mentions) && d.serial == serial
    ensures Distinct(Named(devices, mentions))
  {
    var matches := Matches(devices, mentions);
    var longest := Longest(matches);
    var at := LongestMeaning(matches);
    SerialsMeaning(matches, longest, serial);
    MatchesMeaning(devices, mentions, Match(longest, serial));
    if serial in Named(devices, mentions) {
      var d :| d in devices && Matching(d, mentions) && Match(longest, serial) == Match(|d.name|, d.serial);
      forall e | e in devices && Matching(e, mentions)
        ensures |e.name| <= |d.name|
      {
        MatchesMeaning(devices, mentions, Match(|e.name|, e.serial));
      }
      assert MostSpecific(d, devices, mentions);
    }
    if d :| MostSpecific(d, devices, mentions) && d.serial == serial {
      MatchesMeaning(devices, mentions, Match(|d.name|, serial));
      MatchesMeaning(devices, mentions, matches[at]);
      assert |d.name| == longest;
    }
  }

  /* ------------------------------------------------------------------ */
  /* Selectors                                                          */
  /* ------------------------------------------------------------------ */

  type Inventory = map<string, seq<string>>

  /** The devices with this label. */
  function Bearers(devices: seq<Device>, name: string): nat {
    if devices == [] then 0
    else Bearers(devices[..|devices| - 1], name) + (if devices[|devices| - 1].name == name then 1 else 0)
  }

  /** A label several devices bear is followed by the serial. */
  function Selector(d: Device, snapshot: seq<Device>): string {
    var name := if d.name != "" then d.name else d.serial;
    "device:" + name + (if name != "" && Bearers(snapshot, name) > 1 then " [" + d.serial + "]" else "")
  }

  function GroupKey(name: string): string { "group:" + name }

  function LocationKey(name: string): string { "location:" + name }

  /** The serials under a key; none if the key is missing. */
  function Get(inventory: Inventory, key: string): seq<string> {
    if key in inventory then inventory[key] else []
  }

  /** `mapping.setdefault(key, []).append(serial)` for a field that is present. */
  function Join(inventory: Inventory, field: string, key: string, serial: string): Inventory {
    if field == "" then inventory else inventory[key := Get(inventory, key) + [serial]]
  }

  function Add(inventory: Inventory, d: Device, snapshot: seq<Device>): Inventory {
    if d.serial == "" then inventory
    else
      var own := inventory[Selector(d, snapshot) := [d.serial]];
      Join(Join(own, d.group, GroupKey(d.group), d.serial), d.location, LocationKey(d.location), d.serial)
  }

  function Build(devices: seq<Device>, snapshot: seq<Device>): Inventory {
    if devices == [] then map[]
    else Add(Build(devices[..|devices| - 1], snapshot), devices[|devices| - 1], snapshot)
  }

  function Inventoried(snapshot: seq<Device>): Inventory {
    var built := Build(snapshot, snapshot);
    map key | key in built :: Dedup(built[key])
  }

  method CountLabels(devices: seq<Device>) returns (labels: map<string, nat>)
    ensures forall name | name != "" :: Bearers(devices, name) == if name in labels then labels[name] else 0
    ensures "" !in labels
  {
    labels := map[];
    for i := 0 to |devices|
      invariant "" !in labels
      invariant forall name | name != "" :: Bearers(devices[..i], name) == if name in labels then labels[name] else 0
    {
      assert devices[..i + 1][..i] == devices[..i];
      var name := devices[i].name;
      if name != "" {
        labels := labels[name := (if name in labels then labels[name] else 0) + 1];
      }
    }
    assert devices[..|devices|] == devices;
  }

  method AddDevice(mapping: Inventory, d: Device, labels: map<string, nat>, ghost snapshot: seq<Device>)
    returns (r: Inventory)
    requires forall name | name != "" :: Bearers(snapshot, name) == if name in labels then labels[name] else 0
    requires "" !in labels
    ensures r == Add(mapping, d, snapshot)
  {
    r := mapping;
    if d.serial == "" {
      return;
    }
    var name := if d.name != "" then d.name else d.serial;
    var selector := "device:" + name;
    if name in labels && labels[name] > 1 {
      selector := selector + (" [" + d.serial + "]");
    }
    assert selector == Selector(d, snapshot);
    r := r[selector := [d.serial]];
    if d.group != "" {
      r := r[GroupKey(d.group) := Get(r, GroupKey(d.group)) + [d.serial]];
    }
    if d.location != "" {
      r := r[LocationKey(d.location) := Get(r, LocationKey(d.location)) + [d.serial]];
    }
  }

  method RemoveDuplicates(built: Inventory) returns (mapping: Inventory)
    ensures mapping == map key | key in built :: Dedup(built[key])
  {
    mapping := built;
    var todo := built.Keys;
    while todo != {}
      invariant todo <= built.Keys == mapping.Keys
      invariant forall key | key in todo :: mapping[key] == built[key]
      invariant forall key | key in built && key !in todo :: mapping[key] == Dedup(built[key])
    {
      var key :| key in todo;
      mapping := mapping[key := Dedup(mapping[key])];
      todo := todo - {key};
    }
  }

  method SelectorInventory(devices: seq<Device>) returns (mapping: Inventory)
    ensures mapping == Inventoried(devices)
  {
    var labels := CountLabels(devices);
    mapping := map[];
    for i := 0 to |devices|
      invariant mapping == Build(devices[..i], devices)
    {
      assert devices[..i + 1][..i] == devices[..i];
      mapping := AddDevice(mapping, devices[i], labels, devices);
    }
    assert devices[..|devices|] == devices;
    mapping := RemoveDuplicates(mapping);
  }

  function GroupMember(name: string): Device -> seq<string> {
    (d: Device) => if d.serial != "" && d.group == name then [d.serial] else []
  }

  function LocationMember(name: string): Device -> seq<string> {
    (d: Device) => if d.serial != "" && d.location == name then [d.serial] else []
  }

  predicate Claims(d: Device, selector: string, snapshot: seq<Device>) {
    d.serial != "" && Selector(d, snapshot) == selector
  }

  /** The last device with this selector decides what it means. */
  function LastWith(devices: seq<Device>, selector: string, snapshot: seq<Device>): seq<string> {
    if devices == [] then []
    else
      var last := devices[|devices| - 1];
      if Claims(last, selector, snapshot) then [last.serial]
      else LastWith(devices[..|devices| - 1], selector, snapshot)
  }

  /** The three kinds of key never meet. */
  lemma KindsDiffer(d: Device, snapshot: seq<Device>, a: string, b: string)
    ensures Selector(d, snapshot)[0] == 'd' && GroupKey(a)[0] == 'g' && LocationKey(b)[0] == 'l'
    ensures GroupKey(a) == GroupKey(b) <==> a == b
    ensures LocationKey(a) == LocationKey(b) <==> a == b
  {
    assert GroupKey(a)[6..] == a && GroupKey(b)[6..] == b;
    assert LocationKey(a)[9..] == a && LocationKey(b)[9..] == b;
  }

  lemma JoinMeaning(inventory: Inventory, field: string, key: string, serial: string, other: string)
    ensures Get(Join(inventory, field, key, serial), other)
         == Get(inventory, other) + if field != "" && other == key then [serial] else []
  {
    assert Get(inventory, other) + [] == Get(inventory, other);
  }

  /** What adding one device does to any key. */
  lemma AddedAt(inventory: Inventory, d: Device, snapshot: seq<Device>, key: string)
    requires d.serial != ""
    ensures Get(Add(inventory, d, snapshot), key)
         == (if key == Selector(d, snapshot) then [d.serial] else Get(inventory, key))
          + (if d.group != "" && key == GroupKey(d.group) then [d.serial] else [])
          + (if d.location != "" && key == LocationKey(d.location) then [d.serial] else [])
  {
    var own := inventory[Selector(d, snapshot) := [d.serial]];
    JoinMeaning(own, d.group, GroupKey(d.group), d.serial, key);
    JoinMeaning(Join(own, d.group, GroupKey(d.group), d.serial), d.location, LocationKey(d.location), d.serial, key);
  }

  /** What adding one device does to the three kinds of key. */
  lemma AddMeaning(inventory: Inventory, d: Device, snapshot: seq<Device>, e: Device, name: string)
    requires name != ""
    ensures Get(Add(inventory, d, snapshot), GroupKey(name)) == Get(inventory, GroupKey(name)) + GroupMember(name)(d)
    ensures Get(Add(inventory, d, snapshot), LocationKey(name))
        == Get(inventory, LocationKey(name)) + LocationMember(name)(d)
    ensures Get(Add(inventory, d, snapshot), Selector(e, snapshot))
         == if Claims(d, Selector(e, snapshot), snapshot) then [d.serial] else Get(inventory, Selector(e, snapshot))
  {
    if d.serial != "" {
      KindsDiffer(d, snapshot, name, d.group);
      KindsDiffer(d, snapshot, d.group, name);
      KindsDiffer(d, snapshot, name, d.location);
      KindsDiffer(e, snapshot, d.group, d.location);
      AddedAt(inventory, d, snapshot, GroupKey(name));
      AddedAt(inventory, d, snapshot, LocationKey(name));
      AddedAt(inventory, d, snapshot, Selector(e, snapshot));
    }
  }

  lemma {:induction false} BuildMeaning(devices: seq<Device>, snapshot: seq<Device>, e: Device, name: string)
    requires name != ""
    ensures Get(Build(devices, snapshot), GroupKey(name)) == FlatMap(devices, GroupMember(name))
    ensures Get(Build(devices, snapshot), LocationKey(name)) == FlatMap(devices, LocationMember(name))
    ensures Get(Build(devices, snapshot), Selector(e, snapshot)) == LastWith(devices, Selector(e, snapshot), snapshot)
  {
    if devices != [] {
      var front := devices[..|devices| - 1];
      BuildMeaning(front, snapshot, e, name);
      AddMeaning(Build(front, snapshot), devices[|devices| - 1], snapshot, e, name);
    }
  }

  /** A group or location selector stands for its members, in snapshot order and once each. */
  lemma SelectorsOfGroups(snapshot: seq<Device>, name: string)
    requires name != ""
    ensures Get(Inventoried(snapshot), GroupKey(name)) == Dedup(FlatMap(snapshot, GroupMember(name)))
    ensures Get(Inventoried(snapshot), LocationKey(name)) == Dedup(FlatMap(snapshot, LocationMember(name)))
  {
    BuildMeaning(snapshot, snapshot, Device("", "", "", ""), name);
  }

  /**
   A device selector stands for the last device that claims it. That need not be the device it
   was made for: a label equal to the serial of an unlabelled device claims its selector.
   */
  lemma SelectorOfDevice(snapshot: seq<Device>, i: nat) returns (last: nat)
    requires i < |snapshot| && snapshot[i].serial != ""
    ensures i <= last < |snapshot| && Claims(snapshot[last], Selector(snapshot[i], snapshot), snapshot)
    ensures forall k | last < k < |snapshot| :: !Claims(snapshot[k], Selector(snapshot[i], snapshot), snapshot)
    ensures Get(Inventoried(snapshot), Selector(snapshot[i], snapshot)) == [snapshot[last].serial]
  {
    var selector := Selector(snapshot[i], snapshot);
    BuildMeaning(snapshot, snapshot, snapshot[i], "x");
    last := LastClaim(snapshot, selector, snapshot, i);
    assert Get(Inventoried(snapshot), selector) == Dedup(Get(Build(snapshot, snapshot), selector));
    DedupOne(snapshot[last].serial);
  }

  /** Device k is the last that claims the selector of device i, and comes after it. */
  ghost predicate TakenOver(snapshot: seq<Device>, i: nat, k: nat)
    requires i < |snapshot|
  {
    && i < k < |snapshot| && Claims(snapshot[k], Selector(snapshot[i], snapshot), snapshot)
    && forall m | k < m < |snapshot| :: !Claims(snapshot[m], Selector(snapshot[i], snapshot), snapshot)
  }

  /** A device's selector stands for that device exactly when no other device takes it over: the
      last later device with the same selector, if there is one, has the same serial. */
  lemma SelectorIsItsOwnExactly(snapshot: seq<Device>, i: nat)
    requires i < |snapshot| && snapshot[i].serial != ""
    ensures Get(Inventoried(snapshot), Selector(snapshot[i], snapshot)) == [snapshot[i].serial]
       <==> forall k: nat | TakenOver(snapshot, i, k) :: snapshot[k].serial == snapshot[i].serial
  {
    var last := SelectorOfDevice(snapshot, i);
    if last > i {
      assert TakenOver(snapshot, i, last);
    }
    forall k: nat | TakenOver(snapshot, i, k)
      ensures k == last
    {
      assert Claims(snapshot[k], Selector(snapshot[i], snapshot), snapshot);
    }
  }

  /** A label equal to the serial of an unlabelled device takes its selector. */
  lemma SelectorCanBeTaken()
    ensures var snapshot := [Device("A", "", "", ""), Device("B", "A", "", "")];
      Selector(snapshot[0], snapshot) == "device:A" && Get(Inventoried(snapshot), "device:A") == ["B"]
  {
    var snapshot := [Device("A", "", "", ""), Device("B", "A", "", "")];
    assert snapshot[..1] == [snapshot[0]] && [snapshot[0]][..0] == [];
    assert Bearers([snapshot[0]], "A") == 0 && Bearers(snapshot, "A") == 1;
    assert Selector(snapshot[0], snapshot) == "device:A" + "" == "device:A";
    assert Selector(snapshot[1], snapshot) == "device:A" + "" == "device:A";
    var last := SelectorOfDevice(snapshot, 0);
    assert Claims(snapshot[1], "device:A", snapshot);
  }

  lemma DedupOne(serial: string)
    ensures Dedup([serial]) == [serial]
  {
    assert [serial][..0] == [];
  }

  lemma {:induction false} LastClaim(devices: seq<Device>, selector: string, snapshot: seq<Device>, i: nat)
    returns (last: nat)
    requires i < |devices| && Claims(devices[i], selector, snapshot)
    ensures i <= last < |devices| && Claims(devices[last], selector, snapshot)
    ensures forall k | last < k < |devices| :: !Claims(devices[k], selector, snapshot)
    ensures LastWith(devices, selector, snapshot) == [devices[last].serial]
  {
    var front := devices[..|devices| - 1];
    last := |devices| - 1;
    if !Claims(devices[last], selector, snapshot) {
      assert i < |front| && front[i] == devices[i];
      last := LastClaim(front, selector, snapshot, i);
      assert forall k | last < k < |front| :: !Claims(devices[k], selector, snapshot) by {
        assert forall k | last < k < |front| :: devices[k] == front[k];
      }
    }
  }

  /** Whatever the selector, only serials of the snapshot come out. */
  lemma {:induction false} BuildKnows(devices: seq<Device>, snapshot: seq<Device>, key: string, serial: string)
    requires serial in Get(Build(devices, snapshot), key)
    ensures serial != "" && exists d :: d in devices && d.serial == serial
  {
    if devices != [] {
      var front, last := devices[..|devices| - 1], devices[|devices| - 1];
      assert devices == front + [last];
      if serial in Get(Build(front, snapshot), key) {
        BuildKnows(front, snapshot, key, serial);
      } else {
        assert last.serial == serial;
      }
    }
  }

  lemma InventoryKnows(snapshot: seq<Device>, key: string, serial: string)
    requires serial in Get(Inventoried(snapshot), key)
    ensures serial != "" && exists d :: d in snapshot && d.serial == serial
  {
    BuildKnows(snapshot, snapshot, key, serial);
  }

  /* ------------------------------------------------------------------ */
  /* Shared labels                                                      */
  /* ------------------------------------------------------------------ */

  lemma {:induction false} BearersMeaning(devices: seq<Device>, name: string)
    ensures Bearers(devices, name) >= 1 <==> exists i :: 0 <= i < |devices| && devices[i].name == name
    ensures Bearers(devices, name) >= 2 <==> Shared(devices, name)
  {
    if devices != [] {
      var n := |devices| - 1;
      var front := devices[..n];
      BearersMeaning(front, name);
      if devices[n].name == name && Bearers(front, name) >= 1 {
        var i :| 0 <= i < |front| && front[i].name == name;
        assert devices[i].name == name && i < n;
      }
      if i, j :| 0 <= i < j < |devices| && devices[i].name == devices[j].name == name {
        assert front[i].name == name;
        assert j < n ==> front[j].name == name;
      }
      if i, j :| 0 <= i < j < |front| && front[i].name == front[j].name == name {
        assert devices[i].name == devices[j].name == name;
      }
    }
  }

  /** Two devices of the snapshot bear this label. */
  ghost predicate Shared(devices: seq<Device>, name: string) {
    exists i, j :: 0 <= i < j < |devices| && devices[i].name == devices[j].name == name
  }

  /** A device is offered under its label, or its serial if it has none, and its serial is added
      exactly if two devices bear that label. */
  lemma SelectorExactly(snapshot: seq<Device>, d: Device)
    requires d.serial != ""
    ensures var name := if d.name == "" then d.serial else d.name;
      Selector(d, snapshot) == if Shared(snapshot, name) then "device:" + name + " [" + d.serial + "]"
                               else "device:" + name
  {
    var name := if d.name == "" then d.serial else d.name;
    BearersMeaning(snapshot, name);
    assert "device:" + name + "" == "device:" + name;
    assert "device:" + name + (" [" + d.serial + "]") == "device:" + name + " [" + d.serial + "]";
  }

  /** So devices that share a label can be told apart. */
  lemma SharedLabelsAreToldApart(snapshot: seq<Device>, i: nat, j: nat)
    requires i < j < |snapshot| && snapshot[i].name == snapshot[j].name != ""
    requires snapshot[i].serial != "" && snapshot[j].serial != "" && snapshot[i].serial != snapshot[j].serial
    ensures Selector(snapshot[i], snapshot) != Selector(snapshot[j], snapshot)
  {
    var a, b := snapshot[i].serial, snapshot[j].serial;
    var front := "device:" + snapshot[i].name + " [";
    SelectorExactly(snapshot, snapshot[i]);
    SelectorExactly(snapshot, snapshot[j]);
    assert Shared(snapshot, snapshot[i].name);
    BetweenBrackets(front, a, "]");
    BetweenBrackets(front, b, "]");
  }

  lemma BetweenBrackets(front: string, middle: string, back: string)
    ensures var s := front + middle + back; s[|front|..|s| - |back|] == middle
  {
  }

  /** A group or location selector stands for exactly the serials of its members. */
  lemma GroupSelectorExactly(snapshot: seq<Device>, name: string, serial: string)
    requires name != ""
    ensures serial in Get(Inventoried(snapshot), "group:" + name)
       <==> exists d :: d in snapshot && d.group == name && d.serial == serial != ""
    ensures serial in Get(Inventoried(snapshot), "location:" + name)
       <==> exists d :: d in snapshot && d.location == name && d.serial == serial != ""
  {
    SelectorsOfGroups(snapshot, name);
    MembersMeaning(snapshot, name, serial);
  }

  lemma {:induction false} MembersMeaning(devices: seq<Device>, name: string, serial: string)
    ensures serial in FlatMap(devices, GroupMember(name))
       <==> exists d :: d in devices && d.group == name && d.serial == serial != ""
    ensures serial in FlatMap(devices, LocationMember(name))
       <==> exists d :: d in devices && d.location == name && d.serial == serial != ""
  {
    if devices != [] {
      var front, last := devices[..|devices| - 1], devices[|devices| - 1];
      assert devices == front + [last];
      MembersMeaning(front, name, serial);
    }
  }
}
