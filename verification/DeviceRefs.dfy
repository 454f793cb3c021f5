/** The device and device-group PUT handlers over the store, and the references they keep intact. */
module DeviceRefs {
  import opened Text
  import opened Parser
  import opened Model
  import opened Devices
  import opened Store

  // ---------------------------------------------------------------- what the handlers answer

  datatype Reply = Staged | BadRequest | Conflict | Failed

  /** A handler either refuses, or has a text to stage. */
  datatype Answer = Refuse(reply: Reply) | Stage(content: string)

  function NamesOf(gs: seq<DeviceGroup>): set<string> {
    set g | g in gs :: g.name
  }

  /** The keys by name; of entities with one name the last one counts. */
  function DeviceKeys(ds: seq<Device>): map<string, string> {
    if ds == [] then map[] else DeviceKeys(ds[..|ds| - 1])[ds[|ds| - 1].name := ds[|ds| - 1].key]
  }

  function GroupKeys(gs: seq<DeviceGroup>): map<string, string> {
    if gs == [] then map[] else GroupKeys(gs[..|gs| - 1])[gs[|gs| - 1].name := gs[|gs| - 1].key]
  }

  function MembersOf(ds: seq<Device>, name: string): nat {
    if ds == [] then 0 else MembersOf(ds[..|ds| - 1], name) + (if ds[|ds| - 1].group == name then 1 else 0)
  }

  function Lookup(keys: map<string, string>, name: string): string {
    if name in keys then keys[name] else ""
  }

  /** One device of a request, with the current key filled in where a custom one was left out. */
  function CheckDevice(d: Device, groupNames: set<string>, keys: map<string, string>): Option<Device> {
    if !ValidName(d.name) || d.address == "" then None
    else if d.group != "" && d.group !in groupNames then None
    else if d.keyType == "group" && d.group == "" then None
    else if d.keyType == "custom" && d.key == "" then
      if Lookup(keys, d.name) == "" then None else Some(d.(key := Lookup(keys, d.name)))
    else Some(d)
  }

  function CheckGroup(g: DeviceGroup, keys: map<string, string>): Option<DeviceGroup> {
    if !ValidName(g.name) then None
    else if g.keyType == "custom" && g.key == "" then
      if Lookup(keys, g.name) == "" then None else Some(g.(key := Lookup(keys, g.name)))
    else Some(g)
  }

  function CheckDevices(ds: seq<Device>, groupNames: set<string>, keys: map<string, string>): Option<seq<Device>> {
    if ds == [] then Some([])
    else
      var first := CheckDevice(ds[0], groupNames, keys);
      var more := CheckDevices(ds[1..], groupNames, keys);
      if first.None? || more.None? then None else Some([first.value] + more.value)
  }

  function CheckGroups(gs: seq<DeviceGroup>, keys: map<string, string>): Option<seq<DeviceGroup>> {
    if gs == [] then Some([])
    else
      var first := CheckGroup(gs[0], keys);
      var more := CheckGroups(gs[1..], keys);
      if first.None? || more.None? then None else Some([first.value] + more.value)
  }

  /** The groups with their member counts, as loadDeviceGroups fills them in. */
  function Counted(gs: seq<DeviceGroup>, ds: seq<Device>): seq<DeviceGroup> {
    seq(|gs|, i requires 0 <= i < |gs| => gs[i].(members := MembersOf(ds, gs[i].name)))
  }

  function LoadDevices(src: Option<string>, k: string): Option<seq<Device>> {
    if src.None? || DevicesOf(src.value, k).Bad? then None else Some(DevicesOf(src.value, k).value)
  }

  function LoadGroups(src: Option<string>, k: string): Option<seq<DeviceGroup>> {
    if src.None? || GroupsOf(src.value, k).Bad? then None
    else if DevicesOf(src.value, k).Bad? then Some(GroupsOf(src.value, k).value)
    else Some(Counted(GroupsOf(src.value, k).value, DevicesOf(src.value, k).value))
  }

  function DevicesAnswer(src: Option<string>, k: string, ds: seq<Device>): Answer {
    var existing := LoadDevices(src, k);
    var groups := LoadGroups(src, k);
    if existing.None? || groups.None? then Refuse(Failed)
    else
      var checked := CheckDevices(ds, NamesOf(groups.value), DeviceKeys(existing.value));
      if checked.None? then Refuse(BadRequest) else Stage(DevicesText(checked.value, groups.value, k))
  }

  /** A group of the current file that still has members and is not in the request. */
  predicate Orphans(current: seq<DeviceGroup>, incoming: set<string>, ds: seq<Device>) {
    exists g :: g in current && g.name !in incoming && MembersOf(ds, g.name) > 0
  }

  function GroupsAnswer(src: Option<string>, k: string, gs: seq<DeviceGroup>): Answer {
    var devices := LoadDevices(src, k);
    var current := LoadGroups(src, k);
    if devices.None? || current.None? then Refuse(Failed)
    else
      var checked := CheckGroups(gs, GroupKeys(current.value));
      if checked.None? then Refuse(BadRequest)
      else if Orphans(current.value, NamesOf(gs), devices.value) then Refuse(Conflict)
      else Stage(DevicesText(devices.value, checked.value, k))
  }

  /** commitEntities */
  function Answered(s: State, a: Answer): (State, Reply) {
    match a
    case Refuse(reply) => (s, reply)
    case Stage(content) =>
      var (t, o) := Write(s, DevicesFile(), content);
      (t, if o == Done then Staged else if o == Inactive then Conflict else Failed)
  }

  // ---------------------------------------------------------------- the handlers

  method LoadDeviceList(store: ConfigStore, k: string) returns (r: Option<seq<Device>>)
    ensures r == LoadDevices(Effective(store.Now(), DevicesFile()), k)
  {
    hide *;
    EffectiveLoads(Effective(store.Now(), DevicesFile()), k);
    var src := store.ReadEffective(DevicesFile());
    if src.None? {
      return None;
    }
    var parsed := ParseDevices(src.value, k);
    r := if parsed.Bad? then None else Some(parsed.value);
  }

  lemma EffectiveLoads(src: Option<string>, k: string)
    ensures LoadDevices(src, k) ==
            (if src.None? || DevicesOf(src.value, k).Bad? then None else Some(DevicesOf(src.value, k).value))
  {}

  method LoadGroupList(store: ConfigStore, k: string) returns (r: Option<seq<DeviceGroup>>)
    ensures r == LoadGroups(Effective(store.Now(), DevicesFile()), k)
  {
    hide DevicesOf, GroupsOf, Effective, MembersOf, DevicesFile;
    var src := store.ReadEffective(DevicesFile());
    if src.None? {
      return None;
    }
    var parsed := ParseDeviceGroups(src.value, k);
    if parsed.Bad? {
      return None;
    }
    var groups := parsed.value;
    var devices := ParseDevices(src.value, k);
    if devices.Good? {
      var counts := CountMembers(devices.value);
      for i := 0 to |groups|
        invariant |groups| == |parsed.value|
        invariant forall j :: 0 <= j < |groups| ==>
          groups[j] == if j < i then parsed.value[j].(members := MembersOf(devices.value, parsed.value[j].name))
            else parsed.value[j]
      {
        groups := groups[i := groups[i].(members := CountOf(counts, groups[i].name))];
      }
      assert groups == Counted(parsed.value, devices.value);
    }
    r := Some(groups);
  }

  function CountOf(counts: map<string, nat>, name: string): nat {
    if name in counts then counts[name] else 0
  }

  method CountMembers(ds: seq<Device>) returns (counts: map<string, nat>)
    ensures forall name :: CountOf(counts, name) == MembersOf(ds, name)
  {
    counts := map[];
    for i := 0 to |ds|
      invariant forall name :: CountOf(counts, name) == MembersOf(ds[..i], name)
    {
      assert ds[..i + 1][..i] == ds[..i];
      counts := counts[ds[i].group := CountOf(counts, ds[i].group) + 1];
    }
    assert ds[..|ds|] == ds;
  }

  method CollectDeviceKeys(ds: seq<Device>) returns (keys: map<string, string>)
    ensures keys == DeviceKeys(ds)
  {
    keys := map[];
    for i := 0 to |ds|
      invariant keys == DeviceKeys(ds[..i])
    {
      assert ds[..i + 1][..i] == ds[..i];
      keys := keys[ds[i].name := ds[i].key];
    }
    assert ds[..|ds|] == ds;
  }

  method CollectGroupKeys(gs: seq<DeviceGroup>) returns (keys: map<string, string>)
    ensures keys == GroupKeys(gs)
  {
    keys := map[];
    for i := 0 to |gs|
      invariant keys == GroupKeys(gs[..i])
    {
      assert gs[..i + 1][..i] == gs[..i];
      keys := keys[gs[i].name := gs[i].key];
    }
    assert gs[..|gs|] == gs;
  }

  method CollectNames(gs: seq<DeviceGroup>) returns (names: set<string>)
    ensures names == NamesOf(gs)
  {
    names := {};
    for i := 0 to |gs|
      invariant names == NamesOf(gs[..i])
    {
      assert gs[..i + 1] == gs[..i] + [gs[i]];
      names := names + {gs[i].name};
    }
    assert gs[..|gs|] == gs;
  }

  lemma StartsEmpty<T>(s: seq<T>)
    ensures [] + s == s
  {}

  /** The validation loop of putDevices; None stands for a 400. */
  method ValidateDevices(body: seq<Device>, groupNames: set<string>, keys: map<string, string>)
        returns (r: Option<seq<Device>>)
    ensures r == CheckDevices(body, groupNames, keys)
  {
    hide ValidName;
    var devices := body;
    assert body[0..] == body && devices[..0] == [];
    StartsEmpty(CheckDevices(body, groupNames, keys).GetOr([]));
    for i := 0 to |devices|
      invariant |devices| == |body| && devices[i..] == body[i..]
      invariant CheckDevices(body, groupNames, keys) ==
                if CheckDevices(body[i..], groupNames, keys).None? then None
                else Some(devices[..i] + CheckDevices(body[i..], groupNames, keys).value)
    {
      assert devices[i] == devices[i..][0] && body[i] == body[i..][0] && body[i..][1..] == body[i + 1..];
      ghost var done, more := devices[..i], CheckDevices(body[i + 1..], groupNames, keys);
      var d := devices[i];
      if !ValidName(d.name) || d.address == "" {
        return None;
      }
      if d.group != "" && d.group !in groupNames {
        return None;
      }
      if d.keyType == "group" && d.group == "" {
        return None;
      }
      if d.keyType == "custom" && d.key == "" {
        var current := if d.name in keys then keys[d.name] else "";
        if current == "" {
          return None;
        }
        devices := devices[i := d.(key := current)];
      }
      assert CheckDevice(d, groupNames, keys) == Some(devices[i]);
      assert devices[..i + 1] == done + [devices[i]];
      if more.Some? {
        Assoc(done, [devices[i]], more.value);
      }
    }
    assert devices[..|devices|] == devices && devices + [] == devices;
    r := Some(devices);
  }

  /** The validation loop of putDeviceGroups, which also collects the incoming names. */
  method ValidateGroups(body: seq<DeviceGroup>, keys: map<string, string>)
        returns (r: Option<seq<DeviceGroup>>, incoming: set<string>)
    ensures r == CheckGroups(body, keys)
    ensures r.Some? ==> incoming == NamesOf(body)
  {
    hide ValidName;
    var groups := body;
    assert body[0..] == body && groups[..0] == [];
    StartsEmpty(CheckGroups(body, keys).GetOr([]));
    incoming := {};
    for i := 0 to |groups|
      invariant |groups| == |body| && groups[i..] == body[i..] && incoming == NamesOf(body[..i])
      invariant CheckGroups(body, keys) ==
                if CheckGroups(body[i..], keys).None? then None
                else Some(groups[..i] + CheckGroups(body[i..], keys).value)
    {
      assert groups[i] == groups[i..][0] && body[i] == body[i..][0] && body[i..][1..] == body[i + 1..];
      ghost var done, more := groups[..i], CheckGroups(body[i + 1..], keys);
      var g := groups[i];
      if !ValidName(g.name) {
        return None, incoming;
      }
      assert body[..i + 1] == body[..i] + [body[i]];
      incoming := incoming + {g.name};
      if g.keyType == "custom" && g.key == "" {
        var current := if g.name in keys then keys[g.name] else "";
        if current == "" {
          return None, incoming;
        }
        groups := groups[i := g.(key := current)];
      }
      assert CheckGroup(g, keys) == Some(groups[i]);
      assert groups[..i + 1] == done + [groups[i]];
      if more.Some? {
        Assoc(done, [groups[i]], more.value);
      }
    }
    assert groups[..|groups|] == groups && groups + [] == groups && body[..|body|] == body;
    r := Some(groups);
  }

  method CommitEntities(store: ConfigStore, content: string) returns (reply: Reply)
    modifies store
    ensures (store.Now(), reply) == Answered(old(store.Now()), Stage(content))
  {
    hide ManagedFiles;
    var o := store.WriteStaged(DevicesFile(), content);
    reply := if o == Done then Staged else if o == Inactive then Conflict else Failed;
  }

  /** putDevices, with the decoded body of the request. */
  method PutDevices(store: ConfigStore, k: string, body: seq<Device>) returns (reply: Reply)
    modifies store
    ensures (store.Now(), reply) ==
            Answered(old(store.Now()), DevicesAnswer(Effective(old(store.Now()), DevicesFile()), k, body))
  {
    hide CheckDevices, NamesOf, DeviceKeys, LoadDevices, LoadGroups, DevicesText, Effective, Write, DevicesFile;
    var existing := LoadDeviceList(store, k);
    if existing.None? {
      return Failed;
    }
    var groups := LoadGroupList(store, k);
    if groups.None? {
      return Failed;
    }
    var names := CollectNames(groups.value);
    var keys := CollectDeviceKeys(existing.value);
    var checked := ValidateDevices(body, names, keys);
    if checked.None? {
      return BadRequest;
    }
    var text := RenderDevices(checked.value, groups.value, k);
    reply := CommitEntities(store, text);
  }

  /** putDeviceGroups, with the decoded body of the request. */
  method PutDeviceGroups(store: ConfigStore, k: string, body: seq<DeviceGroup>) returns (reply: Reply)
    modifies store
    ensures (store.Now(), reply) ==
            Answered(old(store.Now()), GroupsAnswer(Effective(old(store.Now()), DevicesFile()), k, body))
  {
    hide CheckGroups, NamesOf, GroupKeys, LoadDevices, LoadGroups, DevicesText, Effective, Write, DevicesFile,
      MembersOf;
    var devices := LoadDeviceList(store, k);
    if devices.None? {
      return Failed;
    }
    var current := LoadGroupList(store, k);
    if current.None? {
      return Failed;
    }
    var keys := CollectGroupKeys(current.value);
    var checked, incoming := ValidateGroups(body, keys);
    if checked.None? {
      return BadRequest;
    }
    var counts := CountMembers(devices.value);
    for i := 0 to |current.value|
      invariant forall j :: 0 <= j < i ==>
                current.value[j].name in incoming || MembersOf(devices.value, current.value[j].name) == 0
    {
      var g := current.value[i];
      if g.name !in incoming && CountOf(counts, g.name) > 0 {
        assert Orphans(current.value, incoming, devices.value);
        return Conflict;
      }
    }
    var text := RenderDevices(devices.value, checked.value, k);
    reply := CommitEntities(store, text);
  }

  // ---------------------------------------------------------------- counting members

  function ParentsIn(ds: seq<Device>): seq<string> {
    seq(|ds|, i requires 0 <= i < |ds| => ds[i].group)
  }

  /** A group has as many members as devices name it. */
  lemma {:induction false} MembersCounted(ds: seq<Device>, name: string)
    ensures MembersOf(ds, name) == multiset(ParentsIn(ds))[name]
  {
    if ds != [] {
      var n := |ds| - 1;
      MembersCounted(ds[..n], name);
      assert ParentsIn(ds) == ParentsIn(ds[..n]) + [ds[n].group];
    }
  }
}
