/** What the two PUT requests do to the devices file, in terms of the request and of the file before it. */
module DevicePuts {
  import opened Text
  import opened Lexer
  import opened Parser
  import opened Canonical
  import opened Mapping
  import opened Model
  import opened Devices
  import opened DevicesRoundTrip
  import opened EntityNames
  import opened Store
  import opened DeviceRefs
  import opened DeviceRefsRuns

  // ---------------------------------------------------------------- the law of a devices request

  /** The key that the file has under a name: that of the last device so named. */
  predicate FileKey(file: seq<Device>, name: string, key: string) {
    exists i :: 0 <= i < |file| && file[i].name == name && file[i].key == key && LastNamed(file, i)
  }

  predicate LastNamed(file: seq<Device>, i: nat)
    requires i < |file|
  {
    forall j :: i < j < |file| ==> file[j].name != file[i].name
  }

  /** A name of one word, without the characters that mean something in the file. */
  predicate PlainName(name: string) {
    name != "" && forall c | c in name :: c !in " \t\n" && c !in "\"{}" && c !in "()=#"
  }

  /** What a device of a request must be like, for a file with these devices and groups. */
  ghost predicate Acceptable(d: Device, file: seq<Device>, groups: seq<DeviceGroup>) {
    && PlainName(d.name) && d.address != ""
    && (d.group != "" ==> exists g :: g in groups && g.name == d.group)
    && (d.keyType == "group" ==> d.group != "")
    && (d.keyType == "custom" && d.key == "" ==> exists key :: key != "" && FileKey(file, d.name, key))
  }

  /** The key that a device of a request stands for: its own, or that of the file when a custom one is left out. */
  predicate Asked(d: Device, file: seq<Device>, k: string, key: string) {
    && (d.keyType == "custom" && d.key != "" ==> key == d.key)
    && (d.keyType == "custom" && d.key == "" ==> key != "" && FileKey(file, d.name, key))
    && (d.keyType == "group" ==> key == "")
    && (d.keyType != "custom" && d.keyType != "group" ==> key == k)
  }

  /** A device of the new file for one of the request. */
  ghost predicate Fulfils(got: Device, d: Device, file: seq<Device>, k: string) {
    && got.name == d.name && got.address == d.address && got.platform == d.platform && got.group == d.group
    && exists key :: Asked(d, file, k, key) && ReadsAs(key, k, d.group != "", got.keyType, got.key)
  }

  /** The device with the key filled in that the request left out. */
  function Fill(d: Device, keys: map<string, string>): Device {
    if d.keyType == "custom" && d.key == "" then d.(key := Lookup(keys, d.name)) else d
  }

  function Fills(ds: seq<Device>, keys: map<string, string>): seq<Device> {
    if ds == [] then [] else [Fill(ds[0], keys)] + Fills(ds[1..], keys)
  }

  lemma {:induction false} FillsAt(ds: seq<Device>, keys: map<string, string>)
    ensures |Fills(ds, keys)| == |ds| && forall i :: 0 <= i < |ds| ==> Fills(ds, keys)[i] == Fill(ds[i], keys)
  {
    hide Fill;
    if ds != [] {
      FillsAt(ds[1..], keys);
    }
  }

  lemma {:induction false} FillKinds(ds: seq<Device>, keys: map<string, string>)
    ensures Specific(Fills(ds, keys)) == Fills(Specific(ds), keys)
    ensures CatchAlls(Fills(ds, keys)) == Fills(CatchAlls(ds), keys)
  {
    if ds != [] {
      hide IsCatchAll, Fill;
      FillKinds(ds[1..], keys);
      SameKind(ds[0], keys);
      var all := Fills(ds, keys);
      assert all[0] == Fill(ds[0], keys) && all[1..] == Fills(ds[1..], keys);
      FillsCons(ds[0], Specific(ds[1..]), keys);
      FillsCons(ds[0], CatchAlls(ds[1..]), keys);
    }
  }

  lemma SameKind(d: Device, keys: map<string, string>)
    ensures IsCatchAll(Fill(d, keys)) == IsCatchAll(d)
  {}

  lemma FillsCons(d: Device, ds: seq<Device>, keys: map<string, string>)
    ensures Fills([d] + ds, keys) == [Fill(d, keys)] + Fills(ds, keys) && Fills([] + ds, keys) == [] + Fills(ds, keys)
  {
    assert ([d] + ds)[1..] == ds && [] + ds == ds;
  }

  lemma {:induction false} FillsAppend(a: seq<Device>, b: seq<Device>, keys: map<string, string>)
    ensures Fills(a + b, keys) == Fills(a, keys) + Fills(b, keys)
  {
    if a == [] {
      assert a + b == b;
    } else {
      hide Fill;
      FillsAppend(a[1..], b, keys);
      assert (a + b)[1..] == a[1..] + b;
      Assoc([Fill(a[0], keys)], Fills(a[1..], keys), Fills(b, keys));
    }
  }

  /** Filling keys in keeps the display order. */
  lemma FillOrder(ds: seq<Device>, keys: map<string, string>)
    ensures Ordered(Fills(ds, keys)) == Fills(Ordered(ds), keys)
  {
    hide Specific, CatchAlls, Fills;
    FillKinds(ds, keys);
    FillsAppend(Specific(ds), CatchAlls(ds), keys);
  }

  /** The collected keys are those of the file. */
  lemma {:induction false} KeysOfFile(file: seq<Device>, name: string)
    ensures name in DeviceKeys(file) ==> FileKey(file, name, DeviceKeys(file)[name])
    ensures forall key :: FileKey(file, name, key) ==> name in DeviceKeys(file) && DeviceKeys(file)[name] == key
  {
    if file != [] {
      var n := |file| - 1;
      var front := file[..n];
      KeysOfFile(front, name);
      if file[n].name == name {
        assert LastNamed(file, n);
      } else {
        if name in DeviceKeys(file) {
          var key := DeviceKeys(file)[name];
          var i :| 0 <= i < |front| && front[i].name == name && front[i].key == key && LastNamed(front, i);
          assert LastNamed(file, i);
        }
        forall key | FileKey(file, name, key) ensures name in DeviceKeys(file) && DeviceKeys(file)[name] == key {
          var i :| 0 <= i < |file| && file[i].name == name && file[i].key == key && LastNamed(file, i);
          assert front[i] == file[i] && LastNamed(front, i);
          assert FileKey(front, name, key);
        }
      }
    }
  }

  lemma PlainNames(name: string)
    ensures ValidName(name) <==> PlainName(name)
  {
    assert " \t\n\"{}()=#" == " \t\n" + "\"{}" + "()=#";
  }

  /** The check of one device is the law. */
  lemma CheckIsLaw(d: Device, file: seq<Device>, groups: seq<DeviceGroup>)
    ensures var c := CheckDevice(d, NamesOf(groups), DeviceKeys(file));
      (c.Some? <==> Acceptable(d, file, groups)) && (c.Some? ==> c.value == Fill(d, DeviceKeys(file)))
  {
    hide ValidName, PlainName, DeviceKeys, FileKey;
    PlainNames(d.name);
    KeysOfFile(file, d.name);
  }

  lemma {:induction false} ChecksAreLaw(ds: seq<Device>, file: seq<Device>, groups: seq<DeviceGroup>)
    ensures var c := CheckDevices(ds, NamesOf(groups), DeviceKeys(file));
      && (c.Some? <==> forall i :: 0 <= i < |ds| ==> Acceptable(ds[i], file, groups))
      && (c.Some? ==> c.value == Fills(ds, DeviceKeys(file)))
  {
    hide CheckDevice, Acceptable, Fill, NamesOf, DeviceKeys;
    if ds != [] {
      CheckIsLaw(ds[0], file, groups);
      ChecksAreLaw(ds[1..], file, groups);
      assert forall i :: 0 < i < |ds| ==> ds[i] == ds[1..][i - 1];
    }
  }

  /** A filled-in device read back is the one that was asked for. */
  lemma FilledFulfils(got: Device, d: Device, file: seq<Device>, groups: seq<DeviceGroup>, k: string)
    requires Acceptable(d, file, groups) && ReadBack(got, Fill(d, DeviceKeys(file)), k)
    ensures Fulfils(got, d, file, k)
  {
    hide PlainName, DeviceKeys, FileKey, ReadsAs;
    KeysOfFile(file, d.name);
    var key := PrintedKey(Fill(d, DeviceKeys(file)), k);
    assert Asked(d, file, k, key);
  }

  lemma AllFulfil(got: seq<Device>, ds: seq<Device>, file: seq<Device>, groups: seq<DeviceGroup>, k: string)
    requires AllReadBack(got, Fills(ds, DeviceKeys(file)), k)
    requires forall i :: 0 <= i < |ds| ==> Acceptable(ds[i], file, groups)
    ensures |got| == |ds| && forall i :: 0 <= i < |ds| ==> Fulfils(got[i], ds[i], file, k)
  {
    FillsAt(ds, DeviceKeys(file));
    hide Acceptable, Fulfils, Fill, Fills, ReadBack, DeviceKeys;
    forall i | 0 <= i < |ds| ensures Fulfils(got[i], ds[i], file, k) {
      FilledFulfils(got[i], ds[i], file, groups, k);
    }
  }

  lemma OrderedAcceptable(ds: seq<Device>, file: seq<Device>, groups: seq<DeviceGroup>)
    requires forall i :: 0 <= i < |ds| ==> Acceptable(ds[i], file, groups)
    ensures forall i :: 0 <= i < |Ordered(ds)| ==> Acceptable(Ordered(ds)[i], file, groups)
  {
    hide Acceptable;
    SpecificMembers(ds);
    forall i | 0 <= i < |Ordered(ds)| ensures Acceptable(Ordered(ds)[i], file, groups) {
      assert Ordered(ds)[i] in ds;
    }
  }

  lemma UncountedGroups(got: seq<DeviceGroup>, groups: seq<DeviceGroup>, ds: seq<Device>, k: string)
    requires GroupsReadBack(got, Counted(groups, ds), k) && GroupsOk(groups, k)
    requires forall g :: g in groups ==> g.members == 0
    ensures got == groups
  {
    hide GroupOk, GroupReadBack, MembersOf;
    CountedOk(groups, ds, k);
    var counted := Counted(groups, ds);
    forall i | 0 <= i < |groups| ensures got[i] == groups[i] {
      SoundGroupReadsBack(counted[i], k, got[i]);
      assert groups[i] in groups;
    }
  }

  /** A devices request over a sound file is staged exactly when every device in it is acceptable, and refused as bad
      otherwise. The staged file holds the devices of the request in display order, each with the name, address,
      platform and group that were sent, and the key that was sent, or the file's when a custom one was left out; its
      groups are those of the file before. */
  lemma DevicesPut(src: string, k: string, ds: seq<Device>)
    requires Sound(src, k) && GlobalKeyOk(k) && forall d :: d in ds ==> RequestDeviceOk(d)
    ensures var a := DevicesAnswer(Some(src), k, ds); var file := DevicesOf(src, k).value;
      var groups := GroupsOf(src, k).value;
      && (a.Stage? <==> forall i :: 0 <= i < |ds| ==> Acceptable(ds[i], file, groups))
      && (!a.Stage? ==> a == Refuse(BadRequest))
      && (a.Stage? ==>
            && GroupsOf(a.content, k) == Good(groups) && DevicesOf(a.content, k).Good?
            && var got := DevicesOf(a.content, k).value;
               |got| == |ds| == |Ordered(ds)| && forall i :: 0 <= i < |ds| ==> Fulfils(got[i], Ordered(ds)[i], file, k))
  {
    hide CheckDevices, Counted, DevicesOk, GroupsOk, DevicesPrint, GroupsPrint, DevicesText, DevicesOf, GroupsOf,
      RequestDeviceOk, GlobalKeyOk, NamesOf, Acceptable, Fulfils, AllReadBack, GroupsReadBack, Fills, DeviceKeys,
      Ordered;
    var file, groups := DevicesOf(src, k).value, GroupsOf(src, k).value;
    var counted := Counted(groups, file);
    CountedOk(groups, file, k);
    NoDevicesOk(k);
    SoundPrint([], counted, k);
    GroupNamesOk(counted, k);
    DeviceKeysSafe(file, k);
    ChecksAreLaw(ds, file, groups);
    var checked := CheckDevices(ds, NamesOf(counted), DeviceKeys(file));
    OrderedCount(ds);
    if checked.Some? {
      CheckedDevices(ds, NamesOf(counted), DeviceKeys(file));
      var text := DevicesText(checked.value, counted, k);
      RenderedIsRead(checked.value, counted, k);
      FillOrder(ds, DeviceKeys(file));
      OrderedAcceptable(ds, file, groups);
      AllFulfil(DevicesOf(text, k).value, Ordered(ds), file, groups, k);
      GroupsUncounted(src, k);
      UncountedGroups(GroupsOf(text, k).value, groups, file, k);
    }
  }

  lemma {:induction false} KindsCount(ds: seq<Device>)
    ensures |Specific(ds)| + |CatchAlls(ds)| == |ds|
  {
    if ds != [] {
      KindsCount(ds[1..]);
    }
  }

  lemma OrderedCount(ds: seq<Device>)
    ensures |Ordered(ds)| == |ds|
  {
    KindsCount(ds);
  }

  // ---------------------------------------------------------------- the law of a groups request

  predicate GroupFileKey(file: seq<DeviceGroup>, name: string, key: string) {
    exists i :: 0 <= i < |file| && file[i].name == name && file[i].key == key && LastGroupNamed(file, i)
  }

  predicate LastGroupNamed(file: seq<DeviceGroup>, i: nat)
    requires i < |file|
  {
    forall j :: i < j < |file| ==> file[j].name != file[i].name
  }

  ghost predicate GroupAcceptable(g: DeviceGroup, file: seq<DeviceGroup>) {
    && PlainName(g.name)
    && (g.keyType == "custom" && g.key == "" ==> exists key :: key != "" && GroupFileKey(file, g.name, key))
  }

  predicate GroupAsked(g: DeviceGroup, file: seq<DeviceGroup>, k: string, key: string) {
    && (g.keyType == "custom" && g.key != "" ==> key == g.key)
    && (g.keyType == "custom" && g.key == "" ==> key != "" && GroupFileKey(file, g.name, key))
    && (g.keyType != "custom" ==> key == k)
  }

  ghost predicate GroupFulfils(got: DeviceGroup, g: DeviceGroup, file: seq<DeviceGroup>, k: string) {
    && got.name == g.name && got.description == g.description
    && exists key :: GroupAsked(g, file, k, key) && ReadsAs(key, k, false, got.keyType, got.key)
  }

  /** A device of the file would lose its group. */
  predicate Drops(file: seq<Device>, gs: seq<DeviceGroup>) {
    exists i :: 0 <= i < |file| && file[i].group != "" && Unnamed(gs, file[i].group)
  }

  predicate Unnamed(gs: seq<DeviceGroup>, name: string) {
    forall g :: g in gs ==> g.name != name
  }

  function FillGroup(g: DeviceGroup, keys: map<string, string>): DeviceGroup {
    if g.keyType == "custom" && g.key == "" then g.(key := Lookup(keys, g.name)) else g
  }

  function FillGroups(gs: seq<DeviceGroup>, keys: map<string, string>): seq<DeviceGroup> {
    if gs == [] then [] else [FillGroup(gs[0], keys)] + FillGroups(gs[1..], keys)
  }

  lemma {:induction false} FillGroupsAt(gs: seq<DeviceGroup>, keys: map<string, string>)
    ensures |FillGroups(gs, keys)| == |gs|
    ensures forall i :: 0 <= i < |gs| ==> FillGroups(gs, keys)[i] == FillGroup(gs[i], keys)
  {
    hide FillGroup;
    if gs != [] {
      FillGroupsAt(gs[1..], keys);
    }
  }

  lemma {:induction false} KeysOfGroups(file: seq<DeviceGroup>, name: string)
    ensures name in GroupKeys(file) ==> GroupFileKey(file, name, GroupKeys(file)[name])
    ensures forall key :: GroupFileKey(file, name, key) ==> name in GroupKeys(file) && GroupKeys(file)[name] == key
  {
    if file != [] {
      var n := |file| - 1;
      var front := file[..n];
      KeysOfGroups(front, name);
      if file[n].name == name {
        assert LastGroupNamed(file, n);
      } else {
        if name in GroupKeys(file) {
          var key := GroupKeys(file)[name];
          var i :| 0 <= i < |front| && front[i].name == name && front[i].key == key && LastGroupNamed(front, i);
          assert LastGroupNamed(file, i);
        }
        forall key | GroupFileKey(file, name, key) ensures name in GroupKeys(file) && GroupKeys(file)[name] == key {
          var i :| 0 <= i < |file| && file[i].name == name && file[i].key == key && LastGroupNamed(file, i);
          assert front[i] == file[i] && LastGroupNamed(front, i);
          assert GroupFileKey(front, name, key);
        }
      }
    }
  }

  /** The member counts play no part in the keys. */
  lemma {:induction false} CountedKeys(gs: seq<DeviceGroup>, ds: seq<Device>)
    ensures GroupKeys(Counted(gs, ds)) == GroupKeys(gs)
  {
    hide MembersOf;
    if gs != [] {
      var n := |gs| - 1;
      CountedKeys(gs[..n], ds);
      assert Counted(gs, ds)[..n] == Counted(gs[..n], ds);
    }
  }

  lemma GroupCheckIsLaw(g: DeviceGroup, file: seq<DeviceGroup>)
    ensures var c := CheckGroup(g, GroupKeys(file));
      (c.Some? <==> GroupAcceptable(g, file)) && (c.Some? ==> c.value == FillGroup(g, GroupKeys(file)))
  {
    hide ValidName, PlainName, GroupKeys, GroupFileKey;
    PlainNames(g.name);
    KeysOfGroups(file, g.name);
  }

  lemma {:induction false} GroupChecksAreLaw(gs: seq<DeviceGroup>, file: seq<DeviceGroup>)
    ensures var c := CheckGroups(gs, GroupKeys(file));
      && (c.Some? <==> forall i :: 0 <= i < |gs| ==> GroupAcceptable(gs[i], file))
      && (c.Some? ==> c.value == FillGroups(gs, GroupKeys(file)))
  {
    hide CheckGroup, GroupAcceptable, FillGroup, GroupKeys;
    if gs != [] {
      GroupCheckIsLaw(gs[0], file);
      GroupChecksAreLaw(gs[1..], file);
      assert forall i :: 0 < i < |gs| ==> gs[i] == gs[1..][i - 1];
    }
  }

  lemma FilledGroupFulfils(got: DeviceGroup, g: DeviceGroup, file: seq<DeviceGroup>, k: string)
    requires GroupAcceptable(g, file) && GroupReadBack(got, FillGroup(g, GroupKeys(file)), k)
    ensures GroupFulfils(got, g, file, k)
  {
    hide PlainName, GroupKeys, GroupFileKey, ReadsAs;
    KeysOfGroups(file, g.name);
    var filled := FillGroup(g, GroupKeys(file));
    var key := if filled.keyType == "custom" then filled.key else k;
    assert GroupAsked(g, file, k, key);
  }

  lemma AllGroupsFulfil(got: seq<DeviceGroup>, gs: seq<DeviceGroup>, file: seq<DeviceGroup>, k: string)
    requires GroupsReadBack(got, FillGroups(gs, GroupKeys(file)), k)
    requires forall i :: 0 <= i < |gs| ==> GroupAcceptable(gs[i], file)
    ensures |got| == |gs| && forall i :: 0 <= i < |gs| ==> GroupFulfils(got[i], gs[i], file, k)
  {
    FillGroupsAt(gs, GroupKeys(file));
    hide GroupAcceptable, GroupFulfils, FillGroup, FillGroups, GroupReadBack, GroupKeys;
    forall i | 0 <= i < |gs| ensures GroupFulfils(got[i], gs[i], file, k) {
      FilledGroupFulfils(got[i], gs[i], file, k);
    }
  }

  /** Orphans of the counted groups are the devices that would lose theirs. */
  lemma OrphansAreDropped(file: seq<Device>, groups: seq<DeviceGroup>, gs: seq<DeviceGroup>)
    requires GroupsWithin(file, NamesOf(groups)) && forall g :: g in groups ==> g.name != ""
    ensures Orphans(Counted(groups, file), NamesOf(gs), file) <==> Drops(file, gs)
  {
    hide MembersOf;
    var counted := Counted(groups, file);
    if Orphans(counted, NamesOf(gs), file) {
      var g :| g in counted && g.name !in NamesOf(gs) && MembersOf(file, g.name) > 0;
      HasMembers(file, g.name);
      var i :| 0 <= i < |file| && file[i].group == g.name;
      var j :| 0 <= j < |counted| && counted[j] == g;
      assert groups[j] in groups && g.name != "";
      assert Unnamed(gs, file[i].group);
    }
    if Drops(file, gs) {
      var i :| 0 <= i < |file| && file[i].group != "" && Unnamed(gs, file[i].group);
      var g :| g in groups && g.name == file[i].group;
      var j :| 0 <= j < |groups| && groups[j] == g;
      assert counted[j] in counted && counted[j].name == g.name;
      HasMembers(file, g.name);
    }
  }

  lemma NamedGroups(groups: seq<DeviceGroup>, k: string)
    requires GroupsOk(groups, k)
    ensures forall g :: g in groups ==> g.name != ""
  {
    hide NoteTextOk, CustomKeyOk;
    forall g | g in groups ensures g.name != "" {
      var i :| 0 <= i < |groups| && groups[i] == g;
      assert GroupOk(groups[i], k);
    }
  }

  lemma SameDevices(got: seq<Device>, file: seq<Device>, k: string)
    requires AllReadBack(got, file, k) && DevicesOk(file, k) && forall d :: d in file ==> d == Normal(d)
    ensures got == file
  {
    hide DeviceOk, ReadBack, Normal;
    forall i | 0 <= i < |file| ensures got[i] == file[i] {
      SoundReadsBack(file[i], k, got[i]);
      assert file[i] in file;
    }
  }

  lemma {:induction false} ParsedNormal(ns: seq<Node>, cs: seq<Comment>, k: string)
    ensures forall d :: d in DevicesIn(ns, cs, k) ==> d == Normal(d)
  {
    hide AssignValue, StripQuotes, Annotation;
    if ns != [] {
      ParsedNormal(ns[1..], cs, k);
    }
  }

  lemma DevicesNormal(src: string, k: string)
    requires DevicesOf(src, k).Good?
    ensures forall d :: d in DevicesOf(src, k).value ==> d == Normal(d)
  {
    hide Tree, Scan, DevicesIn, Normal;
    if Tree(src).Good? {
      ParsedNormal(Tree(src).value, Scan(src, 1).comments, k);
    }
  }

  lemma OrderedNormal(file: seq<Device>)
    requires forall d :: d in file ==> d == Normal(d)
    ensures forall d :: d in Ordered(file) ==> d == Normal(d)
  {
    hide Normal;
    SpecificMembers(file);
  }

  /** A groups request over a sound file is refused as bad when one of its groups is not acceptable, as a conflict when
      a device of the file would lose its group, and staged otherwise. The staged file holds the groups of the request
      in their order, each with the name and description that were sent, and the key that was sent, or the file's when a
      custom one was left out; its devices are those of the file before, in display order. */
  lemma GroupsPut(src: string, k: string, gs: seq<DeviceGroup>)
    requires Sound(src, k) && GlobalKeyOk(k) && forall g :: g in gs ==> RequestGroupOk(g)
    ensures var a := GroupsAnswer(Some(src), k, gs); var file := DevicesOf(src, k).value;
      var groups := GroupsOf(src, k).value; var fine := forall i :: 0 <= i < |gs| ==> GroupAcceptable(gs[i], groups);
      && (!fine ==> a == Refuse(BadRequest))
      && (fine && Drops(file, gs) ==> a == Refuse(Conflict))
      && (fine && !Drops(file, gs) ==>
            && a.Stage? && DevicesOf(a.content, k) == Good(Ordered(file)) && GroupsOf(a.content, k).Good?
            && var got := GroupsOf(a.content, k).value;
               |got| == |gs| && forall i :: 0 <= i < |gs| ==> GroupFulfils(got[i], gs[i], groups, k))
  {
    hide CheckGroups, Counted, DevicesOk, GroupsOk, DevicesPrint, GroupsPrint, DevicesText, DevicesOf, GroupsOf,
      RequestGroupOk, GlobalKeyOk, NamesOf, GroupAcceptable, GroupFulfils, AllReadBack, GroupsReadBack, FillGroups,
      GroupKeys, Ordered, Orphans, Drops, GroupsWithin, Normal;
    var file, groups := DevicesOf(src, k).value, GroupsOf(src, k).value;
    var counted := Counted(groups, file);
    CountedOk(groups, file, k);
    NoDevicesOk(k);
    SoundPrint(file, [], k);
    GroupKeysSafe(counted, k);
    CountedKeys(groups, file);
    GroupChecksAreLaw(gs, groups);
    NamedGroups(groups, k);
    OrphansAreDropped(file, groups, gs);
    var checked := CheckGroups(gs, GroupKeys(counted));
    if checked.Some? && !Orphans(counted, NamesOf(gs), file) {
      CheckedGroups(gs, GroupKeys(counted));
      var text := DevicesText(file, checked.value, k);
      RenderedIsRead(file, checked.value, k);
      AllGroupsFulfil(GroupsOf(text, k).value, gs, groups, k);
      DevicesNormal(src, k);
      OrderedNormal(file);
      OrderedOk(file, k);
      SameDevices(DevicesOf(text, k).value, Ordered(file), k);
    }
  }

  // ---------------------------------------------------------------- what becomes of an answer

  /** A refusal changes nothing. A text is staged in the open session and nowhere else, and is what is read from then
      on; without a session nothing changes, and the reply is a conflict. */
  lemma AnswerEffect(s: State, a: Answer)
    ensures var (t, reply) := Answered(s, a);
      && (a.Refuse? ==> t == s && reply == a.reply)
      && (a.Stage? && s.staging.None? ==> t == s && reply == Conflict)
      && (a.Stage? && s.staging.Some? ==>
            && reply == Staged && Effective(t, DevicesFile()) == Some(a.content)
            && t.live == s.live && t.backups == s.backups && t.golden == s.golden && t.marked == s.marked
            && (forall f :: f != DevicesFile() ==> Effective(t, f) == Effective(s, f)))
  {
    hide ManagedFiles;
    ManagedDevices();
  }

  lemma ManagedDevices()
    ensures DevicesFile() in ManagedFiles()
  {
    assert ManagedFiles()[4] == DevicesFile();
  }

  /** A file that is missing or does not parse is reported as such. */
  lemma UnreadableFile(src: Option<string>, k: string, ds: seq<Device>, gs: seq<DeviceGroup>)
    ensures src.None? || Tree(src.value).Bad? ==>
              DevicesAnswer(src, k, ds) == Refuse(Failed) && GroupsAnswer(src, k, gs) == Refuse(Failed)
    ensures src.Some? && Tree(src.value).Good? ==>
              DevicesAnswer(src, k, ds) != Refuse(Failed) && GroupsAnswer(src, k, gs) != Refuse(Failed)
  {
    hide Tree, Scan, DevicesIn, GroupsIn, CheckDevices, CheckGroups, DevicesText, Orphans, Counted;
  }
}
