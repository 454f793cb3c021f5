/** Referential integrity of 04-devices.cfg over every run of the API and the store. */
module DeviceRefsRuns {
  import opened Text
  import opened Parser
  import opened Layout
  import opened Canonical
  import opened Model
  import opened Devices
  import opened DevicesRoundTrip
  import opened EntityNames
  import opened Store
  import opened StoreRuns
  import opened DeviceRefs

  // ---------------------------------------------------------------- sound files

  predicate GroupsWithin(ds: seq<Device>, names: set<string>) {
    forall i :: 0 <= i < |ds| ==> ds[i].group == "" || ds[i].group in names
  }

  /** A file that parses to well-formed entities, every parent naming a group of the same file. */
  predicate Sound(src: string, k: string) {
    && DevicesOf(src, k).Good? && GroupsOf(src, k).Good?
    && DevicesOk(DevicesOf(src, k).value, k) && GroupsOk(GroupsOf(src, k).value, k)
    && GroupsWithin(DevicesOf(src, k).value, NamesOf(GroupsOf(src, k).value))
  }

  /** What is asked of the texts in a request beyond the checks of the handler. */
  predicate RequestDeviceOk(d: Device) {
    '\r' !in d.name && (d.address != "" ==> Words(d.address).Some?) && NoteTextOk(d.platform) &&
    (d.keyType == "custom" ==> QuoteSafe(d.key))
  }

  predicate RequestGroupOk(g: DeviceGroup) {
    '\r' !in g.name && NoteTextOk(g.description) && (g.keyType == "custom" ==> QuoteSafe(g.key))
  }

  lemma ReadNames(got: seq<DeviceGroup>, gs: seq<DeviceGroup>, k: string)
    requires GroupsReadBack(got, gs, k)
    ensures NamesOf(got) == NamesOf(gs)
  {
    forall i | 0 <= i < |gs| ensures got[i].name == gs[i].name {
      assert GroupReadBack(got[i], gs[i], k);
    }
    forall n ensures n in NamesOf(got) <==> n in NamesOf(gs) {
      if n in NamesOf(got) {
        var i :| 0 <= i < |got| && got[i].name == n;
        assert gs[i] in gs;
      }
      if n in NamesOf(gs) {
        var i :| 0 <= i < |gs| && gs[i].name == n;
        assert got[i] in got;
      }
    }
  }

  lemma OrderedWithin(ds: seq<Device>, names: set<string>)
    requires GroupsWithin(ds, names)
    ensures GroupsWithin(Ordered(ds), names)
  {
    hide Specific, CatchAlls;
    SpecificMembers(ds);
    var o := Ordered(ds);
    forall i | 0 <= i < |o| ensures o[i].group == "" || o[i].group in names {
      assert o[i] in ds;
    }
  }

  lemma ReadSound(got: seq<Device>, ds: seq<Device>, k: string, names: set<string>)
    requires AllReadBack(got, ds, k) && DevicesPrint(ds) && GlobalKeyOk(k) && GroupsWithin(ds, names)
    ensures DevicesOk(got, k) && GroupsWithin(got, names)
  {
    hide DeviceOk, DevicePrints, GlobalKeyOk;
    forall i | 0 <= i < |got| ensures DeviceOk(got[i], k) && got[i].group == ds[i].group {
      assert ReadBack(got[i], ds[i], k);
      hide ReadBack;
      ReadIsSound(got[i], ds[i], k);
    }
  }

  lemma ReadGroupsSound(got: seq<DeviceGroup>, gs: seq<DeviceGroup>, k: string)
    requires GroupsReadBack(got, gs, k) && GroupsPrint(gs) && GlobalKeyOk(k)
    ensures GroupsOk(got, k)
  {
    hide GroupOk, GroupPrints, GlobalKeyOk, GroupReadBack;
    forall i | 0 <= i < |got| ensures GroupOk(got[i], k) {
      ReadGroupIsSound(got[i], gs[i], k);
    }
  }

  /** A text rendered from entities that can be printed is sound. */
  lemma RenderedIsSound(ds: seq<Device>, gs: seq<DeviceGroup>, k: string)
    requires DevicesPrint(ds) && GroupsPrint(gs) && GlobalKeyOk(k) && GroupsWithin(ds, NamesOf(gs))
    ensures Sound(DevicesText(ds, gs, k), k)
  {
    hide DevicesOf, GroupsOf, DevicesText, DevicesPrint, GroupsPrint, DevicesOk, GroupsOk, GroupsWithin, NamesOf,
      AllReadBack, GroupsReadBack, Ordered, GlobalKeyOk;
    RenderedIsRead(ds, gs, k);
    var text := DevicesText(ds, gs, k);
    OrderedPrints(ds);
    OrderedWithin(ds, NamesOf(gs));
    ReadSound(DevicesOf(text, k).value, Ordered(ds), k, NamesOf(gs));
    ReadGroupsSound(GroupsOf(text, k).value, gs, k);
    ReadNames(GroupsOf(text, k).value, gs, k);
  }

  // ---------------------------------------------------------------- checked requests

  predicate NamesOk(names: set<string>) {
    forall n :: n in names ==> Words(n).Some?
  }

  predicate KeysSafe(keys: map<string, string>) {
    forall n :: n in keys ==> QuoteSafe(keys[n])
  }

  lemma CheckedDevice(d: Device, names: set<string>, keys: map<string, string>)
    requires RequestDeviceOk(d) && NamesOk(names) && KeysSafe(keys)
    requires CheckDevice(d, names, keys).Some?
    ensures var c := CheckDevice(d, names, keys).value; DevicePrints(c) && (c.group == "" || c.group in names)
  {
    hide Words, NoteTextOk, QuoteSafe;
    NameIsOneWord(d.name, "");
  }

  lemma CheckedGroup(g: DeviceGroup, keys: map<string, string>)
    requires RequestGroupOk(g) && KeysSafe(keys)
    requires CheckGroup(g, keys).Some?
    ensures var c := CheckGroup(g, keys).value; GroupPrints(c) && c.name == g.name
  {
    hide Words, NoteTextOk, QuoteSafe;
    NameIsOneWord(g.name, "");
  }

  lemma {:induction false} CheckedDevices(ds: seq<Device>, names: set<string>, keys: map<string, string>)
    requires (forall d :: d in ds ==> RequestDeviceOk(d)) && NamesOk(names) && KeysSafe(keys)
    requires CheckDevices(ds, names, keys).Some?
    ensures var cs := CheckDevices(ds, names, keys).value; DevicesPrint(cs) && GroupsWithin(cs, names)
  {
    hide RequestDeviceOk, NamesOk, KeysSafe, CheckDevice, DevicePrints;
    if ds != [] {
      assert ds[0] in ds;
      CheckedDevice(ds[0], names, keys);
      CheckedDevices(ds[1..], names, keys);
      assert CheckDevices(ds, names, keys).value[1..] == CheckDevices(ds[1..], names, keys).value;
    }
  }

  lemma {:induction false} CheckedGroups(gs: seq<DeviceGroup>, keys: map<string, string>)
    requires (forall g :: g in gs ==> RequestGroupOk(g)) && KeysSafe(keys)
    requires CheckGroups(gs, keys).Some?
    ensures var cs := CheckGroups(gs, keys).value; GroupsPrint(cs) && NamesOf(cs) == NamesOf(gs)
  {
    hide RequestGroupOk, KeysSafe, CheckGroup, GroupPrints;
    if gs != [] {
      assert gs[0] in gs;
      CheckedGroup(gs[0], keys);
      CheckedGroups(gs[1..], keys);
      var cs := CheckGroups(gs, keys).value;
      assert cs[1..] == CheckGroups(gs[1..], keys).value;
      NamesCons(gs);
      NamesCons(cs);
    }
  }

  lemma NamesCons(gs: seq<DeviceGroup>)
    requires gs != []
    ensures NamesOf(gs) == {gs[0].name} + NamesOf(gs[1..])
  {
    assert gs == [gs[0]] + gs[1..];
  }

  lemma {:induction false} DeviceKeysSafe(ds: seq<Device>, k: string)
    requires DevicesOk(ds, k)
    ensures KeysSafe(DeviceKeys(ds))
  {
    if ds != [] {
      hide BareOk, Words, NoteTextOk;
      DeviceKeysSafe(ds[..|ds| - 1], k);
      assert DeviceOk(ds[|ds| - 1], k);
    }
  }

  lemma {:induction false} GroupKeysSafe(gs: seq<DeviceGroup>, k: string)
    requires GroupsOk(gs, k)
    ensures KeysSafe(GroupKeys(gs))
  {
    if gs != [] {
      hide BareOk, NoteTextOk;
      GroupKeysSafe(gs[..|gs| - 1], k);
      assert GroupOk(gs[|gs| - 1], k);
    }
  }

  lemma GroupNamesOk(gs: seq<DeviceGroup>, k: string)
    requires GroupsOk(gs, k)
    ensures NamesOk(NamesOf(gs))
  {
    hide Words;
    forall n | n in NamesOf(gs) ensures Words(n).Some? {
      var i :| 0 <= i < |gs| && gs[i].name == n;
      assert GroupOk(gs[i], k);
      BareIsWord(n);
    }
  }

  lemma BareIsWord(w: string)
    requires BareOk(w)
    ensures Words(w).Some?
  {
    LayoutLexing.FirstOfBare(w, "");
    assert w + "" == w;
  }

  lemma CountedOk(gs: seq<DeviceGroup>, ds: seq<Device>, k: string)
    requires GroupsOk(gs, k)
    ensures GroupsOk(Counted(gs, ds), k) && NamesOf(Counted(gs, ds)) == NamesOf(gs)
  {
    hide BareOk, NoteTextOk, CustomKeyOk, MembersOf;
    var r := Counted(gs, ds);
    forall i | 0 <= i < |r| ensures GroupOk(r[i], k) {
      assert GroupOk(gs[i], k);
    }
    forall n ensures n in NamesOf(r) <==> n in NamesOf(gs) {
      if n in NamesOf(r) {
        var i :| 0 <= i < |r| && r[i].name == n;
        assert gs[i] in gs;
      }
      if n in NamesOf(gs) {
        var i :| 0 <= i < |gs| && gs[i].name == n;
        assert r[i] in r;
      }
    }
  }

  lemma {:induction false} HasMembers(ds: seq<Device>, name: string)
    ensures MembersOf(ds, name) > 0 <==> exists i :: 0 <= i < |ds| && ds[i].group == name
  {
    if ds != [] {
      HasMembers(ds[..|ds| - 1], name);
    }
  }

  // ---------------------------------------------------------------- what the handlers stage is sound

  lemma DevicesAnswerSound(src: string, k: string, ds: seq<Device>)
    requires Sound(src, k) && GlobalKeyOk(k) && forall d :: d in ds ==> RequestDeviceOk(d)
    ensures var a := DevicesAnswer(Some(src), k, ds); a.Stage? ==> Sound(a.content, k)
  {
    hide CheckDevices, Counted, DevicesOk, GroupsOk, DevicesPrint, GroupsPrint, DevicesText, DevicesOf, GroupsOf,
      RequestDeviceOk, GlobalKeyOk, NamesOf;
    var existing, groups := DevicesOf(src, k).value, GroupsOf(src, k).value;
    var counted := Counted(groups, existing);
    CountedOk(groups, existing, k);
    NoDevicesOk(k);
    SoundPrint([], counted, k);
    GroupNamesOk(counted, k);
    DeviceKeysSafe(existing, k);
    var checked := CheckDevices(ds, NamesOf(counted), DeviceKeys(existing));
    if checked.Some? {
      CheckedDevices(ds, NamesOf(counted), DeviceKeys(existing));
      RenderedIsSound(checked.value, counted, k);
    }
  }

  lemma NoDevicesOk(k: string)
    ensures DevicesOk([], k) && GroupsOk([], k)
  {}

  /** Dropping a group is refused as long as a device of the file names it. */
  lemma NoOrphans(devices: seq<Device>, current: seq<DeviceGroup>, incoming: set<string>)
    requires GroupsWithin(devices, NamesOf(current)) && !Orphans(current, incoming, devices)
    ensures GroupsWithin(devices, incoming)
  {
    hide MembersOf;
    forall i | 0 <= i < |devices| && devices[i].group != "" ensures devices[i].group in incoming {
      HasMembers(devices, devices[i].group);
      var g :| g in current && g.name == devices[i].group;
    }
  }

  lemma GroupsAnswerSound(src: string, k: string, gs: seq<DeviceGroup>)
    requires Sound(src, k) && GlobalKeyOk(k) && forall g :: g in gs ==> RequestGroupOk(g)
    ensures var a := GroupsAnswer(Some(src), k, gs); a.Stage? ==> Sound(a.content, k)
  {
    hide CheckGroups, Counted, DevicesOk, GroupsOk, DevicesPrint, GroupsPrint, DevicesText, DevicesOf, GroupsOf,
      RequestDeviceOk, GlobalKeyOk, NamesOf, GroupsWithin, Orphans;
    var devices, groups := DevicesOf(src, k).value, GroupsOf(src, k).value;
    var current := Counted(groups, devices);
    CountedOk(groups, devices, k);
    NoDevicesOk(k);
    SoundPrint(devices, [], k);
    GroupKeysSafe(current, k);
    var checked := CheckGroups(gs, GroupKeys(current));
    if checked.Some? && !Orphans(current, NamesOf(gs), devices) {
      CheckedGroups(gs, GroupKeys(current));
      NoOrphans(devices, current, NamesOf(gs));
      RenderedIsSound(devices, checked.value, k);
    }
  }

  // ---------------------------------------------------------------- runs

  /** A call of the store, or a request to one of the two handlers. */
  datatype Call = OfStore(e: Event) | PutDeviceList(ds: seq<Device>) | PutGroupList(gs: seq<DeviceGroup>)

  /** Other handlers write other files; the texts of the requests are well-formed. */
  predicate CallOk(call: Call) {
    match call
    case OfStore(e) => e.WriteFile? ==> e.file != DevicesFile()
    case PutDeviceList(ds) => forall d :: d in ds ==> RequestDeviceOk(d)
    case PutGroupList(gs) => forall g :: g in gs ==> RequestGroupOk(g)
  }

  ghost function After(s: State, c: Setup, k: string, call: Call): State {
    match call
    case OfStore(e) => Step(s, c, e)
    case PutDeviceList(ds) => Answered(s, DevicesAnswer(Effective(s, DevicesFile()), k, ds)).0
    case PutGroupList(gs) => Answered(s, GroupsAnswer(Effective(s, DevicesFile()), k, gs)).0
  }

  ghost function AfterAll(s: State, c: Setup, k: string, calls: seq<Call>): State
    decreases calls
  {
    if calls == [] then s else AfterAll(After(s, c, k, calls[0]), c, k, calls[1..])
  }

  /** Every version of the devices file - live, staged, baseline or in a backup - is sound. */
  ghost predicate AllSound(s: State, k: string) {
    forall v :: Holds(s, DevicesFile(), v) ==> Sound(v, k)
  }

  lemma EffectiveIsHeld(s: State, f: string)
    ensures Effective(s, f).Some? ==> Holds(s, f, Effective(s, f).value)
  {
    hide ManagedFiles;
  }

  lemma AnsweredStep(s: State, c: Setup, a: Answer)
    ensures Answered(s, a).0 == s || (a.Stage? && Answered(s, a).0 == Step(s, c, WriteFile(DevicesFile(), a.content)))
  {
    hide ManagedFiles;
  }

  lemma AnswerKeepsSound(s: State, c: Setup, k: string, a: Answer)
    requires AllSound(s, k) && (a.Stage? ==> Sound(a.content, k))
    ensures AllSound(Answered(s, a).0, k)
  {
    hide Step, Answered, Sound, Holds, DevicesFile;
    AnsweredStep(s, c, a);
    if Answered(s, a).0 != s {
      forall v | Holds(Answered(s, a).0, DevicesFile(), v) ensures Sound(v, k) {
        StepProvenance(s, c, WriteFile(DevicesFile(), a.content), DevicesFile(), v);
      }
    }
  }

  lemma CallKeepsSound(s: State, c: Setup, k: string, call: Call)
    requires AllSound(s, k) && CallOk(call) && GlobalKeyOk(k)
    ensures AllSound(After(s, c, k, call), k)
  {
    hide Step, Sound, Holds, DevicesFile, GlobalKeyOk, DevicesAnswer, GroupsAnswer, Effective, RequestDeviceOk,
      RequestGroupOk, Answered;
    EffectiveIsHeld(s, DevicesFile());
    var src := Effective(s, DevicesFile());
    match call {
      case OfStore(e) =>
        forall v | Holds(Step(s, c, e), DevicesFile(), v) ensures Sound(v, k) {
          StepProvenance(s, c, e, DevicesFile(), v);
        }
      case PutDeviceList(ds) =>
        NoFileNoText(k, ds, []);
        if src.Some? {
          DevicesAnswerSound(src.value, k, ds);
        }
        AnswerKeepsSound(s, c, k, DevicesAnswer(src, k, ds));
      case PutGroupList(gs) =>
        NoFileNoText(k, [], gs);
        if src.Some? {
          GroupsAnswerSound(src.value, k, gs);
        }
        AnswerKeepsSound(s, c, k, GroupsAnswer(src, k, gs));
    }
  }

  lemma NoFileNoText(k: string, ds: seq<Device>, gs: seq<DeviceGroup>)
    ensures DevicesAnswer(None, k, ds) == Refuse(Failed) && GroupsAnswer(None, k, gs) == Refuse(Failed)
  {}

  /** Over every run of PUTs interleaved with any store calls, every version of the devices file has every
      device's parent naming a group in the same file. */
  lemma {:induction false} ReferencesHold(s: State, c: Setup, k: string, calls: seq<Call>)
    requires AllSound(s, k) && GlobalKeyOk(k) && forall call :: call in calls ==> CallOk(call)
    ensures AllSound(AfterAll(s, c, k, calls), k)
    decreases calls
  {
    if calls != [] {
      hide AllSound, GlobalKeyOk, CallOk, After;
      assert calls[0] in calls;
      CallKeepsSound(s, c, k, calls[0]);
      ReferencesHold(After(s, c, k, calls[0]), c, k, calls[1..]);
    }
  }
}
