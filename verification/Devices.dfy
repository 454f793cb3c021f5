/** 04-devices.cfg: rendering device groups and devices to text and reading them back. */
module Devices {
  import opened Text
  import opened Lexer
  import opened Parser
  import opened Layout
  import opened Canonical
  import opened Model
  import opened Rendering
  import opened Mapping

  // ---------------------------------------------------------------- display order

  /** A device whose address matches everything. */
  predicate IsCatchAll(d: Device) {
    HasSuffix(d.address, "/0")
  }

  function Specific(ds: seq<Device>): seq<Device> {
    if ds == [] then [] else (if IsCatchAll(ds[0]) then [] else [ds[0]]) + Specific(ds[1..])
  }

  function CatchAlls(ds: seq<Device>): seq<Device> {
    if ds == [] then [] else (if IsCatchAll(ds[0]) then [ds[0]] else []) + CatchAlls(ds[1..])
  }

  /** Specific devices in their order, then the catch-alls in theirs. */
  function Ordered(ds: seq<Device>): seq<Device> {
    Specific(ds) + CatchAlls(ds)
  }

  /** No catch-all stands before a specific device. */
  predicate CatchAllsLast(ds: seq<Device>) {
    forall i, j :: 0 <= i < j < |ds| && IsCatchAll(ds[i]) ==> IsCatchAll(ds[j])
  }

  lemma {:induction false} SpecificAppend(a: seq<Device>, b: seq<Device>)
    ensures Specific(a + b) == Specific(a) + Specific(b) && CatchAlls(a + b) == CatchAlls(a) + CatchAlls(b)
  {
    if a == [] {
      assert a + b == b;
    } else {
      hide IsCatchAll;
      SpecificAppend(a[1..], b);
      assert (a + b)[1..] == a[1..] + b;
      Assoc(if IsCatchAll(a[0]) then [] else [a[0]], Specific(a[1..]), Specific(b));
      Assoc(if IsCatchAll(a[0]) then [a[0]] else [], CatchAlls(a[1..]), CatchAlls(b));
    }
  }

  lemma {:induction false} SpecificMembers(ds: seq<Device>)
    ensures forall i :: 0 <= i < |Specific(ds)| ==> !IsCatchAll(Specific(ds)[i]) && Specific(ds)[i] in ds
    ensures forall i :: 0 <= i < |CatchAlls(ds)| ==> IsCatchAll(CatchAlls(ds)[i]) && CatchAlls(ds)[i] in ds
  {
    if ds != [] {
      SpecificMembers(ds[1..]);
    }
  }

  /** The display order is the only stable arrangement with the catch-alls last: it keeps the order
      within each kind, and any list that does so with no catch-all before a specific device is it. */
  lemma {:induction false} OrderedIsStableSort(ds: seq<Device>, out: seq<Device>)
    ensures out == Ordered(ds) <==>
      CatchAllsLast(out) && Specific(out) == Specific(ds) && CatchAlls(out) == CatchAlls(ds)
  {
    var s, c := Specific(ds), CatchAlls(ds);
    SpecificMembers(ds);
    AllSpecific(s);
    AllCatchAll(c);
    SpecificAppend(s, c);
    if CatchAllsLast(out) {
      SortedSplits(out);
    }
  }

  lemma {:induction false} AllSpecific(ds: seq<Device>)
    requires forall i :: 0 <= i < |ds| ==> !IsCatchAll(ds[i])
    ensures Specific(ds) == ds && CatchAlls(ds) == []
  {
    if ds != [] {
      AllSpecific(ds[1..]);
    }
  }

  lemma {:induction false} AllCatchAll(ds: seq<Device>)
    requires forall i :: 0 <= i < |ds| ==> IsCatchAll(ds[i])
    ensures Specific(ds) == [] && CatchAlls(ds) == ds
  {
    if ds != [] {
      AllCatchAll(ds[1..]);
    }
  }

  lemma {:induction false} SortedSplits(ds: seq<Device>)
    requires CatchAllsLast(ds)
    ensures Specific(ds) + CatchAlls(ds) == ds
  {
    if ds != [] {
      if IsCatchAll(ds[0]) {
        AllCatchAll(ds);
      } else {
        SortedSplits(ds[1..]);
      }
    }
  }

  /** The comparison SortDevicesForDisplay gives to the stable sort. */
  predicate Less(a: Device, b: Device) {
    !IsCatchAll(a) && IsCatchAll(b)
  }

  /** SortDevicesForDisplay: a copy of the list, stably sorted in place. */
  method SortDevicesForDisplay(ds: seq<Device>) returns (out: seq<Device>)
    ensures out == Ordered(ds)
    ensures CatchAllsLast(out)
  {
    hide Specific, CatchAlls, Ordered, IsCatchAll;
    out := ds;
    for i := 0 to |ds|
      invariant |out| == |ds| && CatchAllsLast(out[..i])
      invariant Specific(out) == Specific(ds) && CatchAlls(out) == CatchAlls(ds)
    {
      out := Insert(out, i);
    }
    assert out[..|ds|] == out;
    OrderedIsStableSort(ds, out);
  }

  /** Element i moves left past the elements it is less than. */
  method Insert(ds: seq<Device>, i: nat) returns (out: seq<Device>)
    requires i < |ds| && CatchAllsLast(ds[..i])
    ensures |out| == |ds| && CatchAllsLast(out[..i + 1])
    ensures Specific(out) == Specific(ds) && CatchAlls(out) == CatchAlls(ds)
  {
    hide Specific, CatchAlls, IsCatchAll;
    out := ds;
    var j := i;
    while j > 0 && Less(out[j], out[j - 1])
      invariant 0 <= j <= i && |out| == |ds| && out[..j] == ds[..j] && out[j] == ds[i]
      invariant forall k :: j < k <= i ==> IsCatchAll(out[k])
      invariant Specific(out) == Specific(ds) && CatchAlls(out) == CatchAlls(ds)
    {
      SwapKeepsKinds(out, j - 1);
      out := out[j - 1 := out[j]][j := out[j - 1]];
      j := j - 1;
    }
    forall a, b | 0 <= a < b <= i && IsCatchAll(out[a]) ensures IsCatchAll(out[b]) {
      if b < j {
        assert out[..j][a] == ds[..i][a] && out[..j][b] == ds[..i][b];
      } else if b == j {
        assert out[..j][a] == ds[..i][a] && out[..j][j - 1] == ds[..i][j - 1];
      }
    }
  }

  lemma SwapKeepsKinds(ds: seq<Device>, i: nat)
    requires i + 1 < |ds| && Less(ds[i + 1], ds[i])
    ensures var out := ds[i := ds[i + 1]][i + 1 := ds[i]];
      Specific(out) == Specific(ds) && CatchAlls(out) == CatchAlls(ds)
  {
    hide Specific, CatchAlls, IsCatchAll;
    var out := ds[i := ds[i + 1]][i + 1 := ds[i]];
    var a, p, q, b := ds[..i], [ds[i], ds[i + 1]], [ds[i + 1], ds[i]], ds[i + 2..];
    assert ds == a + (p + b) && out == a + (q + b);
    SpecificAppend(a, p + b);
    SpecificAppend(a, q + b);
    SpecificAppend(p, b);
    SpecificAppend(q, b);
    PairKinds(ds[i], ds[i + 1]);
  }

  lemma PairKinds(a: Device, b: Device)
    requires Less(b, a)
    ensures Specific([a, b]) == Specific([b, a]) && CatchAlls([a, b]) == CatchAlls([b, a])
  {
    hide IsCatchAll;
    SpecificAppend([a], [b]);
    SpecificAppend([b], [a]);
    assert [a] + [b] == [a, b] && [b] + [a] == [b, a];
    assert Specific([a]) == [] && CatchAlls([b]) == [];
  }

  // ---------------------------------------------------------------- rendering

  function GroupKey(g: DeviceGroup, globalKey: string): string {
    if g.keyType != "custom" then globalKey else g.key
  }

  function BlockHead(name: string): string {
    "device " + name + " {\n"
  }

  function GroupText(g: DeviceGroup, globalKey: string): string {
    BlockHead(g.name) + (if g.description != "" then "    # @description " + g.description + "\n" else "") +
    ("    key = \"" + GroupKey(g, globalKey) + "\"\n") + "}\n\n"
  }

  function GroupTexts(gs: seq<DeviceGroup>, globalKey: string): string {
    if gs == [] then "" else GroupText(gs[0], globalKey) + GroupTexts(gs[1..], globalKey)
  }

  function KeyLine(d: Device, globalKey: string): string {
    if d.keyType == "custom" then "    key     = \"" + d.key + "\"\n"
    else if d.keyType == "group" then ""
    else "    key     = \"" + globalKey + "\"\n"
  }

  function DeviceText(d: Device, globalKey: string): string {
    BlockHead(d.name) + (if d.platform != "" then "    # @platform " + d.platform + "\n" else "") +
    ("    address = " + d.address + "\n") + (if d.group != "" then "    parent  = " + d.group + "\n" else "") +
    KeyLine(d, globalKey) + "}\n\n"
  }

  function DeviceTexts(ds: seq<Device>, globalKey: string): string {
    if ds == [] then "" else DeviceText(ds[0], globalKey) + DeviceTexts(ds[1..], globalKey)
  }

  function DevicesTitle(): string {
    "Network devices (NAS) definitions"
  }

  function DevicesBanner(): string {
    Banner("04-devices.cfg", DevicesTitle())
  }

  /** RenderDevices as a text: groups first, then devices with the catch-alls last. */
  function DevicesText(ds: seq<Device>, gs: seq<DeviceGroup>, globalKey: string): string {
    DevicesBanner() + GroupTexts(gs, globalKey) + DeviceTexts(Ordered(ds), globalKey)
  }

  /** RenderDevices */
  method RenderDevices(ds: seq<Device>, gs: seq<DeviceGroup>, globalKey: string) returns (text: string)
    ensures text == DevicesText(ds, gs, globalKey)
  {
    hide DeviceText, GroupText, DevicesBanner, Ordered;
    var b := new Builder();
    b.WriteString(DevicesBanner());
    assert b.text == DevicesBanner();
    for i := 0 to |gs|
      invariant b.text + GroupTexts(gs[i..], globalKey) == DevicesBanner() + GroupTexts(gs, globalKey)
    {
      ghost var before := b.text;
      WriteGroup(b, gs[i], globalKey);
      assert gs[i..][1..] == gs[i + 1..];
      Assoc(before, GroupText(gs[i], globalKey), GroupTexts(gs[i + 1..], globalKey));
    }
    assert b.text + "" == b.text;
    ghost var head := b.text;
    var ordered := Partition(ds);
    for i := 0 to |ordered|
      invariant b.text + DeviceTexts(ordered[i..], globalKey) == head + DeviceTexts(ordered, globalKey)
    {
      ghost var before := b.text;
      WriteDevice(b, ordered[i], globalKey);
      assert ordered[i..][1..] == ordered[i + 1..];
      Assoc(before, DeviceText(ordered[i], globalKey), DeviceTexts(ordered[i + 1..], globalKey));
    }
    assert b.text + "" == b.text;
    text := b.text;
  }

  /** The loop that sets the catch-alls aside, and the append after it. */
  method Partition(ds: seq<Device>) returns (ordered: seq<Device>)
    ensures ordered == Ordered(ds)
  {
    ordered := [];
    var catchAll := [];
    for i := 0 to |ds|
      invariant ordered + Specific(ds[i..]) == Specific(ds)
      invariant catchAll + CatchAlls(ds[i..]) == CatchAlls(ds)
    {
      assert ds[i..][1..] == ds[i + 1..];
      ghost var s, c := Specific(ds[i + 1..]), CatchAlls(ds[i + 1..]);
      if HasSuffix(ds[i].address, "/0") {
        Assoc(catchAll, [ds[i]], c);
        assert [] + s == s;
        catchAll := catchAll + [ds[i]];
      } else {
        Assoc(ordered, [ds[i]], s);
        assert [] + c == c;
        ordered := ordered + [ds[i]];
      }
    }
    assert ordered + [] == ordered && catchAll + [] == catchAll;
    ordered := ordered + catchAll;
  }

  /** One round of the loop over groups. */
  method WriteGroup(b: Builder, g: DeviceGroup, globalKey: string)
    modifies b
    ensures b.text == old(b.text) + GroupText(g, globalKey)
  {
    ghost var base := b.text;
    var key := g.key;
    if g.keyType != "custom" {
      key := globalKey;
    }
    b.WriteString("device " + g.name + " {\n");
    ghost var t := BlockHead(g.name);
    ghost var note := if g.description != "" then "    # @description " + g.description + "\n" else "";
    if g.description != "" {
      b.WriteString("    # @description " + g.description + "\n");
    } else {
      assert b.text + "" == b.text;
    }
    ghost var line := "    key = \"" + GroupKey(g, globalKey) + "\"\n";
    hide BlockHead, GroupKey;
    Assoc(base, t, note);
    b.WriteString("    key = \"" + key + "\"\n");
    Assoc(base, t + note, line);
    b.WriteString("}\n\n");
    Assoc(base, t + note + line, "}\n\n");
  }

  method WriteOptional(b: Builder, write: bool, line: string)
    modifies b
    ensures b.text == old(b.text) + (if write then line else "")
  {
    if write {
      b.WriteString(line);
    } else {
      assert b.text + "" == b.text;
    }
  }

  /** One round of the loop over devices. */
  method WriteDevice(b: Builder, d: Device, globalKey: string)
    modifies b
    ensures b.text == old(b.text) + DeviceText(d, globalKey)
  {
    ghost var base := b.text;
    b.WriteString("device " + d.name + " {\n");
    ghost var t := BlockHead(d.name);
    hide BlockHead;
    var note := "    # @platform " + d.platform + "\n";
    WriteOptional(b, d.platform != "", note);
    ghost var t1 := if d.platform != "" then note else "";
    Assoc(base, t, t1);
    var address := "    address = " + d.address + "\n";
    b.WriteString(address);
    Assoc(base, t + t1, address);
    var parent := "    parent  = " + d.group + "\n";
    WriteOptional(b, d.group != "", parent);
    ghost var t2 := if d.group != "" then parent else "";
    Assoc(base, t + t1 + address, t2);
    if d.keyType == "custom" {
      b.WriteString("    key     = \"" + d.key + "\"\n");
    } else if d.keyType == "group" {
      assert b.text + "" == b.text;
    } else {
      b.WriteString("    key     = \"" + globalKey + "\"\n");
    }
    ghost var key := KeyLine(d, globalKey);
    assert b.text == base + (t + t1 + address + t2) + key;
    hide KeyLine;
    Assoc(base, t + t1 + address + t2, key);
    b.WriteString("}\n\n");
    Assoc(base, t + t1 + address + t2 + key, "}\n\n");
  }

  // ---------------------------------------------------------------- reading back

  /** annotation: the first comment in a range of lines that carries the given key. */
  function Annotation(cs: seq<Comment>, start: nat, end: nat, key: string): string {
    if cs == [] then ""
    else if cs[0].line >= start && (end == 0 || cs[0].line <= end) && HasPrefix(cs[0].text, "@" + key + " ")
    then Trim(cs[0].text[|key| + 2..])
    else Annotation(cs[1..], start, end, key)
  }

  function Placeholder(): string {
    "${TACACS_KEY}"
  }

  predicate IsDevice(n: Node) {
    n.Block? && n.name == "device" && AssignValue(n.children, "address") != ""
  }

  predicate IsGroup(n: Node) {
    n.Block? && n.name == "device" && AssignValue(n.children, "address") == ""
  }

  function DeviceOf(n: Node, cs: seq<Comment>, globalKey: string): Device
    requires n.Block?
  {
    var key := StripQuotes(AssignValue(n.children, "key"));
    var group := AssignValue(n.children, "parent");
    var isGlobal := key == globalKey || key == Placeholder();
    Device(n.tag, AssignValue(n.children, "address"), Annotation(cs, n.startLine, n.endLine, "platform"),
           if isGlobal then "global" else if key == "" && group != "" then "group" else "custom",
           if isGlobal then "" else key, group, "-", "unknown")
  }

  function GroupOf(n: Node, cs: seq<Comment>, globalKey: string): DeviceGroup
    requires n.Block?
  {
    var key := StripQuotes(AssignValue(n.children, "key"));
    var isGlobal := key == globalKey || key == Placeholder();
    DeviceGroup(n.tag, Annotation(cs, n.startLine, n.endLine, "description"),
                if isGlobal then "global" else "custom", if isGlobal then "" else key, 0)
  }

  function DevicesIn(ns: seq<Node>, cs: seq<Comment>, globalKey: string): seq<Device> {
    if ns == [] then []
    else (if IsDevice(ns[0]) then [DeviceOf(ns[0], cs, globalKey)] else []) + DevicesIn(ns[1..], cs, globalKey)
  }

  function GroupsIn(ns: seq<Node>, cs: seq<Comment>, globalKey: string): seq<DeviceGroup> {
    if ns == [] then []
    else (if IsGroup(ns[0]) then [GroupOf(ns[0], cs, globalKey)] else []) + GroupsIn(ns[1..], cs, globalKey)
  }

  /** What ParseDevices yields for a file. */
  function DevicesOf(src: string, globalKey: string): Result<seq<Device>> {
    match Tree(src)
    case Bad(e) => Bad(e)
    case Good(ns) => Good(DevicesIn(ns, Scan(src, 1).comments, globalKey))
  }

  /** What ParseDeviceGroups yields for a file. */
  function GroupsOf(src: string, globalKey: string): Result<seq<DeviceGroup>> {
    match Tree(src)
    case Bad(e) => Bad(e)
    case Good(ns) => Good(GroupsIn(ns, Scan(src, 1).comments, globalKey))
  }

  method FindAnnotation(cs: seq<Comment>, start: nat, end: nat, key: string) returns (v: string)
    ensures v == Annotation(cs, start, end, key)
  {
    var prefix := "@" + key + " ";
    for i := 0 to |cs|
      invariant Annotation(cs[i..], start, end, key) == Annotation(cs, start, end, key)
    {
      assert cs[i..][1..] == cs[i + 1..];
      var c := cs[i];
      if c.line >= start && (end == 0 || c.line <= end) && HasPrefix(c.text, prefix) {
        return Trim(c.text[|prefix|..]);
      }
    }
    return "";
  }

  /** ParseDevices */
  method ParseDevices(src: string, globalKey: string) returns (r: Result<seq<Device>>)
    ensures r == DevicesOf(src, globalKey)
  {
    hide DeviceOf, AssignValue;
    var tree, comments := Parse(src);
    if tree.Bad? {
      return Bad(tree.error);
    }
    var ns := tree.value;
    var devices := [];
    for i := 0 to |ns|
      invariant devices + DevicesIn(ns[i..], comments, globalKey) == DevicesIn(ns, comments, globalKey)
    {
      assert ns[i..][1..] == ns[i + 1..];
      ghost var more := DevicesIn(ns[i + 1..], comments, globalKey);
      var n := ns[i];
      assert [] + more == more;
      if !n.Block? || n.name != "device" {
        continue;
      }
      var address := SearchAssign(n.children, "address");
      if address == "" {
        continue;
      }
      var d := DeviceFromNode(n, comments, globalKey);
      Assoc(devices, [d], more);
      devices := devices + [d];
    }
    assert devices + [] == devices;
    return Good(devices);
  }

  /** One round of ParseDevices' loop, for a block with an address. */
  method DeviceFromNode(n: Node, comments: seq<Comment>, globalKey: string) returns (d: Device)
    requires n.Block?
    ensures d == DeviceOf(n, comments, globalKey)
  {
    hide AssignValue, Annotation, StripQuotes, Placeholder;
    var address := SearchAssign(n.children, "address");
    var rawKey := SearchAssign(n.children, "key");
    var key := StripQuotes(rawKey);
    var platform := FindAnnotation(comments, n.startLine, n.endLine, "platform");
    var group := SearchAssign(n.children, "parent");
    d := Device(n.tag, address, platform, "custom", key, group, "-", "unknown");
    if key == globalKey || key == Placeholder() {
      d := d.(keyType := "global", key := "");
    } else if key == "" && group != "" {
      d := d.(keyType := "group");
    }
  }

  /** ParseDeviceGroups */
  method ParseDeviceGroups(src: string, globalKey: string) returns (r: Result<seq<DeviceGroup>>)
    ensures r == GroupsOf(src, globalKey)
  {
    hide GroupOf, AssignValue;
    var tree, comments := Parse(src);
    if tree.Bad? {
      return Bad(tree.error);
    }
    var ns := tree.value;
    var groups := [];
    for i := 0 to |ns|
      invariant groups + GroupsIn(ns[i..], comments, globalKey) == GroupsIn(ns, comments, globalKey)
    {
      assert ns[i..][1..] == ns[i + 1..];
      ghost var more := GroupsIn(ns[i + 1..], comments, globalKey);
      var n := ns[i];
      assert [] + more == more;
      if !n.Block? || n.name != "device" {
        continue;
      }
      var address := SearchAssign(n.children, "address");
      if address != "" {
        continue;
      }
      var g := GroupFromNode(n, comments, globalKey);
      Assoc(groups, [g], more);
      groups := groups + [g];
    }
    assert groups + [] == groups;
    return Good(groups);
  }

  /** One round of ParseDeviceGroups' loop, for a block without an address. */
  method GroupFromNode(n: Node, comments: seq<Comment>, globalKey: string) returns (g: DeviceGroup)
    requires n.Block?
    ensures g == GroupOf(n, comments, globalKey)
  {
    hide AssignValue, Annotation, StripQuotes, Placeholder;
    var rawKey := SearchAssign(n.children, "key");
    var key := StripQuotes(rawKey);
    var description := FindAnnotation(comments, n.startLine, n.endLine, "description");
    g := DeviceGroup(n.tag, description, "custom", key, 0);
    if key == globalKey || key == Placeholder() {
      g := g.(keyType := "global", key := "");
    }
  }

  // ---------------------------------------------------------------- names

  /** ValidateEntityName accepts the name. */
  predicate ValidName(name: string) {
    name != "" && forall c | c in name :: c !in " \t\n\"{}()=#"
  }

  /** A name is accepted when it is not empty and holds no blank, tab, newline, quote, brace, parenthesis, equal sign or
      number sign. */
  lemma AcceptedNames(name: string)
    ensures ValidName(name) <==>
            name != "" && forall i :: 0 <= i < |name| ==>
              name[i] != ' ' && name[i] != '\t' && name[i] != '\n' && name[i] != '"' && name[i] != '{' &&
              name[i] != '}' && name[i] != '(' && name[i] != ')' && name[i] != '=' && name[i] != '#'
  {
    assert forall i :: 0 <= i < |name| ==> name[i] in name;
  }

  /** A device is a catch-all when its address is a prefix of length 0. */
  lemma CatchAllsAre(d: Device)
    ensures IsCatchAll(d) <==> exists net: string :: d.address == net + "/0"
  {
    if IsCatchAll(d) {
      assert d.address == d.address[..|d.address| - 2] + "/0";
    }
    forall net: string | d.address == net + "/0" ensures IsCatchAll(d) {
      assert d.address[|net|..] == "/0";
    }
  }
}
