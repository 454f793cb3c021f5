/** Device groups and devices survive rendering and parsing: fields, annotations and order. */
module DevicesRoundTrip {
  import opened Text
  import opened Lexer
  import opened Parser
  import opened Layout
  import opened LayoutParsing
  import opened Canonical
  import opened Model
  import opened Rendering
  import opened Mapping
  import opened Devices

  // ---------------------------------------------------------------- well-formed fields

  predicate NoteTextOk(text: string) {
    text == "" || OneLine(text)
  }

  /** A device whose fields can be printed: its key type may be any text, and a custom key any that can stand between
      quotes. */
  predicate DevicePrints(d: Device) {
    && BareOk(d.name) && Words(d.address).Some? && NoteTextOk(d.platform) && (d.group == "" || Words(d.group).Some?)
    && (d.keyType == "custom" ==> QuoteSafe(d.key))
  }

  predicate GroupPrints(g: DeviceGroup) {
    BareOk(g.name) && NoteTextOk(g.description) && (g.keyType == "custom" ==> QuoteSafe(g.key))
  }

  predicate DevicesPrint(ds: seq<Device>) {
    forall i :: 0 <= i < |ds| ==> DevicePrints(ds[i])
  }

  predicate GroupsPrint(gs: seq<DeviceGroup>) {
    forall i :: 0 <= i < |gs| ==> GroupPrints(gs[i])
  }

  /** A custom key that is not taken for the shared one. */
  predicate CustomKeyOk(key: string, globalKey: string) {
    QuoteSafe(key) && key != globalKey && key != "${TACACS_KEY}"
  }

  /** A device as it is read back from a file, but for what the file does not hold. */
  predicate DeviceOk(d: Device, globalKey: string) {
    BareOk(d.name) && Words(d.address).Some? && NoteTextOk(d.platform) && (d.group == "" || Words(d.group).Some?) &&
    ((d.keyType == "custom" && CustomKeyOk(d.key, globalKey) && (d.key == "" ==> d.group == "")) ||
     (d.keyType == "group" && d.key == "" && d.group != "" && globalKey != "") ||
     (d.keyType == "global" && d.key == ""))
  }

  predicate GroupOk(g: DeviceGroup, globalKey: string) {
    BareOk(g.name) && NoteTextOk(g.description) &&
    ((g.keyType == "custom" && CustomKeyOk(g.key, globalKey)) || (g.keyType == "global" && g.key == ""))
  }

  predicate DevicesOk(ds: seq<Device>, globalKey: string) {
    forall i :: 0 <= i < |ds| ==> DeviceOk(ds[i], globalKey)
  }

  predicate GroupsOk(gs: seq<DeviceGroup>, globalKey: string) {
    forall i :: 0 <= i < |gs| ==> GroupOk(gs[i], globalKey)
  }

  /** A shared key that can stand between quotes. */
  predicate GlobalKeyOk(globalKey: string) {
    QuoteSafe(globalKey)
  }

  /** The key in a device's block; no block of key type group holds one. */
  function PrintedKey(d: Device, k: string): string {
    if d.keyType == "custom" then d.key else if d.keyType == "group" then "" else k
  }

  /** The key type and key that a printed key reads as: the shared key and the placeholder of the shipped files stand
      for the shared one, no key in a group for the group's, and any other is the block's own. */
  predicate ReadsAs(printed: string, k: string, grouped: bool, keyType: string, key: string) {
    && (printed == k || printed == "${TACACS_KEY}" ==> keyType == "global" && key == "")
    && (printed != k && printed != "${TACACS_KEY}" && printed == "" && grouped ==> keyType == "group" && key == "")
    && (printed != k && printed != "${TACACS_KEY}" && (printed != "" || !grouped) ==>
          keyType == "custom" && key == printed)
  }

  /** One device read back from the block of another: all that the block shows, and its key by what is printed. */
  predicate ReadBack(got: Device, d: Device, k: string) {
    && got.name == d.name && got.address == d.address && got.platform == d.platform && got.group == d.group
    && got.lastSeen == "-" && got.status == "unknown"
    && ReadsAs(PrintedKey(d, k), k, d.group != "", got.keyType, got.key)
  }

  predicate GroupReadBack(got: DeviceGroup, g: DeviceGroup, k: string) {
    && got.name == g.name && got.description == g.description && got.members == 0
    && ReadsAs(if g.keyType == "custom" then g.key else k, k, false, got.keyType, got.key)
  }

  predicate AllReadBack(got: seq<Device>, ds: seq<Device>, k: string) {
    |got| == |ds| && forall i :: 0 <= i < |ds| ==> ReadBack(got[i], ds[i], k)
  }

  predicate GroupsReadBack(got: seq<DeviceGroup>, gs: seq<DeviceGroup>, k: string) {
    |got| == |gs| && forall i :: 0 <= i < |gs| ==> GroupReadBack(got[i], gs[i], k)
  }

  /** The fields the file does not hold are fixed when it is read. */
  function Normal(d: Device): Device {
    d.(lastSeen := "-", status := "unknown")
  }

  function Normals(ds: seq<Device>): seq<Device> {
    seq(|ds|, i requires 0 <= i < |ds| => Normal(ds[i]))
  }

  function NormalGroups(gs: seq<DeviceGroup>): seq<DeviceGroup> {
    seq(|gs|, i requires 0 <= i < |gs| => gs[i].(members := 0))
  }

  /** A sound device is read back as it is, and only so. */
  lemma SoundReadsBack(d: Device, k: string, got: Device)
    requires DeviceOk(d, k)
    ensures ReadBack(got, d, k) <==> got == Normal(d)
  {
    hide BareOk, Words, NoteTextOk, QuoteSafe;
  }

  lemma SoundGroupReadsBack(g: DeviceGroup, k: string, got: DeviceGroup)
    requires GroupOk(g, k)
    ensures GroupReadBack(got, g, k) <==> got == g.(members := 0)
  {
    hide BareOk, NoteTextOk, QuoteSafe;
  }

  /** What is read back is sound. */
  lemma ReadIsSound(got: Device, d: Device, k: string)
    requires DevicePrints(d) && GlobalKeyOk(k) && ReadBack(got, d, k)
    ensures DeviceOk(got, k)
  {
    hide BareOk, Words, NoteTextOk;
  }

  lemma ReadGroupIsSound(got: DeviceGroup, g: DeviceGroup, k: string)
    requires GroupPrints(g) && GlobalKeyOk(k) && GroupReadBack(got, g, k)
    ensures GroupOk(got, k)
  {
    hide BareOk, NoteTextOk;
  }

  // ---------------------------------------------------------------- the printed tree

  /** A block of the file: a group or a device. */
  datatype Entry = OfGroup(g: DeviceGroup) | OfDevice(d: Device)

  predicate EntryOk(e: Entry) {
    match e case OfGroup(g) => GroupPrints(g) case OfDevice(d) => DevicePrints(d)
  }

  predicate EntriesOk(es: seq<Entry>) {
    forall i :: 0 <= i < |es| ==> EntryOk(es[i])
  }

  function EntryName(e: Entry): string {
    match e case OfGroup(g) => g.name case OfDevice(d) => d.name
  }

  function EntryText(e: Entry, k: string): string {
    match e case OfGroup(g) => GroupText(g, k) case OfDevice(d) => DeviceText(d, k)
  }

  function EntryTexts(es: seq<Entry>, k: string): string {
    if es == [] then "" else EntryText(es[0], k) + EntryTexts(es[1..], k)
  }

  function NoteOf(e: Entry): string {
    match e case OfGroup(g) => g.description case OfDevice(d) => d.platform
  }

  function NoteKey(e: Entry): string {
    match e case OfGroup(_) => "description" case OfDevice(_) => "platform"
  }

  function NoteItemsOf(e: Entry): seq<Item> {
    if NoteOf(e) == "" then [] else [Note(4, "@" + NoteKey(e) + " " + NoteOf(e))]
  }

  /** An assignment line, or nothing. */
  function Opt(present: bool, it: Item): seq<Item> {
    if present then [it] else []
  }

  function AddressItem(d: Device): Item {
    AssignItem(4, "address", 1, 1, Words(d.address).GetOr([]))
  }

  function ParentItem(d: Device): Item {
    AssignItem(4, "parent", 2, 1, Words(d.group).GetOr([]))
  }

  function DeviceKey(d: Device, k: string): string {
    if d.keyType == "custom" then d.key else k
  }

  function KeyItem(e: Entry, k: string): Item {
    match e
    case OfGroup(g) => AssignItem(4, "key", 1, 1, [Quoted(GroupKey(g, k))])
    case OfDevice(d) => AssignItem(4, "key", 5, 1, [Quoted(DeviceKey(d, k))])
  }

  function HasKey(e: Entry): bool {
    e.OfGroup? || e.d.keyType != "group"
  }

  function AssignItems(e: Entry, k: string): seq<Item> {
    match e
    case OfGroup(_) => [KeyItem(e, k)]
    case OfDevice(d) => [AddressItem(d)] + (Opt(d.group != "", ParentItem(d)) + Opt(HasKey(e), KeyItem(e, k)))
  }

  function EntryBody(e: Entry, k: string): seq<Item> {
    NoteItemsOf(e) + AssignItems(e, k)
  }

  function EntryItem(e: Entry, k: string): Item {
    Group([Gapped(0, Bare("device")), Gapped(1, Bare(EntryName(e)))], 0, EntryBody(e, k))
  }

  function EntryItems(es: seq<Entry>, k: string): seq<Item> {
    if es == [] then [] else [EntryItem(es[0], k)] + ([Item.Blank] + EntryItems(es[1..], k))
  }

  // ---------------------------------------------------------------- annotations

  ghost predicate Before(cs: seq<Comment>, line: nat) {
    forall i :: 0 <= i < |cs| ==> cs[i].line < line
  }

  ghost predicate After(cs: seq<Comment>, line: nat) {
    forall i :: 0 <= i < |cs| ==> cs[i].line >= line
  }

  ghost predicate Within(cs: seq<Comment>, from: nat, until: nat) {
    After(cs, from) && Before(cs, until)
  }

  lemma WithinAppend(a: seq<Comment>, b: seq<Comment>, from: nat, mid: nat, mid': nat, until: nat)
    requires Within(a, from, mid) && Within(b, mid', until) && from <= mid' && mid <= until
    ensures Within(a + b, from, until)
  {}

  lemma {:induction false} AllNotesInRange(items: seq<Item>, line: nat)
    ensures Within(AllNotes(items, line), line, line + LinesAll(items))
    decreases items, 0
  {
    if items != [] {
      hide ItemNotes, Lines, Within;
      var next := line + Lines(items[0]);
      NotesInRange(items[0], line);
      AllNotesInRange(items[1..], next);
      WithinAppend(ItemNotes(items[0], line), AllNotes(items[1..], next), line, next, next, line + LinesAll(items));
    }
  }

  lemma {:induction false} NotesInRange(it: Item, line: nat)
    ensures Within(ItemNotes(it, line), line, line + Lines(it))
    decreases it, 1
  {
    hide AllNotes, LinesAll, Within;
    match it
    case Group(_, _, body) =>
      AllNotesInRange(body, line + 1);
      WithinWider(AllNotes(body, line + 1), line + 1, line + 1 + LinesAll(body), line, line + Lines(it));
    case Branch(_, _, _, _, body, otherwise) =>
      var mid := line + 1 + LinesAll(body);
      AllNotesInRange(body, line + 1);
      AllNotesInRange(otherwise, mid + 1);
      NothingWithin(mid);
      WithinWider(AllNotes(body, line + 1), line + 1, mid, line, mid);
      var more := if otherwise == [] then [] else AllNotes(otherwise, mid + 1);
      WithinWider(more, if otherwise == [] then mid else mid + 1,
                  if otherwise == [] then mid else mid + 1 + LinesAll(otherwise), mid, line + Lines(it));
      WithinAppend(AllNotes(body, line + 1), more, line, mid, mid, line + Lines(it));
    case Note(_, text) => OneWithin(text, line);
    case _ =>
      NothingWithin(line);
      WithinWider([], line, line, line, line + Lines(it));
  }

  lemma NothingWithin(line: nat)
    ensures Within([], line, line)
  {}

  lemma OneWithin(text: string, line: nat)
    ensures Within([Comment(text, line)], line, line + 1)
  {}

  lemma WithinWider(cs: seq<Comment>, from: nat, until: nat, from': nat, until': nat)
    requires Within(cs, from, until) && from' <= from && until <= until'
    ensures Within(cs, from', until')
  {}

  lemma {:induction false} AnnotationSkips(pre: seq<Comment>, cs: seq<Comment>, start: nat, end: nat, key: string)
    requires Before(pre, start)
    ensures Annotation(pre + cs, start, end, key) == Annotation(cs, start, end, key)
  {
    if pre == [] {
      assert pre + cs == cs;
    } else {
      assert (pre + cs)[1..] == pre[1..] + cs;
      AnnotationSkips(pre[1..], cs, start, end, key);
    }
  }

  lemma {:induction false} AnnotationNone(cs: seq<Comment>, start: nat, end: nat, key: string)
    requires After(cs, end + 1) && end > 0
    ensures Annotation(cs, start, end, key) == ""
  {
    if cs != [] {
      AnnotationNone(cs[1..], start, end, key);
    }
  }

  /** Among all comments of the file, only the block's own note is in the block's range of lines. */
  lemma OwnAnnotation(pre: seq<Comment>, notes: seq<Comment>, post: seq<Comment>, start: nat, end: nat, key: string)
    requires Before(pre, start) && After(post, end + 1) && start <= end && end > 0
    requires |notes| <= 1 && (|notes| == 1 ==> start <= notes[0].line <= end)
    ensures Annotation(pre + (notes + post), start, end, key) ==
      if |notes| == 1 && HasPrefix(notes[0].text, "@" + key + " ") then Trim(notes[0].text[|key| + 2..]) else ""
  {
    AnnotationSkips(pre, notes + post, start, end, key);
    AnnotationNone(post, start, end, key);
    if notes == [] {
      assert notes + post == post;
    } else {
      assert (notes + post)[1..] == post;
    }
  }

  lemma NoteText(e: Entry, key: string)
    requires NoteTextOk(NoteOf(e)) && NoteOf(e) != ""
    requires key == "platform" || key == "description"
    ensures var text := "@" + NoteKey(e) + " " + NoteOf(e); var prefix := "@" + key + " ";
      && OneLine(text)
      && (HasPrefix(text, prefix) <==> key == NoteKey(e))
      && (HasPrefix(text, prefix) ==> Trim(text[|key| + 2..]) == NoteOf(e))
  {
    var text, prefix := "@" + NoteKey(e) + " " + NoteOf(e), "@" + key + " ";
    NoteHead(NoteKey(e), NoteOf(e));
    if key == NoteKey(e) {
      assert text[..|prefix|] == prefix && text[|key| + 2..] == NoteOf(e);
      TrimmedIsTrim(NoteOf(e));
    } else {
      assert text[1] == NoteKey(e)[0] && prefix[1] == key[0];
      if |prefix| <= |text| {
        assert text[..|prefix|][1] == text[1];
      }
    }
  }

  lemma NoteHead(key: string, text: string)
    requires OneLine(text) && text != "" && (key == "platform" || key == "description")
    ensures OneLine("@" + key + " " + text)
  {
    var s := "@" + key + " " + text;
    assert s[0] == '@' && s[|s| - 1] == text[|text| - 1];
    assert '\n' !in "platform" && '\n' !in "description";
    assert '\n' !in "@" && '\n' !in " ";
  }

  // ---------------------------------------------------------------- one block

  lemma KeyWords()
    ensures BareOk("address") && "address" != "if" && BareOk("parent") && "parent" != "if" && BareOk("key")
    ensures "key" != "if"
  {}

  lemma AddressRow(d: Device, line: nat)
    requires Words(d.address).Some?
    ensures var it := AddressItem(d);
      && ItemOk(it) && Print(it) == "    address = " + d.address + "\n" && it.Line?
      && Nodes(it, line) == [Assign("address", d.address, line, line)] && Lines(it) == 1 && ItemNotes(it, line) == []
  {
    hide *;
    var xs := Words(d.address).value;
    WordsSound(d.address);
    KeyWords();
    AssignRow(4, "address", 1, 1, xs, line);
    AddressIs(d);
    OneSpace();
    IndentTexts();
    assert "    " + "address" + " " + "=" + " " == "    address = ";
  }

  lemma AddressIs(d: Device)
    requires Words(d.address).Some?
    ensures AddressItem(d) == AssignItem(4, "address", 1, 1, Words(d.address).value) && AddressItem(d).Line?
  {}

  lemma ParentRow(d: Device, line: nat)
    requires Words(d.group).Some?
    ensures var it := ParentItem(d);
      && ItemOk(it) && Print(it) == "    parent  = " + d.group + "\n" && it.Line?
      && Nodes(it, line) == [Assign("parent", d.group, line, line)] && Lines(it) == 1 && ItemNotes(it, line) == []
  {
    hide *;
    var xs := Words(d.group).value;
    WordsSound(d.group);
    KeyWords();
    AssignRow(4, "parent", 2, 1, xs, line);
    ParentIs(d);
    OneSpace();
    MoreSpaces();
    IndentTexts();
    assert "    " + "parent" + "  " + "=" + " " == "    parent  = ";
  }

  lemma ParentIs(d: Device)
    requires Words(d.group).Some?
    ensures ParentItem(d) == AssignItem(4, "parent", 2, 1, Words(d.group).value) && ParentItem(d).Line?
  {}

  lemma MoreSpaces()
    ensures Spaces(2) == "  " && Spaces(5) == "     "
  {}

  lemma QuotedRow(key: string, before: nat, line: nat)
    requires QuoteSafe(key) && before > 0
    ensures var it := AssignItem(4, "key", before, 1, [Quoted(key)]);
      && ItemOk(it) && Print(it) == "    key" + Spaces(before) + "= \"" + key + "\"\n" && it.Line?
      && Nodes(it, line) == [Assign("key", "\"" + key + "\"", line, line)]
      && Lines(it) == 1 && ItemNotes(it, line) == []
  {
    hide *;
    KeyWords();
    QuotedIs(key, before);
    AssignRow(4, "key", before, 1, [Quoted(key)], line);
    OneSpace();
    IndentTexts();
    QuotedGlue(Spaces(before), key);
  }

  lemma QuotedIs(key: string, before: nat)
    requires QuoteSafe(key)
    ensures LexemesOk([Quoted(key)]) && Join(Sources([Quoted(key)]), " ") == "\"" + key + "\""
    ensures AssignItem(4, "key", before, 1, [Quoted(key)]).Line?
  {
    assert LexemeOk(Quoted(key));
    hide QuoteSafe;
    assert Sources([Quoted(key)]) == ["\"" + key + "\""];
    JoinOne("\"" + key + "\"", " ");
  }

  lemma QuotedGlue(s: string, key: string)
    ensures "    " + "key" + s + "=" + " " + ("\"" + key + "\"") + "\n" == "    key" + s + "= \"" + key + "\"\n"
  {
    assert "    " + "key" == "    key";
    assert "=" + " " + "\"" == "= \"";
    assert "\"" + "\n" == "\"\n";
    Pieces("    key" + s, "=", " ", "\"", key, "\"", "\n");
  }

  lemma Pieces(h: string, e: string, b: string, q: string, key: string, z: string, n: string)
    ensures h + e + b + (q + key + z) + n == h + (e + b + q) + key + (z + n)
  {}

  lemma StripsBack(key: string)
    ensures StripQuotes("\"" + key + "\"") == key
  {
    var s := "\"" + key + "\"";
    assert Trimmed(s) by {
      assert s[0] == '"' && s[|s| - 1] == '"';
    }
    TrimmedIsTrim(s);
    assert s[1..|s| - 1] == key;
  }

  // The assignment lines of a block, and what looking a key up in them yields.

  lemma {:induction false} OptItem(present: bool, it: Item, line: nat)
    requires present ==> ItemOk(it) && it.Line? && Lines(it) == 1 && ItemNotes(it, line) == []
    ensures ItemsOk(Opt(present, it)) && PrintAll(Opt(present, it)) == if present then Print(it) else ""
    ensures AllNodes(Opt(present, it), line) == if present then Nodes(it, line) else []
    ensures LinesAll(Opt(present, it)) == (if present then 1 else 0) && AllNotes(Opt(present, it), line) == []
    ensures !OpensWithElse(Opt(present, it)) || (present && OpensWithElse([it]))
  {
    hide ItemOk, Print, Nodes, Lines, ItemNotes;
    assert Print(it) + "" == Print(it);
    assert Nodes(it, line) + [] == Nodes(it, line);
  }

  lemma NotElseRow(indent: nat, key: string, before: nat, after: nat, xs: seq<Lexeme>)
    requires key == "address" || key == "parent" || key == "key"
    ensures !OpensWithElse([AssignItem(indent, key, before, after, xs)])
  {
    assert key[0] != "else"[0];
  }

  function AssignText(e: Entry, k: string): string {
    match e
    case OfGroup(g) => "    key = \"" + GroupKey(g, k) + "\"\n"
    case OfDevice(d) =>
      ("    address = " + d.address + "\n") +
      ((if d.group != "" then "    parent  = " + d.group + "\n" else "") + KeyLine(d, k))
  }

  function KeyValue(e: Entry, k: string): string {
    match e
    case OfGroup(g) => "\"" + GroupKey(g, k) + "\""
    case OfDevice(d) => if d.keyType == "group" then "" else "\"" + DeviceKey(d, k) + "\""
  }

  ghost predicate Lookups(ns: seq<Node>, e: Entry, k: string) {
    && AssignValue(ns, "address") == (if e.OfGroup? then "" else e.d.address)
    && (e.OfDevice? ==> AssignValue(ns, "parent") == e.d.group)
    && AssignValue(ns, "key") == KeyValue(e, k)
  }

  lemma KeyRow(e: Entry, k: string, line: nat)
    requires EntryOk(e) && GlobalKeyOk(k) && HasKey(e)
    ensures var it := KeyItem(e, k);
      && ItemOk(it) && it.Line? && Lines(it) == 1 && ItemNotes(it, line) == [] && !OpensWithElse([it])
      && Nodes(it, line) == [Assign("key", KeyValue(e, k), line, line)]
    ensures Print(KeyItem(e, k)) == if e.OfGroup? then AssignText(e, k) else KeyLine(e.d, k)
  {
    hide *;
    var key := if e.OfGroup? then GroupKey(e.g, k) else DeviceKey(e.d, k);
    var before := if e.OfGroup? then 1 else 5;
    KeySafe(e, k);
    QuotedRow(key, before, line);
    NotElseRow(4, "key", before, 1, [Quoted(key)]);
    KeyGlue(e, k);
  }

  lemma KeySafe(e: Entry, k: string)
    requires EntryOk(e) && GlobalKeyOk(k) && HasKey(e)
    ensures e.OfGroup? ==> QuoteSafe(GroupKey(e.g, k))
    ensures e.OfDevice? ==> QuoteSafe(DeviceKey(e.d, k))
  {
    hide QuoteSafe;
  }

  lemma KeyGlue(e: Entry, k: string)
    requires HasKey(e)
    ensures e.OfGroup? ==> (
      && KeyItem(e, k) == AssignItem(4, "key", 1, 1, [Quoted(GroupKey(e.g, k))])
      && KeyValue(e, k) == "\"" + GroupKey(e.g, k) + "\""
      && "    key" + Spaces(1) + "= \"" + GroupKey(e.g, k) + "\"\n" == AssignText(e, k))
    ensures e.OfDevice? ==> (
      && KeyItem(e, k) == AssignItem(4, "key", 5, 1, [Quoted(DeviceKey(e.d, k))])
      && KeyValue(e, k) == "\"" + DeviceKey(e.d, k) + "\""
      && "    key" + Spaces(5) + "= \"" + DeviceKey(e.d, k) + "\"\n" == KeyLine(e.d, k))
  {
    hide AssignItem, Spaces;
    OneSpace();
    MoreSpaces();
    assert "    key" + " " + "= \"" == "    key = \"" && "    key" + "     " + "= \"" == "    key     = \"";
  }

  lemma DeviceParts(d: Device, k: string)
    requires DevicePrints(d)
    ensures Words(d.address).Some? && (d.group != "" ==> Words(d.group).Some?) && d.address != ""
  {}

  lemma DeviceAssigns(d: Device, k: string, line: nat)
    requires DevicePrints(d) && GlobalKeyOk(k)
    ensures var e := OfDevice(d); var items := AssignItems(e, k);
      && ItemsOk(items) && PrintAll(items) == AssignText(e, k) && AllNotes(items, line) == [] && !OpensWithElse(items)
      && Lookups(AllNodes(items, line), e, k)
  {
    hide *;
    var e := OfDevice(d);
    var parent, key := d.group != "", HasKey(e);
    var lk := line + 1 + (if parent then 1 else 0);
    EntryIs(d, k);
    DeviceParts(d, k);
    AddressRow(d, line);
    if parent {
      ParentRow(d, line + 1);
      ParentIs(d);
      NotElseRow(4, "parent", 2, 1, Words(d.group).value);
    }
    if key {
      KeyRow(e, k, lk);
    }
    OptItem(parent, ParentItem(d), line + 1);
    OptItem(key, KeyItem(e, k), lk);
    var p, q := Opt(parent, ParentItem(d)), Opt(key, KeyItem(e, k));
    ItemsOkAppend(p, q);
    OpensAppend(p, q);
    PrintAllAppend(p, q);
    AllNodesAppend(p, q, line + 1);
    ConsItems(AddressItem(d), p + q, line);
    AddressIs(d);
    NotElseRow(4, "address", 1, 1, Words(d.address).value);
    AddressFirst(AddressItem(d), p + q);
    NoKeyLine(d, k);
    DeviceLookups(AllNodes(AssignItems(e, k), line), d, k, line, lk);
  }

  lemma EntryIs(d: Device, k: string)
    requires DevicePrints(d)
    ensures EntryOk(OfDevice(d))
    ensures AssignItems(OfDevice(d), k) ==
            [AddressItem(d)] + (Opt(d.group != "", ParentItem(d)) + Opt(HasKey(OfDevice(d)), KeyItem(OfDevice(d), k)))
    ensures AssignText(OfDevice(d), k) == ("    address = " + d.address + "\n") +
      ((if d.group != "" then "    parent  = " + d.group + "\n" else "") + KeyLine(d, k))
  {}

  lemma AddressFirst(it: Item, items: seq<Item>)
    requires it.Line? && !OpensWithElse([it])
    ensures !OpensWithElse([it] + items) && [] + AllNotes(items, 0) == AllNotes(items, 0)
  {}

  lemma NoKeyLine(d: Device, k: string)
    ensures !HasKey(OfDevice(d)) ==> KeyLine(d, k) == ""
  {}

  lemma DeviceLookups(ns: seq<Node>, d: Device, k: string, line: nat, lk: nat)
    requires d.address != ""
    requires ns == [Assign("address", d.address, line, line)] +
      ((if d.group != "" then [Assign("parent", d.group, line + 1, line + 1)] else []) +
       (if HasKey(OfDevice(d)) then [Assign("key", KeyValue(OfDevice(d), k), lk, lk)] else []))
    ensures Lookups(ns, OfDevice(d), k)
  {
    hide AssignValue, KeyValue;
    var e := OfDevice(d);
    var q := if HasKey(e) then [Assign("key", KeyValue(e, k), lk, lk)] else [];
    var pq := (if d.group != "" then [Assign("parent", d.group, line + 1, line + 1)] else []) + q;
    assert AssignValue([], "parent") == "" && AssignValue([], "key") == "" by { NothingAssigned(); }
    assert !HasKey(e) ==> KeyValue(e, k) == "" by { NoKeyValue(e, k); }
    KeysDiffer();
    if HasKey(e) {
      AssignCons("key", KeyValue(e, k), lk, [], "key");
      AssignCons("key", KeyValue(e, k), lk, [], "parent");
      assert q == [Assign("key", KeyValue(e, k), lk, lk)] + [];
    }
    assert AssignValue(q, "key") == KeyValue(e, k) && AssignValue(q, "parent") == "";
    if d.group != "" {
      AssignCons("parent", d.group, line + 1, q, "parent");
      AssignCons("parent", d.group, line + 1, q, "key");
    } else {
      assert pq == q;
    }
    AssignCons("address", d.address, line, pq, "address");
    AssignCons("address", d.address, line, pq, "parent");
    AssignCons("address", d.address, line, pq, "key");
  }

  lemma NothingAssigned()
    ensures AssignValue([], "parent") == "" && AssignValue([], "key") == "" && AssignValue([], "address") == ""
  {}

  lemma NoKeyValue(e: Entry, k: string)
    ensures !HasKey(e) ==> KeyValue(e, k) == ""
  {}

  lemma KeysDiffer()
    ensures "address" != "parent" && "address" != "key" && "parent" != "key"
  {
    assert "address"[0] != "parent"[0] && "address"[0] != "key"[0] && "parent"[0] != "key"[0];
  }

  lemma AssignCons(key: string, v: string, line: nat, more: seq<Node>, wanted: string)
    ensures AssignValue([Assign(key, v, line, line)] + more, wanted) ==
            if key == wanted then v else AssignValue(more, wanted)
  {
    assert ([Assign(key, v, line, line)] + more)[1..] == more;
  }

  lemma GroupAssigns(g: DeviceGroup, k: string, line: nat)
    requires GroupPrints(g) && GlobalKeyOk(k)
    ensures var e := OfGroup(g); var items := AssignItems(e, k);
      && ItemsOk(items) && PrintAll(items) == AssignText(e, k) && AllNotes(items, line) == [] && !OpensWithElse(items)
      && Lookups(AllNodes(items, line), e, k)
  {
    var e := OfGroup(g);
    hide ItemOk, Print, Nodes, Lines, ItemNotes, KeyItem, KeyValue, AssignText, GlobalKeyOk, OpensWithElse;
    KeyRow(e, k, line);
    OptItem(true, KeyItem(e, k), line);
    assert AssignItems(e, k) == Opt(true, KeyItem(e, k));
    var ns := [Assign("key", KeyValue(e, k), line, line)];
    assert ns == ns + [];
    KeysDiffer();
    NothingAssigned();
    AssignCons("key", KeyValue(e, k), line, [], "address");
    AssignCons("key", KeyValue(e, k), line, [], "key");
  }

  // A whole block.

  function NotesOf(e: Entry, line: nat): seq<Comment> {
    if NoteOf(e) == "" then [] else [Comment("@" + NoteKey(e) + " " + NoteOf(e), line)]
  }

  function NoteLine(e: Entry): string {
    if NoteOf(e) == "" then "" else "    # @" + NoteKey(e) + " " + NoteOf(e) + "\n"
  }

  lemma NoteRow(e: Entry, line: nat)
    requires NoteTextOk(NoteOf(e))
    ensures var items := NoteItemsOf(e);
      && ItemsOk(items) && PrintAll(items) == NoteLine(e) && AllNotes(items, line) == NotesOf(e, line)
      && AllNodes(items, line) == [] && LinesAll(items) == |NotesOf(e, line)| <= 1
  {
    if NoteOf(e) != "" {
      hide *;
      var text := "@" + NoteKey(e) + " " + NoteOf(e);
      NoteParts(e, line);
      OneLineNote(text);
      NoteShape(text, line);
      ConsItems(Note(4, text), [], line);
      assert [Note(4, text)] + [] == [Note(4, text)];
      Nothing(line);
      NoteGlue(NoteKey(e), NoteOf(e));
    }
  }

  lemma Nothing(line: nat)
    ensures PrintAll([]) == "" && AllNodes([], line) == [] && AllNotes([], line) == [] && LinesAll([]) == 0
    ensures ItemsOk([])
  {}

  lemma NoteParts(e: Entry, line: nat)
    requires NoteTextOk(NoteOf(e)) && NoteOf(e) != ""
    ensures var text := "@" + NoteKey(e) + " " + NoteOf(e);
      && OneLine(text) && NoteItemsOf(e) == [Note(4, text)] && NotesOf(e, line) == [Comment(text, line)]
      && NoteLine(e) == "    # @" + NoteKey(e) + " " + NoteOf(e) + "\n"
  {
    NoteText(e, NoteKey(e));
  }

  lemma NoteShape(text: string, line: nat)
    ensures var it := Note(4, text);
      Print(it) == "    " + ("# " + (text + "\n")) && Nodes(it, line) == [] && Lines(it) == 1 &&
        ItemNotes(it, line) == [Comment(text, line)]
  {
    IndentTexts();
    hide Spaces;
  }

  lemma NoteGlue(key: string, text: string)
    ensures "    " + ("# " + (("@" + key + " " + text) + "\n")) + "" == "    # @" + key + " " + text + "\n"
  {
    assert "    " + "# " + "@" == "    # @";
  }

  lemma OneLineNote(text: string)
    ensures OneLine(text) ==> ItemOk(Note(4, text))
  {}

  lemma BodyOk(e: Entry, k: string, line: nat)
    requires EntryOk(e) && GlobalKeyOk(k)
    ensures var items := EntryBody(e, k);
      && ItemsOk(items) && PrintAll(items) == NoteLine(e) + AssignText(e, k)
      && AllNotes(items, line) == NotesOf(e, line)
      && Lookups(AllNodes(items, line), e, k)
  {
    hide *;
    var a, b := NoteItemsOf(e), AssignItems(e, k);
    var lb := line + LinesAll(a);
    EntryKind(e, k);
    NoteRow(e, line);
    if e.OfGroup? {
      GroupAssigns(e.g, k, lb);
    } else {
      DeviceAssigns(e.d, k, lb);
    }
    EntryBodyIs(e, k);
    ItemsOkAppend(a, b);
    PrintAllAppend(a, b);
    AllNodesAppend(a, b, line);
    assert [] + AllNodes(b, lb) == AllNodes(b, lb);
    assert NotesOf(e, line) + [] == NotesOf(e, line);
  }

  lemma EntryKind(e: Entry, k: string)
    requires EntryOk(e)
    ensures NoteTextOk(NoteOf(e)) && BareOk(EntryName(e))
    ensures (e.OfGroup? ==> GroupPrints(e.g)) && (e.OfDevice? ==> DevicePrints(e.d))
  {}

  lemma EntryBodyIs(e: Entry, k: string)
    ensures EntryBody(e, k) == NoteItemsOf(e) + AssignItems(e, k)
  {}

  lemma DeviceWord()
    ensures BareOk("device") && "device" != "if" && Bare("device") != Bare("else")
  {
    assert "device"[0] != "else"[0];
  }

  lemma EntryItemOk(e: Entry, k: string, line: nat)
    requires EntryOk(e) && GlobalKeyOk(k)
    ensures ItemOk(EntryItem(e, k)) && Print(EntryItem(e, k)) + "\n" == EntryText(e, k)
    ensures var end := line + 1 + LinesAll(EntryBody(e, k));
      && Nodes(EntryItem(e, k), line) == [Block("device", EntryName(e), AllNodes(EntryBody(e, k), line + 1), line, end)]
      && Lines(EntryItem(e, k)) == end + 1 - line && ItemNotes(EntryItem(e, k), line) == NotesOf(e, line + 1)
    ensures Lookups(AllNodes(EntryBody(e, k), line + 1), e, k)
    ensures |NotesOf(e, line + 1)| <= LinesAll(EntryBody(e, k))
  {
    hide *;
    EntryKind(e, k);
    DeviceWord();
    BodyOk(e, k, line + 1);
    NamedHeadOk("device", EntryName(e), 0, EntryBody(e, k), line);
    NoIndent();
    EntryItemIs(e, k, line);
    EntryGlue(e, k);
    NoteCounts(e, k, line + 1);
  }

  lemma EntryItemIs(e: Entry, k: string, line: nat)
    ensures EntryItem(e, k) == Group([Gapped(0, Bare("device")), Gapped(1, Bare(EntryName(e)))], 0, EntryBody(e, k))
    ensures Lines(EntryItem(e, k)) == 2 + LinesAll(EntryBody(e, k))
    ensures ItemNotes(EntryItem(e, k), line) == AllNotes(EntryBody(e, k), line + 1)
  {
    hide EntryBody, LinesAll, AllNotes;
  }

  lemma NoteCounts(e: Entry, k: string, line: nat)
    requires NoteTextOk(NoteOf(e))
    ensures |NotesOf(e, line)| <= LinesAll(EntryBody(e, k))
  {
    hide *;
    NoteRow(e, line);
    EntryBodyIs(e, k);
    AllNodesAppend(NoteItemsOf(e), AssignItems(e, k), line);
  }

  lemma EntryGlue(e: Entry, k: string)
    ensures "" + "device" + " " + EntryName(e) + " {\n" + (NoteLine(e) + AssignText(e, k)) + "" + "}\n" + "\n" ==
            EntryText(e, k)
  {
    assert "" + "device" + " " == "device ";
    if e.OfGroup? {
      GroupGlue(e.g, k);
    } else {
      DeviceGlue(e.d, k);
    }
  }

  lemma GroupGlue(g: DeviceGroup, k: string)
    ensures "device " + g.name + " {\n" + (NoteLine(OfGroup(g)) + AssignText(OfGroup(g), k)) + "" + "}\n" + "\n" ==
            GroupText(g, k)
  {
    hide GroupKey;
    var h := BlockHead(g.name);
    assert "    # @" + "description" + " " == "    # @description ";
    var note := if g.description != "" then "    # @description " + g.description + "\n" else "";
    assert NoteLine(OfGroup(g)) == note;
    var a := AssignText(OfGroup(g), k);
    EndGlue(h, note, a);
  }

  lemma EndGlue(h: string, note: string, a: string)
    ensures h + (note + a) + "" + "}\n" + "\n" == h + note + a + "}\n\n"
  {
    assert "}\n" + "\n" == "}\n\n";
    assert h + (note + a) + "" == h + note + a;
    Assoc(h + note + a, "}\n", "\n");
  }

  lemma DeviceGlue(d: Device, k: string)
    ensures "device " + d.name + " {\n" + (NoteLine(OfDevice(d)) + AssignText(OfDevice(d), k)) + "" + "}\n" + "\n" ==
            DeviceText(d, k)
  {
    hide KeyLine;
    var h := BlockHead(d.name);
    assert "    # @" + "platform" + " " == "    # @platform ";
    var note := if d.platform != "" then "    # @platform " + d.platform + "\n" else "";
    assert NoteLine(OfDevice(d)) == note;
    var address := "    address = " + d.address + "\n";
    var parent := if d.group != "" then "    parent  = " + d.group + "\n" else "";
    EndGlue(h, note, address + (parent + KeyLine(d, k)));
    assert h + note + (address + (parent + KeyLine(d, k))) == h + note + address + parent + KeyLine(d, k);
  }

  /** A block read back among all the comments of the file. */
  lemma EntryMaps(e: Entry, k: string, n: Node, pre: seq<Comment>, post: seq<Comment>)
    requires EntryOk(e) && GlobalKeyOk(k)
    requires n.Block? && n.name == "device" && n.tag == EntryName(e) && Lookups(n.children, e, k)
    requires Before(pre, n.startLine) && After(post, n.endLine + 1)
    requires n.startLine + |NotesOf(e, 0)| < n.endLine
    ensures var cs := pre + (NotesOf(e, n.startLine + 1) + post);
      match e
      case OfGroup(g) => IsGroup(n) && !IsDevice(n) && GroupReadBack(GroupOf(n, cs, k), g, k)
      case OfDevice(d) => IsDevice(n) && !IsGroup(n) && ReadBack(DeviceOf(n, cs, k), d, k)
  {
    hide Annotation, AssignValue, HasPrefix, QuoteSafe, Words, Trim, BareOk;
    var notes := NotesOf(e, n.startLine + 1);
    OwnAnnotation(pre, notes, post, n.startLine, n.endLine, NoteKey(e));
    assert Annotation(pre + (notes + post), n.startLine, n.endLine, NoteKey(e)) == NoteOf(e) by {
      if NoteOf(e) != "" {
        NoteText(e, NoteKey(e));
      }
    }
    if e.OfGroup? {
      StripsBack(GroupKey(e.g, k));
    } else {
      DeviceParts(e.d, k);
      StripsBack(DeviceKey(e.d, k));
      StripsNothing();
    }
  }

  lemma StripsNothing()
    ensures StripQuotes("") == ""
  {}

  // ---------------------------------------------------------------- all blocks

  function DevicesAmong(es: seq<Entry>): seq<Device> {
    if es == [] then [] else (if es[0].OfDevice? then [es[0].d] else []) + DevicesAmong(es[1..])
  }

  function GroupsAmong(es: seq<Entry>): seq<DeviceGroup> {
    if es == [] then [] else (if es[0].OfGroup? then [es[0].g] else []) + GroupsAmong(es[1..])
  }

  lemma EntriesSplit(es: seq<Entry>, k: string)
    requires es != [] && EntriesOk(es)
    ensures EntryOk(es[0]) && EntriesOk(es[1..])
    ensures EntryItems(es, k) == [EntryItem(es[0], k)] + ([Item.Blank] + EntryItems(es[1..], k))
    ensures EntryTexts(es, k) == EntryText(es[0], k) + EntryTexts(es[1..], k)
    ensures DevicesAmong(es) == (if es[0].OfDevice? then [es[0].d] else []) + DevicesAmong(es[1..])
    ensures GroupsAmong(es) == (if es[0].OfGroup? then [es[0].g] else []) + GroupsAmong(es[1..])
    ensures EntryItem(es[0], k).Group?
  {
    hide EntryOk, EntryText, EntryBody;
  }

  lemma NoEntries(k: string)
    ensures ItemsOk(EntryItems([], k)) && PrintAll(EntryItems([], k)) == EntryTexts([], k)
  {}

  lemma BlankLine(line: nat)
    ensures ItemOk(Item.Blank) && Print(Item.Blank) == "\n" && Nodes(Item.Blank, line) == [] && Lines(Item.Blank) == 1
    ensures ItemNotes(Item.Blank, line) == []
  {}

  lemma {:induction false} EntriesPrint(es: seq<Entry>, k: string)
    requires EntriesOk(es) && GlobalKeyOk(k)
    ensures ItemsOk(EntryItems(es, k)) && PrintAll(EntryItems(es, k)) == EntryTexts(es, k)
  {
    hide *;
    if es == [] {
      NoEntries(k);
    } else {
      EntriesSplit(es, k);
      var it, items := EntryItem(es[0], k), EntryItems(es[1..], k);
      EntryItemOk(es[0], k, 0);
      EntriesPrint(es[1..], k);
      BlankLine(0);
      ConsItems(Item.Blank, items, 0);
      ConsItems(it, [Item.Blank] + items, 0);
      Assoc(Print(it), "\n", PrintAll(items));
    }
  }

  lemma FirstNode(n: Node, more: seq<Node>, cs: seq<Comment>, k: string)
    ensures DevicesIn([n] + more, cs, k) == (if IsDevice(n) then [DeviceOf(n, cs, k)] else []) + DevicesIn(more, cs, k)
    ensures GroupsIn([n] + more, cs, k) == (if IsGroup(n) then [GroupOf(n, cs, k)] else []) + GroupsIn(more, cs, k)
  {
    hide DeviceOf, GroupOf;
    assert ([n] + more)[1..] == more;
  }

  lemma NoNodes(k: string, line: nat, cs: seq<Comment>)
    ensures var ns := AllNodes(EntryItems([], k), line); DevicesIn(ns, cs, k) == [] && GroupsIn(ns, cs, k) == []
    ensures DevicesAmong([]) == [] && GroupsAmong([]) == []
  {}

  lemma Later(post: seq<Comment>, notes: seq<Comment>, from: nat, until: nat)
    requires Within(notes, from, until) && After(post, until) && from <= until
    ensures After(notes + post, from)
  {}

  lemma Earlier(pre: seq<Comment>, notes: seq<Comment>, from: nat, until: nat)
    requires Before(pre, from) && Within(notes, from, until) && from <= until
    ensures Before(pre + notes, until)
  {}

  /** The blocks from some line on, read among all comments of the file. */
  lemma ReadCons(x: Device, xs: seq<Device>, d: Device, ds: seq<Device>, k: string)
    requires ReadBack(x, d, k) && AllReadBack(xs, ds, k)
    ensures AllReadBack([x] + xs, [d] + ds, k)
  {
    hide ReadBack;
  }

  lemma GroupReadCons(x: DeviceGroup, xs: seq<DeviceGroup>, g: DeviceGroup, gs: seq<DeviceGroup>, k: string)
    requires GroupReadBack(x, g, k) && GroupsReadBack(xs, gs, k)
    ensures GroupsReadBack([x] + xs, [g] + gs, k)
  {
    hide GroupReadBack;
  }

  lemma NothingRead(k: string)
    ensures AllReadBack([], [], k) && GroupsReadBack([], [], k)
  {}

  lemma {:induction false} EntriesMap(es: seq<Entry>, k: string, line: nat, pre: seq<Comment>, post: seq<Comment>)
    requires EntriesOk(es) && GlobalKeyOk(k)
    requires Before(pre, line) && After(post, line + LinesAll(EntryItems(es, k)))
    ensures var cs := pre + (AllNotes(EntryItems(es, k), line) + post); var ns := AllNodes(EntryItems(es, k), line);
      AllReadBack(DevicesIn(ns, cs, k), DevicesAmong(es), k) && GroupsReadBack(GroupsIn(ns, cs, k), GroupsAmong(es), k)
  {
    hide *;
    var cs := pre + (AllNotes(EntryItems(es, k), line) + post);
    if es == [] {
      NoNodes(k, line, cs);
      NothingRead(k);
    } else {
      EntriesSplit(es, k);
      var e := es[0];
      var it, items := EntryItem(e, k), EntryItems(es[1..], k);
      var blank := line + Lines(it);
      EntryItemOk(e, k, line);
      BlankLine(blank);
      ConsItems(Item.Blank, items, blank);
      ConsItems(it, [Item.Blank] + items, line);
      var notes, more := ItemNotes(it, line), AllNotes(items, blank + 1);
      assert [] + more == more && [] + AllNodes(items, blank + 1) == AllNodes(items, blank + 1);
      NotesInRange(it, line);
      AllNotesInRange(items, blank + 1);
      Widen(notes, line, blank, blank + 1);
      Later(post, more, blank + 1, blank + 1 + LinesAll(items));
      Earlier(pre, notes, line, blank + 1);
      Assoc(notes, more, post);
      Assoc(pre, notes, more + post);
      EntriesMap(es[1..], k, blank + 1, pre + notes, post);
      var n := Nodes(it, line)[0];
      NotesLength(e, line + 1);
      After1(more + post, blank + 1, n.endLine + 1);
      EntryMaps(e, k, n, pre, more + post);
      FirstNode(n, AllNodes(items, blank + 1), cs, k);
      var ds, gs := DevicesIn(AllNodes(items, blank + 1), cs, k), GroupsIn(AllNodes(items, blank + 1), cs, k);
      if e.OfDevice? {
        ReadCons(DeviceOf(n, cs, k), ds, e.d, DevicesAmong(es[1..]), k);
        assert [] + gs == gs && [] + GroupsAmong(es[1..]) == GroupsAmong(es[1..]);
      } else {
        GroupReadCons(GroupOf(n, cs, k), gs, e.g, GroupsAmong(es[1..]), k);
        assert [] + ds == ds && [] + DevicesAmong(es[1..]) == DevicesAmong(es[1..]);
      }
    }
  }

  lemma Widen(cs: seq<Comment>, from: nat, until: nat, until': nat)
    requires Within(cs, from, until) && until <= until'
    ensures Within(cs, from, until')
  {}

  lemma After1(cs: seq<Comment>, line: nat, line': nat)
    requires After(cs, line) && line' <= line
    ensures After(cs, line')
  {}

  lemma NotesLength(e: Entry, line: nat)
    ensures |NotesOf(e, line)| == |NotesOf(e, 0)|
  {}

  // ---------------------------------------------------------------- the file

  function Entries(gs: seq<DeviceGroup>, ds: seq<Device>): seq<Entry> {
    seq(|gs|, i requires 0 <= i < |gs| => OfGroup(gs[i])) + seq(|ds|, i requires 0 <= i < |ds| => OfDevice(ds[i]))
  }

  lemma {:induction false} DeviceEntries(ds: seq<Device>, k: string)
    ensures EntryTexts(Entries([], ds), k) == DeviceTexts(ds, k)
    ensures DevicesAmong(Entries([], ds)) == ds && GroupsAmong(Entries([], ds)) == []
  {
    hide DeviceText, GroupText;
    var es := Entries([], ds);
    if ds != [] {
      DeviceEntries(ds[1..], k);
      assert es[0] == OfDevice(ds[0]) && es[1..] == Entries([], ds[1..]);
    } else {
      assert es == [];
    }
  }

  lemma FirstGroup(gs: seq<DeviceGroup>, ds: seq<Device>)
    ensures gs == [] ==> Entries(gs, ds) == Entries([], ds)
    ensures gs != [] ==> Entries(gs, ds) == [OfGroup(gs[0])] + Entries(gs[1..], ds)
  {
    if gs != [] {
      assert Entries(gs, ds)[1..] == Entries(gs[1..], ds);
    }
  }

  lemma GroupEntry(g: DeviceGroup, es: seq<Entry>, k: string)
    ensures EntryTexts([OfGroup(g)] + es, k) == GroupText(g, k) + EntryTexts(es, k)
    ensures DevicesAmong([OfGroup(g)] + es) == DevicesAmong(es)
    ensures GroupsAmong([OfGroup(g)] + es) == [g] + GroupsAmong(es)
  {
    hide GroupText;
    assert ([OfGroup(g)] + es)[1..] == es;
    assert [] + DevicesAmong(es) == DevicesAmong(es);
  }

  lemma GroupTextsIs(gs: seq<DeviceGroup>, k: string)
    ensures GroupTexts(gs, k) == if gs == [] then "" else GroupText(gs[0], k) + GroupTexts(gs[1..], k)
  {}

  lemma {:induction false} AllEntries(gs: seq<DeviceGroup>, ds: seq<Device>, k: string)
    ensures EntryTexts(Entries(gs, ds), k) == GroupTexts(gs, k) + DeviceTexts(ds, k)
    ensures DevicesAmong(Entries(gs, ds)) == ds && GroupsAmong(Entries(gs, ds)) == gs
  {
    hide *;
    FirstGroup(gs, ds);
    GroupTextsIs(gs, k);
    if gs == [] {
      DeviceEntries(ds, k);
      assert "" + DeviceTexts(ds, k) == DeviceTexts(ds, k);
    } else {
      AllEntries(gs[1..], ds, k);
      GroupEntry(gs[0], Entries(gs[1..], ds), k);
      Assoc(GroupText(gs[0], k), GroupTexts(gs[1..], k), DeviceTexts(ds, k));
      assert [gs[0]] + gs[1..] == gs;
    }
  }

  lemma EntriesAreOk(gs: seq<DeviceGroup>, ds: seq<Device>, k: string)
    requires GroupsPrint(gs) && DevicesPrint(ds)
    ensures EntriesOk(Entries(gs, ds))
  {
    hide GroupPrints, DevicePrints;
  }

  lemma OrderedPrints(ds: seq<Device>)
    requires DevicesPrint(ds)
    ensures DevicesPrint(Ordered(ds))
  {
    hide DevicePrints;
    SpecificMembers(ds);
    var o := Ordered(ds);
    forall i | 0 <= i < |o| ensures DevicePrints(o[i]) {
      assert o[i] in ds;
    }
  }

  lemma DevicesTitleOk()
    ensures OneLine("04-devices.cfg" + " - " + DevicesTitle())
  {
    var a, b := "04-devices.cfg - ", DevicesTitle();
    assert '\n' !in a && '\n' !in b;
    var t := "04-devices.cfg" + " - " + DevicesTitle();
    assert t == a + b && t[0] == a[0] && t[|t| - 1] == b[|b| - 1];
  }

  lemma DevicesTextIs(ds: seq<Device>, gs: seq<DeviceGroup>, k: string)
    ensures DevicesText(ds, gs, k) == DevicesBanner() + GroupTexts(gs, k) + DeviceTexts(Ordered(ds), k)
    ensures DevicesBanner() == Banner("04-devices.cfg", DevicesTitle())
  {}

  lemma EntriesNotElse(es: seq<Entry>, k: string)
    ensures !OpensWithElse(EntryItems(es, k))
  {
    DeviceWord();
    hide EntryBody;
  }

  lemma FileOfTree(src: string, k: string)
    ensures Tree(src).Good? ==> (
      && DevicesOf(src, k) == Good(DevicesIn(Tree(src).value, Scan(src, 1).comments, k))
      && GroupsOf(src, k) == Good(GroupsIn(Tree(src).value, Scan(src, 1).comments, k)))
  {
    hide Tree, DevicesIn, GroupsIn, Scan;
  }

  /** The blocks alone, without a banner. */
  lemma EntriesRead(es: seq<Entry>, k: string)
    requires EntriesOk(es) && GlobalKeyOk(k)
    ensures var text := EntryTexts(es, k);
      && DevicesOf(text, k).Good? && AllReadBack(DevicesOf(text, k).value, DevicesAmong(es), k)
      && GroupsOf(text, k).Good? && GroupsReadBack(GroupsOf(text, k).value, GroupsAmong(es), k)
  {
    hide *;
    var items := EntryItems(es, k);
    EntriesPrint(es, k);
    EntriesNotElse(es, k);
    PrintedTree(items);
    BannerBefore([], 1);
    NoNotesBefore(1);
    EntriesMap(es, k, 1, [], []);
    assert AllNotes(items, 1) + [] == AllNotes(items, 1) && [] + AllNotes(items, 1) == AllNotes(items, 1);
    FileOfTree(EntryTexts(es, k), k);
  }

  lemma NoNotesBefore(line: nat)
    ensures Before([], line)
  {}

  /** Whatever devices and groups a file is rendered from, reading gives the devices back in display order and the
      groups in theirs, each with its own name, address, annotation and parent, and with its key as it is printed. */
  lemma RenderedIsRead(ds: seq<Device>, gs: seq<DeviceGroup>, k: string)
    requires DevicesPrint(ds) && GroupsPrint(gs) && GlobalKeyOk(k)
    ensures var text := DevicesText(ds, gs, k);
      && DevicesOf(text, k).Good? && AllReadBack(DevicesOf(text, k).value, Ordered(ds), k)
      && GroupsOf(text, k).Good? && GroupsReadBack(GroupsOf(text, k).value, gs, k)
  {
    hide *;
    var es := Entries(gs, Ordered(ds));
    var banner := BannerItems("04-devices.cfg", DevicesTitle());
    var items := EntryItems(es, k);
    OrderedPrints(ds);
    EntriesAreOk(gs, Ordered(ds), k);
    AllEntries(gs, Ordered(ds), k);
    DevicesTitleOk();
    DevicesTextIs(ds, gs, k);
    BannerPrints("04-devices.cfg", DevicesTitle(), 1);
    EntriesPrint(es, k);
    EntriesNotElse(es, k);
    ItemsOkAppend(banner, items);
    PrintAllAppend(banner, items);
    Assoc(DevicesBanner(), GroupTexts(gs, k), DeviceTexts(Ordered(ds), k));
    AllNodesAppend(banner, items, 1);
    PrintedTree(banner + items);
    AllNotesInRange(banner, 1);
    BannerBefore(AllNotes(banner, 1), 9);
    EntriesMap(es, k, 9, AllNotes(banner, 1), []);
    assert AllNotes(items, 9) + [] == AllNotes(items, 9);
    assert [] + AllNodes(items, 9) == AllNodes(items, 9);
    FileOfTree(DevicesText(ds, gs, k), k);
  }

  lemma SoundPrint(ds: seq<Device>, gs: seq<DeviceGroup>, k: string)
    requires DevicesOk(ds, k) && GroupsOk(gs, k)
    ensures DevicesPrint(ds) && GroupsPrint(gs)
  {
    hide BareOk, Words, NoteTextOk, QuoteSafe;
  }

  lemma OrderedOk(ds: seq<Device>, k: string)
    requires DevicesOk(ds, k)
    ensures DevicesOk(Ordered(ds), k)
  {
    hide DeviceOk;
    SpecificMembers(ds);
    var o := Ordered(ds);
    forall i | 0 <= i < |o| ensures DeviceOk(o[i], k) {
      assert o[i] in ds;
    }
  }

  /** The file rendered from sound devices and groups gives the devices back in display order and the groups in their
      order, each with its own annotation and key. */
  lemma DevicesRoundTrip(ds: seq<Device>, gs: seq<DeviceGroup>, k: string)
    requires DevicesOk(ds, k) && GroupsOk(gs, k) && GlobalKeyOk(k)
    ensures DevicesOf(DevicesText(ds, gs, k), k) == Good(Normals(Ordered(ds)))
    ensures GroupsOf(DevicesText(ds, gs, k), k) == Good(NormalGroups(gs))
  {
    hide DevicesOf, GroupsOf, DevicesText, DevicesPrint, GroupsPrint, ReadBack, GroupReadBack, Ordered, DeviceOk,
      GroupOk,
      Normal, GlobalKeyOk;
    SoundPrint(ds, gs, k);
    RenderedIsRead(ds, gs, k);
    OrderedOk(ds, k);
    var o := Ordered(ds);
    var got, groups := DevicesOf(DevicesText(ds, gs, k), k).value, GroupsOf(DevicesText(ds, gs, k), k).value;
    forall i | 0 <= i < |o| ensures got[i] == Normals(o)[i] {
      SoundReadsBack(o[i], k, got[i]);
    }
    forall i | 0 <= i < |gs| ensures groups[i] == NormalGroups(gs)[i] {
      SoundGroupReadsBack(gs[i], k, groups[i]);
    }
    assert got == Normals(o) && groups == NormalGroups(gs);
  }

  /** A block of any file, however it is laid out: its fields are its name and the values assigned in it, and its key
      type goes by the value of key without its quotes. */
  lemma AnyBlock(n: Node, cs: seq<Comment>, k: string)
    requires n.Block?
    ensures var d := DeviceOf(n, cs, k); var key := StripQuotes(AssignValue(n.children, "key"));
      && d.name == n.tag && d.address == AssignValue(n.children, "address")
      && d.group == AssignValue(n.children, "parent") && d.lastSeen == "-" && d.status == "unknown"
      && d.platform == Annotation(cs, n.startLine, n.endLine, "platform")
      && ReadsAs(key, k, d.group != "", d.keyType, d.key)
    ensures var g := GroupOf(n, cs, k); var key := StripQuotes(AssignValue(n.children, "key"));
      && g.name == n.tag && g.members == 0 && g.description == Annotation(cs, n.startLine, n.endLine, "description")
      && ReadsAs(key, k, false, g.keyType, g.key)
  {
    hide AssignValue, StripQuotes, Annotation;
  }

  /** A comment in a range of lines, open where its end is 0, that starts with the key behind an at sign. */
  ghost predicate Noted(c: Comment, start: nat, end: nat, key: string, value: string) {
    c.line >= start && (end == 0 || c.line <= end) && c.text == "@" + key + " " + value
  }

  ghost predicate NoteAt(cs: seq<Comment>, start: nat, end: nat, key: string, i: nat, value: string) {
    i < |cs| && Noted(cs[i], start, end, key, value) && forall j: nat, v :: j < i ==> !Noted(cs[j], start, end, key, v)
  }

  lemma NotedIs(c: Comment, start: nat, end: nat, key: string, value: string)
    ensures Noted(c, start, end, key, value) <==>
            c.line >= start && (end == 0 || c.line <= end) && HasPrefix(c.text, "@" + key + " ") &&
            c.text[|"@" + key + " "|..] == value
  {
    var p := "@" + key + " ";
    if HasPrefix(c.text, p) {
      assert c.text == c.text[..|p|] + c.text[|p|..];
    }
    if c.text == p + value {
      assert c.text[..|p|] == p && c.text[|p|..] == value;
    }
  }

  lemma AnnotationStep(cs: seq<Comment>, start: nat, end: nat, key: string)
    requires cs != []
    ensures forall v :: Noted(cs[0], start, end, key, v) ==> Annotation(cs, start, end, key) == Trim(v)
    ensures (forall v :: !Noted(cs[0], start, end, key, v)) ==>
              Annotation(cs, start, end, key) == Annotation(cs[1..], start, end, key)
  {
    hide Trim;
    var c, p := cs[0], "@" + key + " ";
    forall v ensures Noted(c, start, end, key, v) ==> Annotation(cs, start, end, key) == Trim(v) {
      NotedIs(c, start, end, key, v);
    }
    if c.line >= start && (end == 0 || c.line <= end) && HasPrefix(c.text, p) {
      NotedIs(c, start, end, key, c.text[|p|..]);
    }
  }

  /** An annotation is the value of the first such comment without white space around it, and empty without one. */
  lemma {:induction false} AnnotationRead(cs: seq<Comment>, start: nat, end: nat, key: string)
    ensures var a := Annotation(cs, start, end, key);
      && (forall i: nat, v :: NoteAt(cs, start, end, key, i, v) ==> a == Trim(v))
      && ((forall i: nat, v :: i < |cs| ==> !Noted(cs[i], start, end, key, v)) ==> a == "")
  {
    hide Trim, Noted;
    if cs != [] {
      AnnotationStep(cs, start, end, key);
      hide Annotation;
      AnnotationRead(cs[1..], start, end, key);
      assert forall j: nat :: j < |cs| - 1 ==> cs[1..][j] == cs[j + 1];
      forall i: nat, v | NoteAt(cs, start, end, key, i, v) ensures Annotation(cs, start, end, key) == Trim(v) {
        if i > 0 {
          forall w ensures !Noted(cs[0], start, end, key, w) {}
          assert NoteAt(cs[1..], start, end, key, i - 1, v);
        }
      }
    }
  }

  /** The blocks called device, with an address or without one. */
  function DeviceBlocks(ns: seq<Node>, addressed: bool): (bs: seq<Node>)
    ensures forall b :: b in bs ==> b.Block? && b in ns
  {
    if ns == [] then []
    else
      (if ns[0].Block? && ns[0].name == "device" && (AssignValue(ns[0].children, "address") != "") == addressed
       then [ns[0]] else []) + DeviceBlocks(ns[1..], addressed)
  }

  /** The devices of a file are its device blocks with an address, and the groups those without, in order. */
  lemma {:induction false} BlocksRead(ns: seq<Node>, cs: seq<Comment>, k: string)
    ensures var bs, ds := DeviceBlocks(ns, true), DevicesIn(ns, cs, k);
      |ds| == |bs| && forall i :: 0 <= i < |bs| ==> ds[i] == DeviceOf(bs[i], cs, k)
    ensures var bs, gs := DeviceBlocks(ns, false), GroupsIn(ns, cs, k);
      |gs| == |bs| && forall i :: 0 <= i < |bs| ==> gs[i] == GroupOf(bs[i], cs, k)
  {
    hide AssignValue, DeviceOf, GroupOf;
    if ns != [] {
      BlocksRead(ns[1..], cs, k);
    }
  }

  lemma {:induction false} NoCounts(ns: seq<Node>, cs: seq<Comment>, k: string)
    ensures forall g :: g in GroupsIn(ns, cs, k) ==> g.members == 0
  {
    hide AssignValue, StripQuotes, Annotation;
    if ns != [] {
      NoCounts(ns[1..], cs, k);
    }
  }

  lemma GroupsUncounted(src: string, k: string)
    ensures GroupsOf(src, k).Good? ==> forall g :: g in GroupsOf(src, k).value ==> g.members == 0
  {
    hide Tree, Scan, GroupsIn;
    if Tree(src).Good? {
      NoCounts(Tree(src).value, Scan(src, 1).comments, k);
    }
  }

  // ---------------------------------------------------------------- the shipped file

  /** The device of the shipped file, whose key is the placeholder for the shared one. */
  function ShippedBlock(): string {
    "device all {\n" + "    address = 0.0.0.0/0\n" + "    key     = \"${TACACS_KEY}\"\n" + "}\n\n"
  }

  lemma ShippedDevice(k: string)
    requires GlobalKeyOk(k)
    ensures DevicesOf(ShippedBlock(), k) ==
            Good([Device("all", "0.0.0.0/0", "", "global", "", "", "-", "unknown")])
    ensures GroupsOf(ShippedBlock(), k) == Good([])
  {
    hide DevicesOf, GroupsOf, DevicePrints, ReadBack, EntryText, ShippedBlock;
    var d := Device("all", "0.0.0.0/0", "", "custom", "${TACACS_KEY}", "", "", "");
    ShippedPrints(d);
    ShippedText(d, k);
    var es := [OfDevice(d)];
    OneEntry(d, k);
    EntriesRead(es, k);
    var got := DevicesOf(ShippedBlock(), k).value;
    ShippedReads(got[0], d, k);
    assert got == [got[0]];
  }

  lemma OneEntry(d: Device, k: string)
    ensures EntryTexts([OfDevice(d)], k) == EntryText(OfDevice(d), k)
    ensures DevicesAmong([OfDevice(d)]) == [d] && GroupsAmong([OfDevice(d)]) == []
    ensures EntriesOk([OfDevice(d)]) <==> DevicePrints(d)
  {
    hide DevicePrints, EntryText;
    var es := [OfDevice(d)];
    assert es[1..] == [] && EntryText(es[0], k) + "" == EntryText(es[0], k);
    assert es[0] == OfDevice(d);
  }

  lemma ShippedPrints(d: Device)
    requires d == Device("all", "0.0.0.0/0", "", "custom", "${TACACS_KEY}", "", "", "")
    ensures DevicePrints(d)
  {
    hide Words, QuoteSafe, BareOk;
    PlainWord("0.0.0.0/0") by {
      AddressPlain();
    }
    PlaceholderSafe();
    NamePlain();
  }

  lemma AddressPlain()
    ensures forall c | c in "0.0.0.0/0" :: !IsDelim(c)
  {}

  lemma NamePlain()
    ensures BareOk("all")
  {}

  lemma PlainWord(w: string)
    requires w != "" && forall c | c in w :: !IsDelim(c)
    ensures Words(w).Some?
  {
    LayoutLexing.FirstOfBare(w, "");
    assert w + "" == w;
  }

  lemma PlaceholderSafe()
    ensures QuoteSafe("${TACACS_KEY}")
  {
    NoQuotes("${TACACS_KEY}");
  }

  lemma {:induction false} NoQuotes(s: string)
    requires '"' !in s && '\\' !in s
    ensures QuoteSafe(s)
  {
    if s != "" {
      NoQuotes(s[1..]);
    }
  }

  lemma ShippedText(d: Device, k: string)
    requires d == Device("all", "0.0.0.0/0", "", "custom", "${TACACS_KEY}", "", "", "")
    ensures EntryText(OfDevice(d), k) == ShippedBlock()
  {
    ShippedWords();
    BlankNote(BlockHead("all"), "    address = 0.0.0.0/0\n", "    key     = \"${TACACS_KEY}\"\n", "}\n\n");
  }

  lemma BlankNote(a: string, b: string, c: string, d: string)
    ensures a + "" + b + "" + c + d == a + b + c + d
  {}

  lemma ShippedWords()
    ensures BlockHead("all") == "device all {\n"
    ensures "    address = " + "0.0.0.0/0" + "\n" == "    address = 0.0.0.0/0\n"
    ensures "    key     = \"" + "${TACACS_KEY}" + "\"\n" == "    key     = \"${TACACS_KEY}\"\n"
  {
    assert "device " + "all" + " {\n" == "device all {\n";
  }

  lemma ShippedReads(got: Device, d: Device, k: string)
    requires d == Device("all", "0.0.0.0/0", "", "custom", "${TACACS_KEY}", "", "", "") && ReadBack(got, d, k)
    ensures got == Device("all", "0.0.0.0/0", "", "global", "", "", "-", "unknown")
  {}

  lemma BannerBefore(cs: seq<Comment>, line: nat)
    ensures Within(cs, 1, line) ==> Before(cs, line)
    ensures forall l :: After([], l)
  {}

  /** The same for the methods, run one after the other. */
  method RenderThenParse(ds: seq<Device>, gs: seq<DeviceGroup>, k: string)
        returns (ds': Result<seq<Device>>, gs': Result<seq<DeviceGroup>>)
    requires DevicesOk(ds, k) && GroupsOk(gs, k) && GlobalKeyOk(k)
    ensures ds' == Good(Normals(Ordered(ds))) && gs' == Good(NormalGroups(gs))
  {
    hide *;
    var text := RenderDevices(ds, gs, k);
    ds' := ParseDevices(text, k);
    gs' := ParseDeviceGroups(text, k);
    DevicesRoundTrip(ds, gs, k);
  }
}
