/** The blocks a LaTeX source is taken apart into, and what is read from the text of each. */
module TexBlocks {
  import opened Text
  import opened TexEnvironments
  import opened TexStrings
  import opened TexTables

  // ---------------------------------------------------------------- braces

  /** Where the unescaped brace is that takes the depth back to zero. */
  function Brace(text: string, i: nat, depth: int): (r: Option<nat>)
    ensures r.Some? ==> i <= r.value < |text| && text[r.value] == '}'
    decreases |text| - i
  {
    if i >= |text| then None
    else if text[i] == '{' && !Escaped(text, i) then Brace(text, i + 1, depth + 1)
    else if text[i] == '}' && !Escaped(text, i) then
      if depth == 1 then Some(i) else Brace(text, i + 1, depth - 1)
    else Brace(text, i + 1, depth)
  }

  /** find_braced; None stands for the error raised. */
  method FindBraced(text: string, start: nat) returns (r: Option<(string, nat)>)
    requires start < |text| && text[start] == '{'
    ensures var close := Brace(text, start, 0);
      r == if close.None? then None else Some((text[start + 1..close.value], close.value + 1))
  {
    var depth := 0;
    for i := start to |text|
      invariant Brace(text, i, depth) == Brace(text, start, 0)
    {
      var c := text[i];
      if c == '{' && (i == 0 || text[i - 1] != '\\') {
        depth := depth + 1;
      } else if c == '}' && text[i - 1] != '\\' {
        depth := depth - 1;
        if depth == 0 {
          return Some((text[start + 1..i], i + 1));
        }
      }
    }
    return None;
  }

  /** The text between the first brace at or behind a position and the one that closes it, and where that one is; None
      when there is no such pair. */
  function BracedFrom(text: string, pos: nat): (r: Option<(string, nat)>)
    ensures r.Some? ==> r.value.1 < |text| && text[r.value.1] == '}'
  {
    var open := Find(text, "{", pos);
    if open.None? then None
    else
      var close := Brace(text, open.value, 0);
      if close.None? || close.value <= open.value then None else Some((text[open.value + 1..close.value], close.value))
  }

  // ---------------------------------------------------------------- options

  /** What reading a value may yield: an error, nothing, or the value. */
  datatype Reading = Raised | Absent | Value(text: string)

  /** Behind a key at a position, blanks, an equal sign and blanks: where its value starts. */
  function ValueStart(opts: string, key: string, p: nat): (r: Option<nat>)
    ensures r.Some? ==> r.value <= |opts|
  {
    if !At(opts, key, p) then None
    else
      var i := p + |key|;
      var j := i + RunLen(opts[i..], IsPySpace);
      if j == |opts| || opts[j] != '=' then None else Some(j + 1 + RunLen(opts[j + 1..], IsPySpace))
  }

  /** The value of the leftmost such key from a position on. */
  function FindValue(opts: string, key: string, p: nat): (r: Option<nat>)
    ensures r.Some? ==> r.value <= |opts|
    decreases |opts| - p
  {
    if p >= |opts| then None
    else if ValueStart(opts, key, p).Some? then ValueStart(opts, key, p)
    else FindValue(opts, key, p + 1)
  }

  predicate InValue(c: char) {
    c != ',' && c != ']'
  }

  /** opt_value */
  function OptValue(opts: string, key: string): Reading {
    var i := FindValue(opts, key, 0);
    if i.None? then Absent
    else if i.value < |opts| && opts[i.value] == '{' then
      var close := Brace(opts, i.value, 0);
      if close.None? || close.value <= i.value then Raised else Value(opts[i.value + 1..close.value])
    else Value(Strip(opts[i.value..][..RunLen(opts[i.value..], InValue)]))
  }

  method ReadOption(opts: string, key: string) returns (r: Reading)
    ensures r == OptValue(opts, key)
  {
    var i := FindValue(opts, key, 0);
    if i.None? {
      return Absent;
    }
    if i.value < |opts| && opts[i.value] == '{' {
      var braced := FindBraced(opts, i.value);
      BraceBehind(opts, i.value);
      r := if braced.None? then Raised else Value(braced.value.0);
    } else {
      r := Value(Strip(opts[i.value..][..RunLen(opts[i.value..], InValue)]));
    }
  }

  lemma BraceBehind(text: string, start: nat)
    requires start < |text| && text[start] == '{'
    ensures Brace(text, start, 0).Some? ==> Brace(text, start, 0).value > start
  {}

  // ---------------------------------------------------------------- captions, labels, images

  /** The braced text behind the first caption command. */
  function CaptionOf(body: string): Reading {
    var p := Find(body, "\\caption", 0);
    if p.None? then Absent
    else
      var braced := BracedFrom(body, p.value + 8);
      if braced.None? then Raised else Value(braced.value.0)
  }

  function LabelOf(body: string): Reading {
    var p := Find(body, "\\label{", 0);
    if p.None? then Absent
    else
      var q := Find(body, "}", p.value + 7);
      if q.None? then Absent else Value(body[p.value + 7..q.value])
  }

  /** The file between braces at a position. */
  function BracedName(body: string, j: nat): Reading {
    if j >= |body| || body[j] != '{' then Absent
    else
      var q := Find(body, "}", j + 1);
      if q.None? then Absent else Value(body[j + 1..q.value])
  }

  /** The image command at a position, with options in brackets or without. */
  function ImageAt(body: string, p: nat): Reading {
    var cmd := "\\includegraphics";
    if !At(body, cmd, p) then Absent
    else
      var j := p + |cmd|;
      if j < |body| && body[j] == '[' then
        var close := Find(body, "]", j);
        if close.None? then Absent else BracedName(body, close.value + 1)
      else BracedName(body, j)
  }

  function ImageFrom(body: string, p: nat): Reading
    decreases |body| - p
  {
    if p >= |body| then Absent
    else if ImageAt(body, p) != Absent then ImageAt(body, p)
    else ImageFrom(body, p + 1)
  }

  // ---------------------------------------------------------------- blocks

  datatype Tab = Tab(title: string, text: string)

  /** Fields without a value are Absent. */
  datatype Block =
    | Listing(cisco: bool, caption: Reading, name: Reading, code: string)
    | Figure(image: Reading, caption: Reading, name: Reading)
    | Table(caption: Reading, name: Reading, parts: Parts)
    | VendorTabs(tabs: seq<Tab>)

  /** The environments taken out, one loop each. */
  datatype Float = Code | Cisco | Figures | Tables | TabGroups

  function EnvOf(kind: Float): (env: string)
    ensures EnvName(env)
  {
    match kind
    case Code => "lstlisting"
    case Cisco => "cisco"
    case Figures => "figure"
    case Tables => "table"
    case TabGroups => "vendortabs"
  }

  /** The tabs of a group from a position on; None when one of them is malformed. */
  function TabsFrom(body: string, pos: nat): Option<seq<Tab>>
    decreases |body| - pos
  {
    var h := EnvAt(body, "vendortab", pos);
    if h.Miss? then Some([])
    else if h.Failed? then None
    else
      var braced := BracedFrom(h.body, 0);
      var more := TabsFrom(body, h.stop);
      if braced.None? || more.None? then None
      else Some([Tab(Strip(braced.value.0), h.body[braced.value.1 + 1..])] + more.value)
  }

  /** The columns and rows of a table; None when an error is raised in finding them. */
  function TableOf(body: string): Option<Parts> {
    var h := EnvAt(body, "tabular", 0);
    if h.Miss? then Some(Parts("", [], []))
    else if h.Failed? then None
    else if !HasPrefix(LStrip(h.body), "{") then Some(PartsOf("", h.body))
    else
      var spec := BracedFrom(h.body, 0);
      if spec.None? then None else Some(PartsOf(spec.value.0, h.body[spec.value.1 + 1..]))
  }

  /** The block made of an environment; None stands for an error raised. */
  function BlockOf(kind: Float, opts: string, body: string): Option<Block> {
    match kind
    case Code => ListingBlock(false, opts, body)
    case Cisco => ListingBlock(true, opts, body)
    case Figures =>
      if CaptionOf(body) == Raised then None
      else Some(Figure(ImageFrom(body, 0), CaptionOf(body), LabelOf(body)))
    case Tables =>
      var parts := TableOf(body);
      if CaptionOf(body) == Raised || parts.None? then None
      else Some(Table(CaptionOf(body), LabelOf(body), parts.value))
    case TabGroups =>
      var tabs := TabsFrom(body, 0);
      if tabs.None? then None else Some(VendorTabs(tabs.value))
  }

  function ListingBlock(cisco: bool, opts: string, body: string): (r: Option<Block>)
    ensures r.Some? ==> r.value.Listing? && r.value.code == StripNewlines(body)
  {
    var caption, name := OptValue(opts, "caption"), OptValue(opts, "label");
    if caption == Raised || name == Raised then None else Some(Listing(cisco, caption, name, StripNewlines(body)))
  }

  // ---------------------------------------------------------------- the loops that make them

  method ReadBraced(text: string, pos: nat) returns (r: Option<(string, nat)>)
    ensures r == BracedFrom(text, pos)
  {
    var open := Find(text, "{", pos);
    if open.None? {
      return None;
    }
    BraceHere(text, open.value);
    var braced := FindBraced(text, open.value);
    BraceBehind(text, open.value);
    r := if braced.None? then None else Some((braced.value.0, braced.value.1 - 1));
  }

  lemma BraceHere(text: string, p: nat)
    requires At(text, "{", p)
    ensures p < |text| && text[p] == '{'
  {
    AtChar(text, "{", p, 0);
  }

  method ReadCaption(body: string) returns (r: Reading)
    ensures r == CaptionOf(body)
  {
    var p := Find(body, "\\caption", 0);
    if p.None? {
      return Absent;
    }
    var braced := ReadBraced(body, p.value + 8);
    r := if braced.None? then Raised else Value(braced.value.0);
  }

  /** The loop over the tabs of a group. */
  method ReadTabs(body: string) returns (r: Option<seq<Tab>>)
    ensures r == TabsFrom(body, 0)
  {
    hide *;
    var tabs: seq<Tab> := [];
    var pos := 0;
    NoTabsYet(TabsFrom(body, 0));
    while true
      invariant pos <= |body| && TabsFrom(body, 0) == Joined(tabs, TabsFrom(body, pos))
      decreases |body| - pos
    {
      var th := FindEnv(body, "vendortab", pos);
      TabsStep(body, pos);
      match th {
        case Miss =>
          JoinedParts(tabs, Some([]));
          assert tabs + [] == tabs;
          return Some(tabs);
        case Failed =>
          JoinedParts(tabs, None);
          return None;
        case Found(_, stop, _, tbody) =>
          var braced := ReadBraced(tbody, 0);
          if braced.None? {
            JoinedParts(tabs, None);
            return None;
          }
          TabBehind(tbody);
          var tab := Tab(Strip(braced.value.0), tbody[braced.value.1 + 1..]);
          JoinedTwice(tabs, tab, TabsFrom(body, stop));
          tabs := tabs + [tab];
          pos := stop;
      }
    }
  }

  function Joined(tabs: seq<Tab>, more: Option<seq<Tab>>): Option<seq<Tab>> {
    if more.None? then None else Some(tabs + more.value)
  }

  lemma JoinedParts(tabs: seq<Tab>, more: Option<seq<Tab>>)
    ensures Joined(tabs, more) == if more.None? then None else Some(tabs + more.value)
  {}

  lemma NoTabsYet(more: Option<seq<Tab>>)
    ensures Joined([], more) == more
  {
    assert more.Some? ==> [] + more.value == more.value;
  }

  lemma JoinedTwice(tabs: seq<Tab>, tab: Tab, more: Option<seq<Tab>>)
    ensures Joined(tabs, Joined([tab], more)) == Joined(tabs + [tab], more)
  {
    if more.Some? {
      Assoc(tabs, [tab], more.value);
    }
  }

  lemma TabBehind(tbody: string)
    ensures BracedFrom(tbody, 0).Some? ==> BracedFrom(tbody, 0).value.1 < |tbody|
  {
    hide Find, Brace;
  }

  lemma TabsStep(body: string, pos: nat)
    ensures var h := EnvAt(body, "vendortab", pos); var braced := BracedFrom(if h.Found? then h.body else "", 0);
      && (h.Miss? ==> TabsFrom(body, pos) == Some([]))
      && (h.Failed? ==> TabsFrom(body, pos) == None)
      && (h.Found? ==> pos <= h.start < h.stop <= |body|)
      && (h.Found? && braced.None? ==> TabsFrom(body, pos) == None)
      && (h.Found? && braced.Some? ==> braced.value.1 < |h.body|)
      && (h.Found? && braced.Some? ==>
            TabsFrom(body, pos) ==
            Joined([Tab(Strip(braced.value.0), h.body[braced.value.1 + 1..])], TabsFrom(body, h.stop)))
  {
    hide EnvAt, BracedFrom, Strip;
    EnvFits(body, "vendortab", pos);
    TabBehind(if EnvAt(body, "vendortab", pos).Found? then EnvAt(body, "vendortab", pos).body else "");
  }

  lemma EnvFits(text: string, env: string, pos: nat)
    ensures var h := EnvAt(text, env, pos); h.Found? ==> pos <= h.start < h.stop <= |text|
  {}

  /** The part of the table loop that reads the rows. */
  method ReadTable(body: string) returns (r: Option<Parts>)
    ensures r == TableOf(body)
  {
    hide EnvAt, BracedFrom, LStrip, PartsOf;
    var tab := FindEnv(body, "tabular", 0);
    if tab.Miss? {
      return Some(Parts("", [], []));
    }
    if tab.Failed? {
      return None;
    }
    var letters, tbody := "", tab.body;
    if HasPrefix(LStrip(tab.body), "{") {
      var spec := ReadBraced(tab.body, 0);
      if spec.None? {
        return None;
      }
      TabBehind(tab.body);
      letters, tbody := spec.value.0, tab.body[spec.value.1 + 1..];
    }
    var parts := ReadParts(letters, tbody);
    r := Some(parts);
  }

  /** What each of the loops appends for a hit. */
  method MakeBlock(kind: Float, opts: string, body: string) returns (r: Option<Block>)
    ensures r == BlockOf(kind, opts, body)
  {
    hide CaptionOf, LabelOf, ImageFrom, TabsFrom, TableOf, OptValue, StripNewlines;
    match kind {
      case Code =>
        r := MakeListing(false, opts, body);
      case Cisco =>
        r := MakeListing(true, opts, body);
      case Figures =>
        var caption := ReadCaption(body);
        r := if caption == Raised then None else Some(Figure(ImageFrom(body, 0), caption, LabelOf(body)));
      case Tables =>
        var caption := ReadCaption(body);
        var parts := ReadTable(body);
        r := if caption == Raised || parts.None? then None else Some(Table(caption, LabelOf(body), parts.value));
      case TabGroups =>
        var tabs := ReadTabs(body);
        r := if tabs.None? then None else Some(VendorTabs(tabs.value));
    }
  }

  method MakeListing(cisco: bool, opts: string, body: string) returns (r: Option<Block>)
    ensures r == ListingBlock(cisco, opts, body)
  {
    hide OptValue, StripNewlines;
    var caption := ReadOption(opts, "caption");
    var name := ReadOption(opts, "label");
    r := if caption == Raised || name == Raised then None else Some(Listing(cisco, caption, name, StripNewlines(body)));
  }
}
