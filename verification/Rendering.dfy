/** What every renderer shares: the text builder, the file banner, and runs of action lines. */
module Rendering {
  import opened Text
  import opened Lexer
  import opened Parser
  import opened Layout
  import opened Canonical
  import opened Mapping

  /** strings.Builder */
  class Builder {
    var text: string

    constructor ()
      ensures text == ""
    {
      text := "";
    }

    method WriteString(s: string)
      modifies this
      ensures text == old(text) + s
    {
      text := text + s;
    }
  }

  /** The line of equal signs, 77 of them. */
  function DoubleRule(): string {
    seq(77, _ => '=')
  }

  function BannerTexts(file: string, title: string): seq<string> {
    [DoubleRule(), file + " - " + title, DoubleRule(), "Company:    Pathfinder Insights",
     "Project:    Soteria AAA Infrastructure",
     ManagedBy(), DoubleRule()]
  }

  function ManagedBy(): string {
    "Managed by: soteria-agent - manual edits" + " are overwritten on the next commit"
  }

  /** Comment lines. */
  function NoteTexts(texts: seq<string>): string {
    if texts == [] then "" else "# " + texts[0] + "\n" + NoteTexts(texts[1..])
  }

  function NoteItems(texts: seq<string>): seq<Item> {
    if texts == [] then [] else [Note(0, texts[0])] + NoteItems(texts[1..])
  }

  /** banner: seven comment lines and a blank one. */
  function Banner(file: string, title: string): string {
    NoteTexts(BannerTexts(file, title)) + "\n"
  }

  function BannerItems(file: string, title: string): seq<Item> {
    NoteItems(BannerTexts(file, title)) + [Item.Blank]
  }

  /** The lines a renderer writes for a list of actions; blank ones are skipped. */
  function ActionLines(actions: seq<string>, indent: string): string {
    if actions == [] then ""
    else (if Trim(actions[0]) != "" then indent + actions[0] + "\n" else "") + ActionLines(actions[1..], indent)
  }

  function DefaultLine(default: string, indent: string): string {
    if default == "" then "" else indent + default + "\n"
  }

  method WriteActions(b: Builder, actions: seq<string>, indent: string)
    modifies b
    ensures b.text == old(b.text) + ActionLines(actions, indent)
  {
    for i := 0 to |actions|
      invariant b.text + ActionLines(actions[i..], indent) == old(b.text) + ActionLines(actions, indent)
    {
      ghost var before, more := b.text, ActionLines(actions[i + 1..], indent);
      assert actions[i..][1..] == actions[i + 1..];
      ghost var line := if Trim(actions[i]) != "" then indent + actions[i] + "\n" else "";
      assert ActionLines(actions[i..], indent) == line + more;
      if Trim(actions[i]) != "" {
        b.WriteString(indent + actions[i] + "\n");
      }
      Assoc(before, line, more);
      assert before + "" == before;
    }
    assert actions[|actions|..] == [];
    assert b.text + "" == b.text;
  }

  method WriteDefault(b: Builder, default: string, indent: string)
    modifies b
    ensures b.text == old(b.text) + DefaultLine(default, indent)
  {
    if default != "" {
      b.WriteString(indent + default + "\n");
    } else {
      assert b.text + "" == b.text;
    }
  }

  function ActionItem(a: string, indent: nat): Item {
    Line(Spaced(indent, Words(a).GetOr([])))
  }

  function ActionItems(actions: seq<string>, indent: nat): seq<Item> {
    if actions == [] then [] else [ActionItem(actions[0], indent)] + ActionItems(actions[1..], indent)
  }

  function DefaultItems(default: string, indent: nat): seq<Item> {
    if default == "" then [] else [Line([Gapped(indent, Bare(default))])]
  }

  lemma SpacesPlus(n: nat)
    ensures Spaces(n) + "    " == Spaces(n + 4)
  {
    assert |Spaces(n) + "    "| == |Spaces(n + 4)|;
  }

  lemma ActionItemOk(a: string, indent: nat, line: nat)
    requires ActionOk(a)
    ensures ItemOk(ActionItem(a, indent)) && Print(ActionItem(a, indent)) == Spaces(indent) + a + "\n"
    ensures var ns := Nodes(ActionItem(a, indent), line);
      |ns| == 1 && ns[0].ActionText() == a && !ns[0].If? && !ns[0].Block?
  {
    hide Words, Trim;
    var xs := Words(a).value;
    WordsSound(a);
    SpacedOk(indent, xs);
    PrintSpaced(indent, xs);
    ActionTextOf(a, line);
    assert Lexemes(Spaced(indent, xs))[0] == Spaced(indent, xs)[0].x;
  }

  lemma {:induction false} ActionItemsOk(actions: seq<string>, indent: nat)
    requires ActionsOk(actions)
    ensures ItemsOk(ActionItems(actions, indent))
    ensures PrintAll(ActionItems(actions, indent)) == ActionLines(actions, Spaces(indent))
    ensures LinesAll(ActionItems(actions, indent)) == |actions| == |ActionItems(actions, indent)|
  {
    if actions != [] {
      hide ItemOk, Words;
      ActionItemOk(actions[0], indent, 0);
      ActionItemsOk(actions[1..], indent);
      assert ActionItems(actions, indent)[1..] == ActionItems(actions[1..], indent);
    }
  }

  lemma TerminalWord(default: string)
    requires IsTerminalAction(default)
    ensures BareOk(default) && default != "if" && default != "else"
  {
    assert default[0] in "pd" && "if"[0] == 'i' && "else"[0] == 'e';
    if default == "permit" {
      assert BareOk("permit");
    } else {
      assert BareOk("deny");
    }
  }

  lemma DefaultItemsOk(default: string, indent: nat)
    requires default == "" || IsTerminalAction(default)
    ensures var items := DefaultItems(default, indent);
      ItemsOk(items) && !OpensWithElse(items) && PrintAll(items) == DefaultLine(default, Spaces(indent))
  {
    if default != "" {
      TerminalWord(default);
      hide IsTerminalAction, BareOk;
      var row := [Gapped(indent, Bare(default))];
      assert RowOk(row) && ItemOk(Line(row));
      assert PrintRow(row) == Spaces(indent) + default;
      assert PrintAll([Line(row)]) == Print(Line(row));
    }
  }

  lemma OneText(n: Node, more: seq<Node>)
    requires !n.If? && NoIfs(more)
    ensures PlainTexts([n] + more) == [n.ActionText()] + PlainTexts(more) && NoIfs([n] + more)
  {
    assert ([n] + more)[1..] == more;
  }

  lemma ActionsSplit(actions: seq<string>, indent: nat)
    requires actions != [] && ActionsOk(actions)
    ensures ActionOk(actions[0]) && ActionsOk(actions[1..]) && [actions[0]] + actions[1..] == actions
    ensures ActionItems(actions, indent) == [ActionItem(actions[0], indent)] + ActionItems(actions[1..], indent)
    ensures Lines(ActionItem(actions[0], indent)) == 1
  {
    hide ActionOk, Words;
  }

  lemma {:induction false} ActionItemsTexts(actions: seq<string>, indent: nat, line: nat)
    requires ActionsOk(actions)
    ensures var ns := AllNodes(ActionItems(actions, indent), line);
      PlainTexts(ns) == actions && NoIfs(ns)
  {
    if actions != [] {
      hide *;
      ActionsSplit(actions, indent);
      var it, items := ActionItem(actions[0], indent), ActionItems(actions[1..], indent);
      ActionItemOk(actions[0], indent, line);
      ActionItemsTexts(actions[1..], indent, line + 1);
      ConsItems(it, items, line);
      assert Nodes(it, line) == [Nodes(it, line)[0]];
      OneText(Nodes(it, line)[0], AllNodes(items, line + 1));
    }
  }

  function AssignItem(indent: nat, key: string, before: nat, after: nat, xs: seq<Lexeme>): Item {
    Line([Gapped(indent, Bare(key)), Gapped(before, Eq)] + Spaced(after, xs))
  }

  /** An assignment line with its own spacing around the equal sign. */
  lemma AssignRow(indent: nat, key: string, before: nat, after: nat, xs: seq<Lexeme>, line: nat)
    requires BareOk(key) && key != "if" && before > 0 && after > 0 && xs != [] && LexemesOk(xs)
    ensures var it := AssignItem(indent, key, before, after, xs); var v := Join(Sources(xs), " ");
      && ItemOk(it) && Print(it) == Spaces(indent) + key + Spaces(before) + "=" + Spaces(after) + v + "\n"
      && Nodes(it, line) == [Assign(key, v, line, line)] && Lines(it) == 1 && ItemNotes(it, line) == []
  {
    hide *;
    AssignOk(indent, key, before, after, xs);
    AssignPrints(indent, key, before, after, xs);
    AssignNode(indent, key, before, after, xs, line);
  }

  lemma AssignOk(indent: nat, key: string, before: nat, after: nat, xs: seq<Lexeme>)
    requires BareOk(key) && key != "if" && before > 0 && after > 0 && xs != [] && LexemesOk(xs)
    ensures ItemOk(AssignItem(indent, key, before, after, xs))
  {
    SpacedOk(after, xs);
    var tail := Spaced(after, xs);
    var row := [Gapped(indent, Bare(key)), Gapped(before, Eq)] + tail;
    assert tail[0].gap == after;
    hide BareOk, Spaced, LexemesOk, Spaces;
    assert LexemeOk(Bare(key)) && LexemeOk(Eq);
    hide LexemeOk;
    assert row[1..] == [Gapped(before, Eq)] + tail && row[1..][1..] == tail;
    assert row[1..][0] == Gapped(before, Eq) && row[1..][1] == tail[0];
    assert RowOk(row[1..]);
    assert RowOk(row);
  }

  lemma AssignPrints(indent: nat, key: string, before: nat, after: nat, xs: seq<Lexeme>)
    requires xs != []
    ensures Print(AssignItem(indent, key, before, after, xs))
      == Spaces(indent) + key + Spaces(before) + "=" + Spaces(after) + Join(Sources(xs), " ") + "\n"
  {
    PrintSpaced(after, xs);
    hide Spaces, Join, Sources, Spaced;
    var tail := Spaced(after, xs);
    var row := [Gapped(indent, Bare(key)), Gapped(before, Eq)] + tail;
    assert row[1..] == [Gapped(before, Eq)] + tail && row[1..][1..] == tail;
    var p2 := Spaces(before) + ("=" + PrintRow(tail));
    assert PrintRow(row[1..]) == p2;
    assert PrintRow(row) == Spaces(indent) + (key + p2);
    RowGlue(Spaces(indent), key, Spaces(before), Spaces(after), Join(Sources(xs), " "));
  }

  lemma AssignNode(indent: nat, key: string, before: nat, after: nat, xs: seq<Lexeme>, line: nat)
    requires LexemesOk(xs)
    ensures var it := AssignItem(indent, key, before, after, xs);
      Nodes(it, line) == [Assign(key, Join(Sources(xs), " "), line, line)] && Lines(it) == 1 &&
        ItemNotes(it, line) == []
  {
    SpacedOk(after, xs);
    var all := [Bare(key), Eq] + xs;
    assert Lexemes([Gapped(indent, Bare(key)), Gapped(before, Eq)] + Spaced(after, xs)) == all;
    assert all[1..] == [Eq] + xs && FirstEq(all[1..]) == 0 && FirstEq(all) == 1;
    assert all[..1] == [Bare(key)] && all[2..] == xs;
    assert Sources(all[..1]) == [key];
    JoinOne(key, " ");
  }

  lemma RowGlue(i: string, key: string, b: string, a: string, x: string)
    ensures i + (key + (b + ("=" + (a + x)))) + "\n" == i + key + b + "=" + a + x + "\n"
  {}

  lemma OneSpace()
    ensures Spaces(1) == " "
  {}

  lemma DefaultItemsTexts(default: string, indent: nat, line: nat)
    requires default == "" || IsTerminalAction(default)
    ensures var ns := AllNodes(DefaultItems(default, indent), line);
      && ns == (if default == "" then [] else [Action(default, line, line)])
      && PlainTexts(ns) == DefaultTexts(default) && NoIfs(ns)
  {
    if default != "" {
      var row := [Gapped(indent, Bare(default))];
      var xs := [Bare(default)];
      assert Lexemes(row) == xs;
      assert FirstEq(xs) == 1;
      assert Sources(xs) == [default];
    }
  }

  lemma NoteOk(text: string, line: nat)
    requires OneLine(text)
    ensures var it := Note(0, text);
      ItemOk(it) && Print(it) == "# " + text + "\n" && Nodes(it, line) == [] && Lines(it) == 1 &&
        ItemNotes(it, line) == [Comment(text, line)]
  {
    assert Spaces(0) + ("# " + (text + "\n")) == "# " + text + "\n";
  }

  lemma NotesSplit(texts: seq<string>)
    requires texts != []
    ensures NoteItems(texts) == [Note(0, texts[0])] + NoteItems(texts[1..])
    ensures NoteTexts(texts) == "# " + texts[0] + "\n" + NoteTexts(texts[1..])
  {}

  lemma {:induction false} NotesOk(texts: seq<string>, line: nat)
    requires forall i :: 0 <= i < |texts| ==> OneLine(texts[i])
    ensures ItemsOk(NoteItems(texts)) && PrintAll(NoteItems(texts)) == NoteTexts(texts)
    ensures AllNodes(NoteItems(texts), line) == [] && LinesAll(NoteItems(texts)) == |texts|
  {
    if texts != [] {
      hide *;
      NotesOk(texts[1..], line + 1);
      NotesSplit(texts);
      NoteOk(texts[0], line);
      ConsItems(Note(0, texts[0]), NoteItems(texts[1..]), line);
      assert [] + AllNodes(NoteItems(texts[1..]), line + 1) == AllNodes(NoteItems(texts[1..]), line + 1);
    }
  }

  /** A text that can stand on a comment line of its own. */
  predicate OneLine(text: string) {
    Trimmed(text) && '\n' !in text
  }

  lemma CompanyOk()
    ensures OneLine("Company:    Pathfinder Insights")
  {}

  lemma ProjectOk()
    ensures OneLine("Project:    Soteria AAA Infrastructure")
  {}

  lemma ManagedByOk()
    ensures OneLine(ManagedBy())
  {
    var a, b := "Managed by: soteria-agent - manual edits", " are overwritten on the next commit";
    assert '\n' !in a && '\n' !in b;
    assert ManagedBy()[0] == a[0] && ManagedBy()[|a| + |b| - 1] == b[|b| - 1];
  }

  lemma BannerPrints(file: string, title: string, line: nat)
    requires OneLine(file + " - " + title)
    ensures ItemsOk(BannerItems(file, title)) && PrintAll(BannerItems(file, title)) == Banner(file, title)
    ensures AllNodes(BannerItems(file, title), line) == [] && LinesAll(BannerItems(file, title)) == 8
  {
    hide ItemsOk, PrintAll, NoteTexts, NoteItems, AllNodes, LinesAll, OneLine, ManagedBy, DoubleRule;
    var texts := BannerTexts(file, title);
    CompanyOk();
    ProjectOk();
    ManagedByOk();
    DoubleRuleOk();
    NotesOk(texts, line);
    BlankPrints(line + 7);
    ItemsOkAppend(NoteItems(texts), [Item.Blank]);
    PrintAllAppend(NoteItems(texts), [Item.Blank]);
    AllNodesAppend(NoteItems(texts), [Item.Blank], line);
  }

  lemma DoubleRuleOk()
    ensures OneLine(DoubleRule())
  {}

  lemma BlankPrints(line: nat)
    ensures ItemsOk([Item.Blank]) && !OpensWithElse([Item.Blank]) && PrintAll([Item.Blank]) == "\n"
    ensures AllNodes([Item.Blank], line) == [] && LinesAll([Item.Blank]) == 1
  {}

  // Blocks with a fixed keyword, and short lists of items.

  lemma HeadOk(word: string, indent: nat, body: seq<Item>, line: nat)
    requires BareOk(word) && word != "if" && ItemsOk(body)
    ensures var it := Group([Gapped(indent, Bare(word))], indent, body);
      ItemOk(it) && Print(it) == Spaces(indent) + word + " {\n" + PrintAll(body) + Spaces(indent) + "}\n"
    ensures Nodes(Group([Gapped(indent, Bare(word))], indent, body), line)
      == [Block(word, "", AllNodes(body, line + 1), line, line + 1 + LinesAll(body))]
  {
    hide ItemsOk, PrintAll, AllNodes, LinesAll, BareOk;
    var row := [Gapped(indent, Bare(word))];
    assert RowOk(row);
    assert PrintRow(row) == Spaces(indent) + word;
    assert row[1..] == [] && Lexemes([]) == [] && Sources([]) == [];
  }

  lemma NamedHeadOk(word: string, name: string, indent: nat, body: seq<Item>, line: nat)
    requires BareOk(word) && word != "if" && BareOk(name) && ItemsOk(body)
    ensures var it := Group([Gapped(indent, Bare(word)), Gapped(1, Bare(name))], indent, body);
      ItemOk(it) && Print(it) == Spaces(indent) + word + " " + name + " {\n" + PrintAll(body) + Spaces(indent) + "}\n"
    ensures Nodes(Group([Gapped(indent, Bare(word)), Gapped(1, Bare(name))], indent, body), line)
      == [Block(word, name, AllNodes(body, line + 1), line, line + 1 + LinesAll(body))]
  {
    hide ItemsOk, PrintAll, AllNodes, LinesAll, BareOk;
    var row := [Gapped(indent, Bare(word)), Gapped(1, Bare(name))];
    var it := Group(row, indent, body);
    assert row[1..] == [Gapped(1, Bare(name))] && row[1..][1..] == [];
    assert RowOk(row[1..]);
    assert RowOk(row);
    assert Spaces(1) == " ";
    assert PrintRow(row[1..]) == " " + name;
    assert PrintRow(row) == Spaces(indent) + word + " " + name;
    NamedGlue(Spaces(indent), PrintRow(row), PrintAll(body));
    assert Lexemes(row[1..]) == [Bare(name)] && Sources([Bare(name)]) == [name];
  }

  lemma NamedGlue(s: string, head: string, body: string)
    ensures head + (" {\n" + (body + (s + "}\n"))) == head + " {\n" + body + s + "}\n"
  {}

  lemma TwoItems(x: Item, y: Item, line: nat)
    requires ItemOk(x) && ItemOk(y) && !x.Branch?
    ensures ItemsOk([x, y]) && PrintAll([x, y]) == Print(x) + Print(y)
    ensures AllNodes([x, y], line) == Nodes(x, line) + Nodes(y, line + Lines(x))
  {
    hide ItemOk, Print, Nodes, Lines;
    var xy := [x, y];
    assert xy[1..] == [y] && xy[1..][1..] == [];
    assert ItemsOk(xy[1..][1..]) && ItemsOk(xy[1..]) && ItemsOk(xy);
    assert Print(y) + "" == Print(y);
    assert PrintAll(xy[1..]) == Print(y) + PrintAll(xy[1..][1..]);
    assert Nodes(y, line + Lines(x)) + [] == Nodes(y, line + Lines(x));
    assert AllNodes(xy[1..], line + Lines(x)) ==
      Nodes(y, line + Lines(x)) + AllNodes(xy[1..][1..], line + Lines(x) + Lines(y));
  }

  lemma OneItem(it: Item, line: nat)
    requires ItemOk(it) && it.Group? && it.head != [] && it.head[0].x != Bare("else")
    ensures ItemsOk([it]) && !OpensWithElse([it]) && PrintAll([it]) == Print(it)
    ensures AllNodes([it], line) == Nodes(it, line)
  {
    hide ItemOk, Print, Nodes, Lines;
    assert Print(it) + "" == Print(it);
    assert Nodes(it, line) + [] == Nodes(it, line);
  }

  lemma NoIndent()
    ensures Spaces(0) == ""
  {}

  lemma IndentTexts()
    ensures Spaces(4) == "    " && Spaces(8) == "        " && Spaces(12) == "            "
  {}

  lemma ThreeParts(a: seq<Item>, c: seq<Item>, d: seq<Item>, line: nat)
    ensures AllNodes(a + (c + d), line) == AllNodes(a, line) +
      (AllNodes(c, line + LinesAll(a)) + AllNodes(d, line + LinesAll(a) + LinesAll(c)))
  {
    hide *;
    AllNodesAppend(c, d, line + LinesAll(a));
    AllNodesAppend(a, c + d, line);
  }

  lemma ScriptWord() ensures BareOk("script") && "script" != "if" {}

  function ActionText(action: string, indent: string): string {
    if Trim(action) == "" then "" else indent + action + "\n"
  }

  lemma ActionStep(action: string, more: seq<string>, indent: string)
    ensures ActionLines([action] + more, indent) == ActionText(action, indent) + ActionLines(more, indent)
  {
    hide Trim;
    assert ([action] + more)[1..] == more;
  }

  /** An action that is not blank is written on a line of its own, and a blank one is passed over. */
  lemma {:induction false} ActionWritten(a: seq<string>, action: string, b: seq<string>, indent: string)
    ensures ActionLines(a + [action] + b, indent) ==
            ActionLines(a, indent) + (if Trim(action) == "" then "" else indent + action + "\n") +
            ActionLines(b, indent)
  {
    hide Trim, ActionLines;
    ActionStep(action, b, indent);
    if a == [] {
      NoActions(indent);
      assert a + [action] + b == [action] + b;
      assert "" + ActionText(action, indent) == ActionText(action, indent);
    } else {
      ActionWritten(a[1..], action, b, indent);
      ActionStep(a[0], a[1..], indent);
      ActionStep(a[0], a[1..] + [action] + b, indent);
      assert [a[0]] + a[1..] == a && [a[0]] + (a[1..] + [action] + b) == a + [action] + b;
      var x, y, z, w := ActionText(a[0], indent), ActionLines(a[1..], indent), ActionText(action, indent),
        ActionLines(b, indent);
      assert x + (y + z + w) == x + y + z + w;
    }
  }

  lemma NoActions(indent: string)
    ensures ActionLines([], indent) == ""
  {}
}
