/** Every well-formed rule list survives rendering and parsing unchanged. */
module RulesetRoundTrip {
  import opened Text
  import opened Lexer
  import opened Parser
  import opened Layout
  import opened LayoutParsing
  import opened Canonical
  import opened Model
  import opened Rendering
  import opened Mapping
  import opened Ruleset

  /** Fields that the file format can carry, at every depth of nesting. */
  predicate ConditionOk(rc: RuleCondition)
    decreases rc, 1
  {
    BareOk(rc.attribute) && BareOk(rc.operator) && ValueOk(rc.operator, rc.value) &&
    ActionsOk(rc.actions) && DefaultOk(rc.actions, rc.defaultAction) &&
    ActionsOk(rc.elseActions) && DefaultOk(rc.elseActions, rc.elseAction) &&
    ConditionsOk(rc.children)
  }

  predicate ConditionsOk(cs: seq<RuleCondition>)
    decreases cs, 0
  {
    cs == [] || (ConditionOk(cs[0]) && ConditionsOk(cs[1..]))
  }

  predicate RuleOk(r: Rule) {
    ConditionsOk(r.matches) && (r.defaultAction == "" || IsTerminalAction(r.defaultAction))
  }

  predicate RulesOk(rules: seq<Rule>) {
    forall i :: 0 <= i < |rules| ==> RuleOk(rules[i])
  }

  // The tree that the renderer prints.

  function BodyItems(rc: RuleCondition, indent: nat): seq<Item>
    decreases rc, 1
  {
    ActionItems(rc.actions, indent) + (ConditionItems(rc.children, indent) + DefaultItems(rc.defaultAction, indent))
  }

  function ElseItems(rc: RuleCondition, indent: nat): seq<Item> {
    ActionItems(rc.elseActions, indent) + DefaultItems(rc.elseAction, indent)
  }

  function ConditionItem(rc: RuleCondition, indent: nat): Item
    decreases rc, 2
  {
    Branch(indent, rc.attribute, rc.operator,
           if ValueOk(rc.operator, rc.value) then ValueWords(rc.operator, rc.value) else [],
           BodyItems(rc, indent + 4), ElseItems(rc, indent + 4))
  }

  function ConditionItems(cs: seq<RuleCondition>, indent: nat): seq<Item>
    decreases cs, 0
  {
    if cs == [] then [] else [ConditionItem(cs[0], indent)] + ConditionItems(cs[1..], indent)
  }

  function EnabledItem(r: Rule): Item {
    AssignItem(8, "enabled", 1, 1, [Bare(if r.enabled then "yes" else "no")])
  }

  function ScriptItem(r: Rule): Item {
    Group([Gapped(8, Bare("script"))], 8, ConditionItems(r.matches, 12) + DefaultItems(r.defaultAction, 12))
  }

  function RuleItem(r: Rule): Item {
    Group([Gapped(4, Bare("rule"))], 4, [EnabledItem(r), ScriptItem(r)])
  }

  function RuleItems(rules: seq<Rule>): seq<Item> {
    if rules == [] then [] else [RuleItem(rules[0])] + RuleItems(rules[1..])
  }

  function RulesetBannerItems(): seq<Item> {
    BannerItems("08-ruleset.cfg", RulesetTitle())
  }

  function RulesetItem(rules: seq<Rule>): Item {
    Group([Gapped(0, Bare("ruleset"))], 0, RuleItems(rules))
  }

  function RulesetItems(rules: seq<Rule>): seq<Item> {
    RulesetBannerItems() + [RulesetItem(rules)]
  }

  // Conditions: the tree is well formed, prints as the renderer's text, and maps back.

  lemma {:induction false} BodyPrints(rc: RuleCondition, indent: nat)
    requires ConditionOk(rc)
    ensures ItemsOk(BodyItems(rc, indent))
    ensures PrintAll(BodyItems(rc, indent)) == ActionLines(rc.actions, Spaces(indent)) +
      (ConditionsText(rc.children, Spaces(indent)) + DefaultLine(rc.defaultAction, Spaces(indent)))
    decreases rc, 1
  {
    var a, c, d := ActionItems(rc.actions, indent), ConditionItems(rc.children, indent),
      DefaultItems(rc.defaultAction, indent);
    ActionItemsOk(rc.actions, indent);
    ConditionsPrint(rc.children, indent);
    DefaultItemsOk(rc.defaultAction, indent);
    hide *;
    ItemsOkAppend(c, d);
    OpensAppend(c, d);
    ItemsOkAppend(a, c + d);
    PrintAllAppend(c, d);
    PrintAllAppend(a, c + d);
    BodyParts(rc, indent);
  }

  lemma BodyParts(rc: RuleCondition, indent: nat)
    ensures BodyItems(rc, indent)
      == ActionItems(rc.actions, indent) +
        (ConditionItems(rc.children, indent) + DefaultItems(rc.defaultAction, indent))
  {}

  lemma ElsePrints(rc: RuleCondition, indent: nat)
    requires ConditionOk(rc)
    ensures ItemsOk(ElseItems(rc, indent))
    ensures PrintAll(ElseItems(rc, indent)) ==
            ActionLines(rc.elseActions, Spaces(indent)) + DefaultLine(rc.elseAction, Spaces(indent))
    ensures ElseItems(rc, indent) == [] <==> !HasElse(rc)
  {
    var a, d := ActionItems(rc.elseActions, indent), DefaultItems(rc.elseAction, indent);
    ActionItemsOk(rc.elseActions, indent);
    DefaultItemsOk(rc.elseAction, indent);
    assert |a| == |rc.elseActions| && |d| == if rc.elseAction == "" then 0 else 1;
    hide ItemsOk, PrintAll, ActionLines, DefaultLine, ConditionOk;
    ItemsOkAppend(a, d);
    PrintAllAppend(a, d);
  }

  lemma {:induction false} ConditionPrints(rc: RuleCondition, indent: nat)
    requires ConditionOk(rc)
    ensures ItemOk(ConditionItem(rc, indent))
    ensures Print(ConditionItem(rc, indent)) == ConditionText(rc, Spaces(indent))
    decreases rc, 2
  {
    hide *;
    BodyPrints(rc, indent + 4);
    ElsePrints(rc, indent + 4);
    ConditionParts(rc);
    CondValueOf(rc.attribute, rc.operator, rc.value);
    SpacesPlus(indent);
    ConditionGlue(rc, indent);
    ConditionItemOk(rc, indent);
  }

  lemma ConditionParts(rc: RuleCondition)
    requires ConditionOk(rc)
    ensures ValueOk(rc.operator, rc.value)
  {}

  lemma ConditionItemOk(rc: RuleCondition, indent: nat)
    requires ConditionOk(rc) && ValueOk(rc.operator, rc.value) && LexemesOk(ValueWords(rc.operator, rc.value))
    requires ItemsOk(BodyItems(rc, indent + 4)) && ItemsOk(ElseItems(rc, indent + 4))
    ensures ItemOk(ConditionItem(rc, indent))
  {
    hide BodyItems, ElseItems, ItemsOk, LexemesOk, ValueWords, ValueOk, ConditionsOk, ActionsOk;
  }

  /** The two ways of putting the pieces of a condition's text together agree. */
  lemma ConditionGlue(rc: RuleCondition, indent: nat)
    requires ValueOk(rc.operator, rc.value) && Spaces(indent) + "    " == Spaces(indent + 4)
    requires PrintAll(BodyItems(rc, indent + 4)) == ActionLines(rc.actions, Spaces(indent + 4)) +
      (ConditionsText(rc.children, Spaces(indent + 4)) + DefaultLine(rc.defaultAction, Spaces(indent + 4)))
    requires PrintAll(ElseItems(rc, indent + 4)) ==
             ActionLines(rc.elseActions, Spaces(indent + 4)) + DefaultLine(rc.elseAction, Spaces(indent + 4))
    requires ElseItems(rc, indent + 4) == [] <==> !HasElse(rc)
    requires PrintRow(Spaced(0, ValueWords(rc.operator, rc.value))) == RenderCondValue(rc.operator, rc.value)
    ensures Print(ConditionItem(rc, indent)) == ConditionText(rc, Spaces(indent))
  {
    hide ActionLines, ConditionsText, DefaultLine, RenderCondValue, BodyItems, ElseItems, PrintAll, ValueOk, ValueWords,
      Spaces, Spaced, PrintRow;
    var s := Spaces(indent);
    var s4 := Spaces(indent + 4);
    var a, c, d := ActionLines(rc.actions, s4), ConditionsText(rc.children, s4), DefaultLine(rc.defaultAction, s4);
    HeadGlue(rc, s, PrintRow(Spaced(0, ValueWords(rc.operator, rc.value))));
    var tail := if HasElse(rc)
      then "} else {\n" + ((ActionLines(rc.elseActions, s4) + DefaultLine(rc.elseAction, s4)) + (s + "}\n"))
      else "}\n";
    assert s + tail == ElseText(rc, s) + (s + "}\n") by {
      if HasElse(rc) {
        var ea, ed := ActionLines(rc.elseActions, s4), DefaultLine(rc.elseAction, s4);
        assert s + ("} else {\n" + ((ea + ed) + (s + "}\n"))) == (s + "} else {\n" + ea + ed) + (s + "}\n");
      } else {
        assert "" + (s + "}\n") == s + "}\n";
      }
    }
    var h := Condition(rc.attribute, rc.operator, ValueWords(rc.operator, rc.value));
    assert Print(ConditionItem(rc, indent)) == s + (h + (" {\n" + ((a + (c + d)) + (s + tail))));
    PieceGlue(s, h, a, c, d, ElseText(rc, s), s + "}\n");
  }

  lemma HeadGlue(rc: RuleCondition, s: string, v: string)
    requires v == RenderCondValue(rc.operator, rc.value)
    ensures HeadText(rc, s)
      == s + (("if (" + (rc.attribute + (" " + (rc.operator + (" " + (v + ")")))))) + " {\n")
  {
    hide RenderCondValue;
    var r := rc.attribute + " " + rc.operator + " " + v;
    assert r == rc.attribute + (" " + (rc.operator + (" " + v)));
    assert (s + "if (" + r) + ") {\n" == s + (("if (" + (r + ")")) + " {\n");
    assert r + ")" == rc.attribute + (" " + (rc.operator + (" " + (v + ")"))));
  }

  lemma PieceGlue(s: string, h: string, a: string, c: string, d: string, e: string, z: string)
    ensures s + (h + (" {\n" + ((a + (c + d)) + (e + z)))) == ((s + (h + " {\n")) + a + c + d) + e + z
  {
    var o := " {\n";
    assert (a + (c + d)) + (e + z) == (a + c + d) + (e + z);
    Assoc(a + c + d, e, z);
    Assoc(h, o, (a + c + d) + (e + z));
    Assoc(s, h + o, (a + c + d) + (e + z));
    assert (s + (h + o)) + ((a + c + d) + (e + z)) == ((s + (h + o)) + (a + c + d)) + (e + z);
    assert (s + (h + o)) + (a + c + d) == (s + (h + o)) + a + c + d;
    Assoc((s + (h + o)) + a + c + d, e, z);
  }

  lemma {:induction false} ConditionsPrint(cs: seq<RuleCondition>, indent: nat)
    requires ConditionsOk(cs)
    ensures ItemsOk(ConditionItems(cs, indent)) && !OpensWithElse(ConditionItems(cs, indent))
    ensures PrintAll(ConditionItems(cs, indent)) == ConditionsText(cs, Spaces(indent))
    decreases cs, 0
  {
    if cs != [] {
      hide ItemOk, ConditionOk, ConditionText, Print;
      ConditionPrints(cs[0], indent);
      ConditionsPrint(cs[1..], indent);
      assert ConditionItems(cs, indent)[1..] == ConditionItems(cs[1..], indent);
      assert ConditionItems(cs, indent)[0].Branch?;
    }
  }

  // Reading the tree back.

  lemma {:induction false} ConditionsOfAppend(a: seq<Node>, b: seq<Node>)
    ensures ConditionsOf(a + b) == ConditionsOf(a) + ConditionsOf(b)
  {
    if a == [] {
      assert a + b == b;
    } else {
      hide ConditionOf;
      ConditionsOfAppend(a[1..], b);
      assert (a + b)[1..] == a[1..] + b;
      Assoc(if a[0].If? then [ConditionOf(a[0])] else [], ConditionsOf(a[1..]), ConditionsOf(b));
    }
  }

  lemma {:induction false} NoConditions(ns: seq<Node>)
    requires NoIfs(ns)
    ensures ConditionsOf(ns) == []
  {
    if ns != [] {
      NoConditions(ns[1..]);
    }
  }

  lemma ScriptMaps(na: seq<Node>, nc: seq<Node>, nd: seq<Node>)
    requires NoIfs(na) && NoIfs(nd) && PlainTexts(nc) == []
    ensures ConditionsOf(na + (nc + nd)) == ConditionsOf(nc)
    ensures PlainTexts(na + (nc + nd)) == PlainTexts(na) + PlainTexts(nd)
  {
    hide *;
    NoConditions(na);
    NoConditions(nd);
    ConditionsOfAppend(nc, nd);
    ConditionsOfAppend(na, nc + nd);
    PlainTextsAppend(nc, nd);
    PlainTextsAppend(na, nc + nd);
  }

  lemma {:induction false} BodyMaps(rc: RuleCondition, indent: nat, line: nat)
    requires ConditionOk(rc)
    ensures var ns := AllNodes(BodyItems(rc, indent), line);
      ConditionsOf(ns) == rc.children && SplitDefault(PlainTexts(ns)) == (rc.actions, rc.defaultAction)
    decreases rc, 1
  {
    hide *;
    var a, c, d := ActionItems(rc.actions, indent), ConditionItems(rc.children, indent),
      DefaultItems(rc.defaultAction, indent);
    var lc := line + LinesAll(a);
    var ld := lc + LinesAll(c);
    BodyOk(rc);
    ActionItemsTexts(rc.actions, indent, line);
    ConditionsMap(rc.children, indent, lc);
    DefaultItemsTexts(rc.defaultAction, indent, ld);
    ScriptMaps(AllNodes(a, line), AllNodes(c, lc), AllNodes(d, ld));
    SplitDefaultOf(rc.actions, rc.defaultAction);
    BodyParts(rc, indent);
    ThreeParts(a, c, d, line);
  }

  lemma BodyOk(rc: RuleCondition)
    requires ConditionOk(rc)
    ensures ActionsOk(rc.actions) && DefaultOk(rc.actions, rc.defaultAction) && ConditionsOk(rc.children)
    ensures ActionsOk(rc.elseActions) && DefaultOk(rc.elseActions, rc.elseAction)
    ensures (rc.defaultAction == "" || IsTerminalAction(rc.defaultAction))
    ensures (rc.elseAction == "" || IsTerminalAction(rc.elseAction))
  {}

  lemma ElseParts(rc: RuleCondition, indent: nat)
    ensures ElseItems(rc, indent) == ActionItems(rc.elseActions, indent) + DefaultItems(rc.elseAction, indent)
  {}

  lemma ElseMaps(rc: RuleCondition, indent: nat, line: nat)
    requires ConditionOk(rc)
    ensures SplitDefault(AllTexts(AllNodes(ElseItems(rc, indent), line))) == (rc.elseActions, rc.elseAction)
  {
    hide *;
    var a, d := ActionItems(rc.elseActions, indent), DefaultItems(rc.elseAction, indent);
    BodyOk(rc);
    ElseParts(rc, indent);
    ActionItemsTexts(rc.elseActions, indent, line);
    DefaultItemsTexts(rc.elseAction, indent, line + LinesAll(a));
    PlainMaps(AllNodes(a, line), AllNodes(d, line + LinesAll(a)));
    AllNodesAppend(a, d, line);
    SplitDefaultOf(rc.elseActions, rc.elseAction);
  }

  lemma {:induction false} ConditionMaps(rc: RuleCondition, indent: nat, line: nat)
    requires ConditionOk(rc)
    ensures var ns := Nodes(ConditionItem(rc, indent), line);
      |ns| == 1 && ns[0].If? && ConditionOf(ns[0]) == rc
    decreases rc, 2
  {
    hide *;
    ConditionParts(rc);
    BodyMaps(rc, indent + 4, line + 1);
    ElseMaps(rc, indent + 4, line + 2 + LinesAll(BodyItems(rc, indent + 4)));
    CondValueOf(rc.attribute, rc.operator, rc.value);
    ConditionNode(rc, indent, line);
    ConditionOfNode(Nodes(ConditionItem(rc, indent), line)[0], rc);
  }

  lemma ConditionNode(rc: RuleCondition, indent: nat, line: nat)
    requires ValueOk(rc.operator, rc.value)
    ensures var ns := Nodes(ConditionItem(rc, indent), line);
      && |ns| == 1 && ns[0].If?
      && ns[0].cond == CondOf(rc.attribute, rc.operator, ValueWords(rc.operator, rc.value))
      && ns[0].cond.attr == rc.attribute && ns[0].cond.op == rc.operator
      && ns[0].children == AllNodes(BodyItems(rc, indent + 4), line + 1)
      && ns[0].elseNodes == AllNodes(ElseItems(rc, indent + 4), line + 2 + LinesAll(BodyItems(rc, indent + 4)))
  {
    hide BodyItems, ElseItems, ValueWords, ValueOk, AllNodes, LinesAll;
  }

  lemma ConditionOfNode(n: Node, rc: RuleCondition)
    requires n.If? && n.cond.attr == rc.attribute && n.cond.op == rc.operator && CondValue(n.cond) == rc.value
    requires ConditionsOf(n.children) == rc.children
    requires SplitDefault(PlainTexts(n.children)) == (rc.actions, rc.defaultAction)
    requires SplitDefault(AllTexts(n.elseNodes)) == (rc.elseActions, rc.elseAction)
    ensures ConditionOf(n) == rc
  {
    hide ConditionsOf, SplitDefault, PlainTexts, AllTexts, CondValue;
  }

  lemma OneCondition(n: Node, more: seq<Node>)
    requires n.If? && AllIfs(more)
    ensures ConditionsOf([n] + more) == [ConditionOf(n)] + ConditionsOf(more)
    ensures PlainTexts([n] + more) == PlainTexts(more) && AllIfs([n] + more)
  {
    hide ConditionOf;
    assert ([n] + more)[1..] == more;
  }

  lemma ConditionsSplit(cs: seq<RuleCondition>, indent: nat)
    requires cs != [] && ConditionsOk(cs)
    ensures ConditionOk(cs[0]) && ConditionsOk(cs[1..]) && [cs[0]] + cs[1..] == cs
    ensures ConditionItems(cs, indent) == [ConditionItem(cs[0], indent)] + ConditionItems(cs[1..], indent)
  {
    hide ConditionOk, ConditionItem;
  }

  lemma NoConditionItems(indent: nat, line: nat)
    ensures var ns := AllNodes(ConditionItems([], indent), line);
      ConditionsOf(ns) == [] && PlainTexts(ns) == [] && AllIfs(ns)
  {}

  lemma {:induction false} ConditionsMap(cs: seq<RuleCondition>, indent: nat, line: nat)
    requires ConditionsOk(cs)
    ensures var ns := AllNodes(ConditionItems(cs, indent), line);
      ConditionsOf(ns) == cs && PlainTexts(ns) == [] && AllIfs(ns)
    decreases cs, 0
  {
    hide *;
    if cs == [] {
      NoConditionItems(indent, line);
    } else {
      ConditionsSplit(cs, indent);
      var it, items := ConditionItem(cs[0], indent), ConditionItems(cs[1..], indent);
      var next := line + Lines(it);
      ConditionMaps(cs[0], indent, line);
      ConditionsMap(cs[1..], indent, next);
      ConsItems(it, items, line);
      assert Nodes(it, line) == [Nodes(it, line)[0]];
      OneCondition(Nodes(it, line)[0], AllNodes(items, next));
    }
  }

  // Rules and the file.

  // The fixed words of the file.

  lemma EnabledWord() ensures BareOk("enabled") && "enabled" != "if" {}
  lemma YesWord() ensures BareOk("yes") && BareOk("no") {}
  lemma RuleWord() ensures BareOk("rule") && "rule" != "if" {}
  lemma RulesetWord() ensures BareOk("ruleset") && "ruleset" != "if" {}

  lemma EnabledPrints(r: Rule, line: nat)
    ensures ItemOk(EnabledItem(r)) && Print(EnabledItem(r)) == EnabledLine(r)
    ensures Nodes(EnabledItem(r), line) == [Assign("enabled", if r.enabled then "yes" else "no", line, line)]
  {
    hide BareOk;
    EnabledWord();
    YesWord();
    EnabledRow(if r.enabled then "yes" else "no", line);
  }

  lemma EnabledRow(v: string, line: nat)
    requires BareOk(v) && BareOk("enabled") && "enabled" != "if"
    ensures var it := AssignItem(8, "enabled", 1, 1, [Bare(v)]);
      && ItemOk(it) && Print(it) == "        enabled = " + v + "\n"
      && Nodes(it, line) == [Assign("enabled", v, line, line)]
  {
    hide BareOk;
    IndentTexts();
    assert LexemesOk([Bare(v)]) by { assert LexemeOk(Bare(v)); }
    AssignRow(8, "enabled", 1, 1, [Bare(v)], line);
    assert Sources([Bare(v)]) == [v];
    JoinOne(v, " ");
    hide *;
    assert "        " + "enabled" + " " + "=" + " " == "        enabled = ";
    assert Spaces(1) == " " by { OneSpace(); }
  }

  function ScriptBody(r: Rule): seq<Item> {
    ConditionItems(r.matches, 12) + DefaultItems(r.defaultAction, 12)
  }

  function ScriptText(r: Rule): string {
    "        script {\n" + ConditionsText(r.matches, "            ") + DefaultLine(r.defaultAction, "            ") +
      "        }\n"
  }

  lemma ScriptBodyPrints(r: Rule)
    requires RuleOk(r)
    ensures ItemsOk(ScriptBody(r))
    ensures PrintAll(ScriptBody(r)) == ConditionsText(r.matches, Spaces(12)) + DefaultLine(r.defaultAction, Spaces(12))
  {
    hide ItemsOk, PrintAll, ConditionsText, DefaultLine, ConditionItems, DefaultItems, ConditionsOk;
    ConditionsPrint(r.matches, 12);
    DefaultItemsOk(r.defaultAction, 12);
    ItemsOkAppend(ConditionItems(r.matches, 12), DefaultItems(r.defaultAction, 12));
    PrintAllAppend(ConditionItems(r.matches, 12), DefaultItems(r.defaultAction, 12));
  }

  lemma ScriptBodyMaps(r: Rule, line: nat)
    requires RuleOk(r)
    ensures var ns := AllNodes(ScriptBody(r), line);
      ConditionsOf(ns) == r.matches && LastTerminal(ns, "") == r.defaultAction
  {
    hide AllNodes, ConditionsOf, PlainTexts, ConditionItems, DefaultItems, ConditionsOk, LinesAll;
    var a, b := ConditionItems(r.matches, 12), DefaultItems(r.defaultAction, 12);
    var lb := line + LinesAll(a);
    var na, nb := AllNodes(a, line), AllNodes(b, lb);
    ConditionsMap(r.matches, 12, line);
    DefaultItemsTexts(r.defaultAction, 12, lb);
    assert LastTerminal(nb, "") == r.defaultAction;
    hide LastTerminal;
    NoConditions(nb);
    AllNodesAppend(a, b, line);
    ConditionsOfAppend(na, nb);
    LastTerminalAfter(na, nb);
    assert r.matches + [] == r.matches;
  }

  lemma ScriptPrints(r: Rule, line: nat)
    requires RuleOk(r)
    ensures ItemOk(ScriptItem(r)) && Print(ScriptItem(r)) == ScriptText(r)
    ensures Nodes(ScriptItem(r), line)
      == [Block("script", "", AllNodes(ScriptBody(r), line + 1), line, line + 1 + LinesAll(ScriptBody(r)))]
  {
    hide *;
    ScriptWord();
    IndentTexts();
    ScriptBodyPrints(r);
    HeadOk("script", 8, ScriptBody(r), line);
    ScriptIs(r);
    ScriptGlue(r);
  }

  lemma ScriptIs(r: Rule)
    ensures ScriptItem(r) == Group([Gapped(8, Bare("script"))], 8, ScriptBody(r))
  {
    hide ScriptBody;
    assert ScriptBody(r) == ConditionItems(r.matches, 12) + DefaultItems(r.defaultAction, 12) by {
      ScriptBodyIs(r);
    }
  }

  lemma ScriptBodyIs(r: Rule)
    ensures ScriptBody(r) == ConditionItems(r.matches, 12) + DefaultItems(r.defaultAction, 12)
  {}

  lemma ScriptGlue(r: Rule)
    ensures "        " + "script" + " {\n" +
      (ConditionsText(r.matches, "            ") + DefaultLine(r.defaultAction, "            ")) + "        " + "}\n" ==
        ScriptText(r)
  {
    hide ConditionsText, DefaultLine;
    var c, d := ConditionsText(r.matches, "            "), DefaultLine(r.defaultAction, "            ");
    var o := "        script {\n";
    assert "        " + "script" + " {\n" == o;
    assert "        " + "}\n" == "        }\n";
    Glue4(o, c, d, "        ", "}\n");
  }

  lemma Glue4(o: string, c: string, d: string, i: string, z: string)
    ensures o + (c + d) + i + z == o + c + d + (i + z)
  {}

  function RuleBody(r: Rule): seq<Item> {
    [EnabledItem(r), ScriptItem(r)]
  }

  lemma RuleParts(r: Rule)
    ensures RuleItem(r) == Group([Gapped(4, Bare("rule"))], 4, RuleBody(r))
    ensures RuleBody(r) == [EnabledItem(r), ScriptItem(r)] && Lines(EnabledItem(r)) == 1 && EnabledItem(r).Line?
  {}

  lemma RulePrints(r: Rule, line: nat)
    requires RuleOk(r)
    ensures ItemOk(RuleItem(r)) && Print(RuleItem(r)) == RuleText(r)
    ensures var ns := Nodes(RuleItem(r), line);
      |ns| == 1 && ns[0].Block? && ns[0].name == "rule" && RuleOf(ns[0]) == r
  {
    hide *;
    RuleWord();
    IndentTexts();
    RuleParts(r);
    EnabledPrints(r, line + 1);
    ScriptPrints(r, line + 2);
    TwoItems(EnabledItem(r), ScriptItem(r), line + 1);
    HeadOk("rule", 4, RuleBody(r), line);
    ScriptBodyMaps(r, line + 3);
    RuleOfNode(r, Nodes(RuleItem(r), line)[0], line);
    RuleGlue(r);
  }

  lemma RuleGlue(r: Rule)
    ensures "    " + "rule" + " {\n" + (EnabledLine(r) + ScriptText(r)) + "    " + "}\n" == RuleText(r)
  {
    hide EnabledLine, ConditionsText, DefaultLine;
    var e, c, d := EnabledLine(r), ConditionsText(r.matches, "            "),
      DefaultLine(r.defaultAction, "            ");
    var h := "    rule {\n";
    assert "    " + "rule" + " {\n" == h;
    assert "        }\n" + ("    " + "}\n") == "        }\n    }\n";
    Glue6(h, e, "        script {\n", c, d, "        }\n", "    ", "}\n");
  }

  lemma Glue6(h: string, e: string, o: string, c: string, d: string, y: string, i: string, z: string)
    ensures h + (e + (o + c + d + y)) + i + z == h + e + o + c + d + (y + (i + z))
  {
    Assoc(o + c + d, y, i + z);
    assert h + (e + (o + c + d + y)) + i + z == h + e + (o + c + d) + (y + (i + z));
    assert h + e + (o + c + d) == h + e + o + c + d;
  }

  lemma RuleOfNode(r: Rule, n: Node, line: nat)
    requires n.Block? && |n.children| == 2
    requires n.children[0] == Assign("enabled", if r.enabled then "yes" else "no", line + 1, line + 1)
    requires n.children[1].Block? && n.children[1].name == "script"
    requires ConditionsOf(n.children[1].children) == r.matches
    requires LastTerminal(n.children[1].children, "") == r.defaultAction
    ensures RuleOf(n) == r
  {
    hide ConditionsOf, LastTerminal;
    var ns := n.children;
    assert ns[1..][0] == ns[1];
    assert FindBlock(ns, "script") == Some(ns[1]);
    assert AssignValue(ns, "enabled") == if r.enabled then "yes" else "no";
    assert "yes"[0] != "no"[0];
  }

  lemma OneRule(n: Node, more: seq<Node>)
    requires n.Block? && n.name == "rule"
    ensures RulesOf([n] + more) == [RuleOf(n)] + RulesOf(more)
  {
    hide RuleOf;
    assert ([n] + more)[1..] == more;
  }

  lemma RulesSplit(rules: seq<Rule>)
    requires rules != [] && RulesOk(rules)
    ensures RuleOk(rules[0]) && RulesOk(rules[1..]) && [rules[0]] + rules[1..] == rules
    ensures RuleItems(rules) == [RuleItem(rules[0])] + RuleItems(rules[1..])
    ensures RulesText(rules) == RuleText(rules[0]) + RulesText(rules[1..])
  {
    hide RuleOk, RuleItem, RuleText;
  }

  lemma NoRuleItems(line: nat)
    ensures ItemsOk(RuleItems([])) && PrintAll(RuleItems([])) == RulesText([])
    ensures RulesOf(AllNodes(RuleItems([]), line)) == []
  {}

  lemma {:induction false} RulesPrint(rules: seq<Rule>, line: nat)
    requires RulesOk(rules)
    ensures ItemsOk(RuleItems(rules)) && PrintAll(RuleItems(rules)) == RulesText(rules)
    ensures RulesOf(AllNodes(RuleItems(rules), line)) == rules
  {
    hide *;
    if rules == [] {
      NoRuleItems(line);
    } else {
      RulesSplit(rules);
      var it, items := RuleItem(rules[0]), RuleItems(rules[1..]);
      var next := line + Lines(it);
      RulePrints(rules[0], line);
      RulesPrint(rules[1..], next);
      RuleItemIsGroup(rules[0]);
      ConsItems(it, items, line);
      assert Nodes(it, line) == [Nodes(it, line)[0]];
      OneRule(Nodes(it, line)[0], AllNodes(items, next));
    }
  }

  lemma RuleItemIsGroup(r: Rule)
    ensures RuleItem(r).Group?
  {}

  // The banner, and the whole file.

  lemma TitleOk()
    ensures OneLine("08-ruleset.cfg" + " - " + RulesetTitle())
  {
    var a, b, c := "08-ruleset.cfg - ", "Authorization ruleset ", "(top-down, first match wins)";
    assert '\n' !in a && '\n' !in b && '\n' !in c;
    var t := "08-ruleset.cfg" + " - " + RulesetTitle();
    assert t == a + b + c && t[0] == a[0] && t[|t| - 1] == c[|c| - 1];
  }

  lemma RulesetParts(rules: seq<Rule>)
    ensures RulesetItems(rules) == RulesetBannerItems() + [RulesetItem(rules)]
    ensures RulesetItem(rules) == Group([Gapped(0, Bare("ruleset"))], 0, RuleItems(rules))
    ensures RulesetBannerItems() == BannerItems("08-ruleset.cfg", RulesetTitle())
    ensures RulesetBanner() == Banner("08-ruleset.cfg", RulesetTitle())
    ensures Bare("ruleset") != Bare("else")
  {
    hide RuleItems, BannerItems, Banner, RulesetTitle;
    assert "ruleset"[0] != "else"[0];
  }

  lemma RulesetGlue(rules: seq<Rule>)
    ensures RulesetBanner() + ("" + "ruleset" + " {\n" + RulesText(rules) + "" + "}\n") == RulesetText(rules)
  {
    hide RulesetBanner, RulesText;
    var t := RulesText(rules);
    assert "" + "ruleset" + " {\n" == "ruleset {\n";
    assert "ruleset {\n" + t + "" == "ruleset {\n" + t;
    Assoc(RulesetBanner(), "ruleset {\n" + t, "}\n");
    Assoc(RulesetBanner(), "ruleset {\n", t);
  }

  lemma RulesetPrints(rules: seq<Rule>)
    requires RulesOk(rules)
    ensures ItemsOk(RulesetItems(rules)) && PrintAll(RulesetItems(rules)) == RulesetText(rules)
    ensures RulesOfFile(AllNodes(RulesetItems(rules), 1)) == rules
  {
    hide *;
    var banner, it := RulesetBannerItems(), RulesetItem(rules);
    RulesetWord();
    TitleOk();
    RulesetParts(rules);
    BannerPrints("08-ruleset.cfg", RulesetTitle(), 1);
    RulesPrint(rules, 10);
    HeadOk("ruleset", 0, RuleItems(rules), 9);
    OneItem(it, 9);
    ItemsOkAppend(banner, [it]);
    PrintAllAppend(banner, [it]);
    AllNodesAppend(banner, [it], 1);
    RulesetGlue(rules);
    NoIndent();
    assert [] + AllNodes([it], 9) == AllNodes([it], 9);
    RulesetBlock(AllNodes([it], 9), rules);
  }

  lemma RulesetBlock(ns: seq<Node>, rules: seq<Rule>)
    requires |ns| == 1 && ns[0].Block? && ns[0].name == "ruleset" && RulesOf(ns[0].children) == rules
    ensures RulesOfFile(ns) == rules
  {
    hide RulesOf;
  }

  /** The file the renderer writes for well-formed rules is read back as exactly those rules. */
  lemma RulesetRoundTrip(rules: seq<Rule>)
    requires RulesOk(rules)
    ensures RulesetOf(RulesetText(rules)) == Good(rules)
  {
    hide *;
    RulesetPrints(rules);
    PrintedTree(RulesetItems(rules));
    RulesetOfTree(RulesetText(rules));
  }

  lemma RulesetOfTree(src: string)
    ensures Tree(src).Good? ==> RulesetOf(src) == Good(RulesOfFile(Tree(src).value))
  {
    hide Tree, RulesOfFile;
  }

  /** The same for the two methods, run one after the other. */
  method RenderThenParse(rules: seq<Rule>) returns (r: Result<seq<Rule>>)
    requires RulesOk(rules)
    ensures r == Good(rules)
  {
    hide *;
    var text := RenderRuleset(rules);
    r := ParseRuleset(text);
    RulesetRoundTrip(rules);
  }
}
