/** 08-ruleset.cfg: rendering rules to text and reading them back. */
module Ruleset {
  import opened Text
  import opened Lexer
  import opened Parser
  import opened Layout
  import opened LayoutParsing
  import opened Canonical
  import opened Model
  import opened Rendering
  import opened Mapping

  // ---------------------------------------------------------------- rendering

  function HasElse(rc: RuleCondition): bool {
    rc.elseActions != [] || rc.elseAction != ""
  }

  function HeadText(rc: RuleCondition, indent: string): string {
    indent + "if (" + (rc.attribute + " " + rc.operator + " " + RenderCondValue(rc.operator, rc.value)) + ") {\n"
  }

  function ElseText(rc: RuleCondition, indent: string): string {
    if HasElse(rc) then
      indent + "} else {\n" + ActionLines(rc.elseActions, indent + "    ") + DefaultLine(rc.elseAction, indent + "    ")
    else ""
  }

  function ConditionText(rc: RuleCondition, indent: string): string
    decreases rc, 1
  {
    HeadText(rc, indent) + ActionLines(rc.actions, indent + "    ") + ConditionsText(rc.children, indent + "    ") +
    DefaultLine(rc.defaultAction, indent + "    ") + ElseText(rc, indent) + (indent + "}\n")
  }

  function ConditionsText(cs: seq<RuleCondition>, indent: string): string
    decreases cs, 0
  {
    if cs == [] then "" else ConditionText(cs[0], indent) + ConditionsText(cs[1..], indent)
  }

  function EnabledLine(r: Rule): string {
    "        enabled = " + (if r.enabled then "yes" else "no") + "\n"
  }

  function RuleText(r: Rule): string {
    "    rule {\n" + EnabledLine(r) + "        script {\n" + ConditionsText(r.matches, "            ") +
    DefaultLine(r.defaultAction, "            ") + "        }\n    }\n"
  }

  function RulesText(rules: seq<Rule>): string {
    if rules == [] then "" else RuleText(rules[0]) + RulesText(rules[1..])
  }

  function RulesetTitle(): string {
    "Authorization ruleset " + "(top-down, first match wins)"
  }

  function RulesetBanner(): string {
    Banner("08-ruleset.cfg", RulesetTitle())
  }

  function RulesetText(rules: seq<Rule>): string {
    RulesetBanner() + "ruleset {\n" + RulesText(rules) + "}\n"
  }

  /** RenderRuleset */
  method RenderRuleset(rules: seq<Rule>) returns (text: string)
    ensures text == RulesetText(rules)
  {
    hide RuleText, RulesetBanner;
    var b := new Builder();
    b.WriteString(RulesetBanner());
    assert b.text == RulesetBanner();
    b.WriteString("ruleset {\n");
    ghost var head := b.text;
    for i := 0 to |rules|
      invariant b.text + RulesText(rules[i..]) == head + RulesText(rules)
    {
      ghost var before := b.text;
      WriteRule(b, rules[i]);
      assert rules[i..][1..] == rules[i + 1..];
      Assoc(before, RuleText(rules[i]), RulesText(rules[i + 1..]));
    }
    assert b.text + "" == b.text;
    b.WriteString("}\n");
    text := b.text;
  }

  /** One round of the loop over rules. */
  method WriteRule(b: Builder, r: Rule)
    modifies b
    ensures b.text == old(b.text) + RuleText(r)
  {
    hide ConditionsText, DefaultLine;
    ghost var base := b.text;
    var enabled := "yes";
    if !r.enabled {
      enabled := "no";
    }
    b.WriteString("    rule {\n");
    b.WriteString("        enabled = " + enabled + "\n");
    ghost var t := "    rule {\n";
    Assoc(base, t, EnabledLine(r));
    t := t + EnabledLine(r);
    b.WriteString("        script {\n");
    Assoc(base, t, "        script {\n");
    t := t + "        script {\n";
    WriteConditions(b, r.matches, "            ");
    Assoc(base, t, ConditionsText(r.matches, "            "));
    t := t + ConditionsText(r.matches, "            ");
    WriteDefault(b, r.defaultAction, "            ");
    Assoc(base, t, DefaultLine(r.defaultAction, "            "));
    t := t + DefaultLine(r.defaultAction, "            ");
    b.WriteString("        }\n    }\n");
    Assoc(base, t, "        }\n    }\n");
  }

  method WriteConditions(b: Builder, cs: seq<RuleCondition>, indent: string)
    modifies b
    ensures b.text == old(b.text) + ConditionsText(cs, indent)
    decreases cs, 0
  {
    hide ConditionText;
    for i := 0 to |cs|
      invariant b.text + ConditionsText(cs[i..], indent) == old(b.text) + ConditionsText(cs, indent)
    {
      ghost var before := b.text;
      assert cs[i] in cs;
      RenderRuleCondition(b, cs[i], indent);
      assert cs[i..][1..] == cs[i + 1..];
      Assoc(before, ConditionText(cs[i], indent), ConditionsText(cs[i + 1..], indent));
    }
    assert b.text + "" == b.text;
  }

  /** renderRuleCondition: a condition, its nested conditions and its else part, in the builder. */
  method RenderRuleCondition(b: Builder, rc: RuleCondition, indent: string)
    modifies b
    ensures b.text == old(b.text) + ConditionText(rc, indent)
    decreases rc, 1
  {
    hide ActionLines, ConditionsText, DefaultLine, RenderCondValue, ElseText;
    ghost var base := b.text;
    var cond := rc.attribute + " " + rc.operator + " " + RenderCondValue(rc.operator, rc.value);
    b.WriteString(indent + "if (" + cond + ") {\n");
    ghost var t := HeadText(rc, indent);
    hide HeadText;
    WriteActions(b, rc.actions, indent + "    ");
    Assoc(base, t, ActionLines(rc.actions, indent + "    "));
    t := t + ActionLines(rc.actions, indent + "    ");
    WriteConditions(b, rc.children, indent + "    ");
    Assoc(base, t, ConditionsText(rc.children, indent + "    "));
    t := t + ConditionsText(rc.children, indent + "    ");
    WriteDefault(b, rc.defaultAction, indent + "    ");
    Assoc(base, t, DefaultLine(rc.defaultAction, indent + "    "));
    t := t + DefaultLine(rc.defaultAction, indent + "    ");
    WriteElse(b, rc, indent);
    Assoc(base, t, ElseText(rc, indent));
    t := t + ElseText(rc, indent);
    b.WriteString(indent + "}\n");
    Assoc(base, t, indent + "}\n");
  }

  /** The else part of renderRuleCondition. */
  method WriteElse(b: Builder, rc: RuleCondition, indent: string)
    modifies b
    ensures b.text == old(b.text) + ElseText(rc, indent)
  {
    hide ActionLines, DefaultLine;
    ghost var base := b.text;
    if |rc.elseActions| > 0 || rc.elseAction != "" {
      b.WriteString(indent + "} else {\n");
      ghost var t := indent + "} else {\n";
      WriteActions(b, rc.elseActions, indent + "    ");
      Assoc(base, t, ActionLines(rc.elseActions, indent + "    "));
      t := t + ActionLines(rc.elseActions, indent + "    ");
      WriteDefault(b, rc.elseAction, indent + "    ");
      Assoc(base, t, DefaultLine(rc.elseAction, indent + "    "));
    } else {
      assert base + "" == base;
    }
  }

  // ---------------------------------------------------------------- reading back

  /** ruleConditionFromNode */
  function ConditionOf(n: Node): RuleCondition
    requires n.If?
    decreases n, 1
  {
    var (actions, default) := SplitDefault(PlainTexts(n.children));
    var (elseActions, elseAction) := SplitDefault(AllTexts(n.elseNodes));
    RuleCondition(n.cond.attr, n.cond.op, CondValue(n.cond), actions, ConditionsOf(n.children), elseActions, elseAction,
                  default)
  }

  function ConditionsOf(ns: seq<Node>): seq<RuleCondition>
    decreases ns, 0
  {
    if ns == [] then [] else (if ns[0].If? then [ConditionOf(ns[0])] else []) + ConditionsOf(ns[1..])
  }

  function RuleOf(n: Node): Rule
    requires n.Block?
  {
    var enabled := AssignValue(n.children, "enabled") != "no";
    match FindBlock(n.children, "script")
    case None => Rule(enabled, [], "")
    case Some(script) => Rule(enabled, ConditionsOf(script.children), LastTerminal(script.children, ""))
  }

  function RulesOf(ns: seq<Node>): seq<Rule> {
    if ns == [] then []
    else (if ns[0].Block? && ns[0].name == "rule" then [RuleOf(ns[0])] else []) + RulesOf(ns[1..])
  }

  function RulesOfFile(ns: seq<Node>): seq<Rule> {
    match FindBlock(ns, "ruleset")
    case None => []
    case Some(rs) => RulesOf(rs.children)
  }

  /** What ParseRuleset yields for a file. */
  function RulesetOf(src: string): Result<seq<Rule>> {
    match Tree(src)
    case Bad(e) => Bad(e)
    case Good(ns) => Good(RulesOfFile(ns))
  }

  /** ParseRuleset */
  method ParseRuleset(src: string) returns (r: Result<seq<Rule>>)
    ensures r == RulesetOf(src)
  {
    var tree, _ := Parse(src);
    if tree.Bad? {
      return Bad(tree.error);
    }
    var rules := [];
    var rs := SearchBlock(tree.value, "ruleset");
    if rs.None? {
      return Good(rules);
    }
    var ns := rs.value.children;
    for i := 0 to |ns|
      invariant rules + RulesOf(ns[i..]) == RulesOf(ns)
    {
      assert ns[i..][1..] == ns[i + 1..];
      ghost var more := RulesOf(ns[i + 1..]);
      if ns[i].Block? && ns[i].name == "rule" {
        var rule := RuleFromNode(ns[i]);
        Assoc(rules, [rule], more);
        rules := rules + [rule];
      } else {
        assert [] + more == more;
      }
    }
    assert rules + [] == rules;
    return Good(rules);
  }

  /** One round of ParseRuleset's loop: a rule block. */
  method RuleFromNode(n: Node) returns (r: Rule)
    requires n.Block?
    ensures r == RuleOf(n)
  {
    var enabled := SearchAssign(n.children, "enabled");
    r := Rule(enabled != "no", [], "");
    var script := SearchBlock(n.children, "script");
    if script.Some? {
      var ns := script.value.children;
      var matches := [];
      var default := "";
      for i := 0 to |ns|
        invariant matches + ConditionsOf(ns[i..]) == ConditionsOf(ns)
        invariant LastTerminal(ns[i..], default) == LastTerminal(ns, "")
      {
        assert ns[i..][1..] == ns[i + 1..];
        ghost var more := ConditionsOf(ns[i + 1..]);
        var st := ns[i];
        if st.If? {
          var c := RuleConditionFromNode(st);
          Assoc(matches, [c], more);
          matches := matches + [c];
        } else {
          assert [] + more == more;
          if (st.Action? || st.Assign?) && IsTerminalAction(st.ActionText()) {
            default := st.ActionText();
          }
        }
      }
      assert matches + [] == matches;
      r := Rule(enabled != "no", matches, default);
    }
  }

  /** ruleConditionFromNode */
  method RuleConditionFromNode(n: Node) returns (rc: RuleCondition)
    requires n.If?
    ensures rc == ConditionOf(n)
    decreases n
  {
    hide PlainTexts, AllTexts, SplitDefault, CondValue;
    var children, texts := ConditionsFromNodes(n.children);
    var (actions, default) := SplitDefault(texts);
    var elseTexts := TextsFromNodes(n.elseNodes);
    var (elseActions, elseAction) := SplitDefault(elseTexts);
    rc := RuleCondition(n.cond.attr, n.cond.op, CondValue(n.cond), actions, children, elseActions, elseAction, default);
  }

  /** The first loop of ruleConditionFromNode: nested conditions apart from actions. */
  method ConditionsFromNodes(ns: seq<Node>) returns (children: seq<RuleCondition>, texts: seq<string>)
    ensures children == ConditionsOf(ns) && texts == PlainTexts(ns)
    decreases ns
  {
    hide ConditionOf;
    children, texts := [], [];
    for i := 0 to |ns|
      invariant children + ConditionsOf(ns[i..]) == ConditionsOf(ns)
      invariant texts + PlainTexts(ns[i..]) == PlainTexts(ns)
    {
      assert ns[i..][1..] == ns[i + 1..];
      ghost var more, moreTexts := ConditionsOf(ns[i + 1..]), PlainTexts(ns[i + 1..]);
      var st := ns[i];
      if st.If? {
        var c := RuleConditionFromNode(st);
        Assoc(children, [c], more);
        assert [] + moreTexts == moreTexts;
        children := children + [c];
      } else {
        Assoc(texts, [st.ActionText()], moreTexts);
        assert [] + more == more;
        texts := texts + [st.ActionText()];
      }
    }
    assert children + [] == children && texts + [] == texts;
  }
}
