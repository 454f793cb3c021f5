/** 07-profiles.cfg: rendering authorization profiles to text and reading them back. */
module Profiles {
  import opened Text
  import opened Lexer
  import opened Parser
  import opened Layout
  import opened Canonical
  import opened Model
  import opened Rendering
  import opened Mapping

  // ---------------------------------------------------------------- rendering

  function RuleHead(c: ConditionRule, indent: string): string {
    indent + "if (" + (c.attribute + " " + c.operator + " " + RenderCondValue(c.operator, c.value)) + ")"
  }

  function ConditionRuleText(c: ConditionRule, indent: string): string {
    if c.isInline then RuleHead(c, indent) + " " + c.inlineAction + "\n"
    else
      RuleHead(c, indent) + " {\n" + ActionLines(c.actions, indent + "    ") +
        DefaultLine(c.defaultAction, indent + "    ") + (indent + "}\n")
  }

  function ConditionRulesText(cs: seq<ConditionRule>, indent: string): string {
    if cs == [] then "" else ConditionRuleText(cs[0], indent) + ConditionRulesText(cs[1..], indent)
  }

  function ServiceHead(svc: ServiceRule): string {
    "        if (service == " + svc.service + ") {\n"
  }

  function ServiceText(svc: ServiceRule): string {
    ServiceHead(svc) + ActionLines(svc.actions, "            ") + ConditionRulesText(svc.conditions, "            ") +
    DefaultLine(svc.defaultAction, "            ") + "        }\n"
  }

  function ServicesText(svcs: seq<ServiceRule>): string {
    if svcs == [] then "" else ServiceText(svcs[0]) + ServicesText(svcs[1..])
  }

  function ProfileHead(p: Profile): string {
    "profile " + p.name + " {\n    script {\n"
  }

  function ProfileText(p: Profile): string {
    ProfileHead(p) + ServicesText(p.services) + DefaultLine(p.defaultAction, "        ") + "    }\n}\n\n"
  }

  function ProfileTexts(ps: seq<Profile>): string {
    if ps == [] then "" else ProfileText(ps[0]) + ProfileTexts(ps[1..])
  }

  function ProfilesBanner(): string {
    Banner("07-profiles.cfg", "Authorization profiles")
  }

  function ProfilesText(ps: seq<Profile>): string {
    ProfilesBanner() + ProfileTexts(ps)
  }

  /** RenderProfiles */
  method RenderProfiles(ps: seq<Profile>) returns (text: string)
    ensures text == ProfilesText(ps)
  {
    hide ProfileText, ProfilesBanner;
    var b := new Builder();
    b.WriteString(ProfilesBanner());
    assert b.text == ProfilesBanner();
    for i := 0 to |ps|
      invariant b.text + ProfileTexts(ps[i..]) == ProfilesBanner() + ProfileTexts(ps)
    {
      ghost var before := b.text;
      WriteProfile(b, ps[i]);
      assert ps[i..][1..] == ps[i + 1..];
      Assoc(before, ProfileText(ps[i]), ProfileTexts(ps[i + 1..]));
    }
    assert b.text + "" == b.text;
    text := b.text;
  }

  /** One round of the loop over profiles. */
  method WriteProfile(b: Builder, p: Profile)
    modifies b
    ensures b.text == old(b.text) + ProfileText(p)
  {
    hide ServicesText, DefaultLine, ServiceText;
    ghost var base := b.text;
    b.WriteString("profile " + p.name + " {\n    script {\n");
    ghost var t := ProfileHead(p);
    hide ProfileHead;
    for i := 0 to |p.services|
      invariant b.text + ServicesText(p.services[i..]) == (base + t) + ServicesText(p.services)
    {
      ghost var before := b.text;
      WriteService(b, p.services[i]);
      ServicesFrom(p.services, i);
      Assoc(before, ServiceText(p.services[i]), ServicesText(p.services[i + 1..]));
    }
    NoServices(p.services);
    assert b.text + "" == b.text;
    Assoc(base, t, ServicesText(p.services));
    t := t + ServicesText(p.services);
    WriteDefault(b, p.defaultAction, "        ");
    Assoc(base, t, DefaultLine(p.defaultAction, "        "));
    t := t + DefaultLine(p.defaultAction, "        ");
    b.WriteString("    }\n}\n\n");
    Assoc(base, t, "    }\n}\n\n");
  }

  lemma ServicesFrom(svcs: seq<ServiceRule>, i: nat)
    requires i < |svcs|
    ensures ServicesText(svcs[i..]) == ServiceText(svcs[i]) + ServicesText(svcs[i + 1..])
  {
    assert svcs[i..][1..] == svcs[i + 1..];
  }

  lemma NoServices(svcs: seq<ServiceRule>)
    ensures ServicesText(svcs[|svcs|..]) == ""
  {}

  /** One round of the loop over services. */
  method WriteService(b: Builder, svc: ServiceRule)
    modifies b
    ensures b.text == old(b.text) + ServiceText(svc)
  {
    hide ActionLines, ConditionRulesText, DefaultLine;
    ghost var base := b.text;
    b.WriteString("        if (service == " + svc.service + ") {\n");
    ghost var t := ServiceHead(svc);
    hide ServiceHead;
    WriteActions(b, svc.actions, "            ");
    Assoc(base, t, ActionLines(svc.actions, "            "));
    t := t + ActionLines(svc.actions, "            ");
    WriteConditionRules(b, svc.conditions, "            ");
    Assoc(base, t, ConditionRulesText(svc.conditions, "            "));
    t := t + ConditionRulesText(svc.conditions, "            ");
    WriteDefault(b, svc.defaultAction, "            ");
    Assoc(base, t, DefaultLine(svc.defaultAction, "            "));
    t := t + DefaultLine(svc.defaultAction, "            ");
    b.WriteString("        }\n");
    Assoc(base, t, "        }\n");
  }

  method WriteConditionRules(b: Builder, cs: seq<ConditionRule>, indent: string)
    modifies b
    ensures b.text == old(b.text) + ConditionRulesText(cs, indent)
  {
    hide ConditionRuleText;
    for i := 0 to |cs|
      invariant b.text + ConditionRulesText(cs[i..], indent) == old(b.text) + ConditionRulesText(cs, indent)
    {
      ghost var before := b.text;
      RenderCondition(b, cs[i], indent);
      assert cs[i..][1..] == cs[i + 1..];
      Assoc(before, ConditionRuleText(cs[i], indent), ConditionRulesText(cs[i + 1..], indent));
    }
    assert b.text + "" == b.text;
  }

  /** renderCondition: the one-line form for an inline condition, the block form otherwise. */
  method RenderCondition(b: Builder, c: ConditionRule, indent: string)
    modifies b
    ensures b.text == old(b.text) + ConditionRuleText(c, indent)
  {
    hide ActionLines, DefaultLine, RenderCondValue;
    ghost var base := b.text;
    var cond := c.attribute + " " + c.operator + " " + RenderCondValue(c.operator, c.value);
    if c.isInline {
      b.WriteString(indent + "if (" + cond + ")" + " " + c.inlineAction + "\n");
      return;
    }
    b.WriteString(indent + "if (" + cond + ")" + " {\n");
    ghost var t := RuleHead(c, indent) + " {\n";
    WriteActions(b, c.actions, indent + "    ");
    Assoc(base, t, ActionLines(c.actions, indent + "    "));
    t := t + ActionLines(c.actions, indent + "    ");
    WriteDefault(b, c.defaultAction, indent + "    ");
    Assoc(base, t, DefaultLine(c.defaultAction, indent + "    "));
    t := t + DefaultLine(c.defaultAction, indent + "    ");
    b.WriteString(indent + "}\n");
    Assoc(base, t, indent + "}\n");
  }

  // ---------------------------------------------------------------- reading back

  /** conditionFromNode */
  function ConditionRuleOf(n: Node): ConditionRule
    requires n.If?
  {
    if n.inline then
      ConditionRule(n.cond.attr, n.cond.op, CondValue(n.cond), [], true,
                    if |n.children| == 1 then n.children[0].ActionText() else "", "")
    else
      var (actions, default) := SplitDefault(AllTexts(n.children));
      ConditionRule(n.cond.attr, n.cond.op, CondValue(n.cond), actions, false, "", default)
  }

  function ConditionRulesOf(ns: seq<Node>): seq<ConditionRule> {
    if ns == [] then [] else (if ns[0].If? then [ConditionRuleOf(ns[0])] else []) + ConditionRulesOf(ns[1..])
  }

  /** serviceFromNode */
  function ServiceOf(n: Node): ServiceRule
    requires n.If?
  {
    var (actions, default) := SplitDefault(PlainTexts(n.children));
    ServiceRule(n.cond.value, actions, ConditionRulesOf(n.children), default)
  }

  predicate IsService(n: Node) {
    n.If? && n.cond.attr == "service"
  }

  function ServicesOf(ns: seq<Node>): seq<ServiceRule> {
    if ns == [] then [] else (if IsService(ns[0]) then [ServiceOf(ns[0])] else []) + ServicesOf(ns[1..])
  }

  function ProfileOf(n: Node): Profile
    requires n.Block?
  {
    match FindBlock(n.children, "script")
    case None => Profile(n.tag, [], "")
    case Some(script) => Profile(n.tag, ServicesOf(script.children), LastTerminal(script.children, ""))
  }

  function ProfilesIn(ns: seq<Node>): seq<Profile> {
    if ns == [] then []
    else (if ns[0].Block? && ns[0].name == "profile" then [ProfileOf(ns[0])] else []) + ProfilesIn(ns[1..])
  }

  /** What ParseProfiles yields for a file. */
  function ProfilesOf(src: string): Result<seq<Profile>> {
    match Tree(src)
    case Bad(e) => Bad(e)
    case Good(ns) => Good(ProfilesIn(ns))
  }

  /** ParseProfiles */
  method ParseProfiles(src: string) returns (r: Result<seq<Profile>>)
    ensures r == ProfilesOf(src)
  {
    hide ProfileOf;
    var tree, _ := Parse(src);
    if tree.Bad? {
      return Bad(tree.error);
    }
    var ns := tree.value;
    var profiles := [];
    for i := 0 to |ns|
      invariant profiles + ProfilesIn(ns[i..]) == ProfilesIn(ns)
    {
      assert ns[i..][1..] == ns[i + 1..];
      ghost var more := ProfilesIn(ns[i + 1..]);
      if ns[i].Block? && ns[i].name == "profile" {
        var p := ProfileFromNode(ns[i]);
        Assoc(profiles, [p], more);
        profiles := profiles + [p];
      } else {
        assert [] + more == more;
      }
    }
    assert profiles + [] == profiles;
    return Good(profiles);
  }

  /** One round of ParseProfiles' loop. */
  method ProfileFromNode(n: Node) returns (p: Profile)
    requires n.Block?
    ensures p == ProfileOf(n)
  {
    hide ServiceOf;
    p := Profile(n.tag, [], "");
    var script := SearchBlock(n.children, "script");
    if script.None? {
      return;
    }
    var ns := script.value.children;
    var services, default := [], "";
    for i := 0 to |ns|
      invariant services + ServicesOf(ns[i..]) == ServicesOf(ns)
      invariant LastTerminal(ns[i..], default) == LastTerminal(ns, "")
    {
      assert ns[i..][1..] == ns[i + 1..];
      ghost var more := ServicesOf(ns[i + 1..]);
      var st := ns[i];
      if st.If? && st.cond.attr == "service" {
        var svc := ServiceFromNode(st);
        Assoc(services, [svc], more);
        services := services + [svc];
      } else {
        assert [] + more == more;
        if (st.Action? || st.Assign?) && IsTerminalAction(st.ActionText()) {
          default := st.ActionText();
        }
      }
    }
    assert services + [] == services;
    p := Profile(n.tag, services, default);
  }

  /** serviceFromNode */
  method ServiceFromNode(n: Node) returns (svc: ServiceRule)
    requires n.If?
    ensures svc == ServiceOf(n)
  {
    hide ConditionRuleOf, SplitDefault;
    var ns := n.children;
    var texts, conditions := [], [];
    for i := 0 to |ns|
      invariant conditions + ConditionRulesOf(ns[i..]) == ConditionRulesOf(ns)
      invariant texts + PlainTexts(ns[i..]) == PlainTexts(ns)
    {
      assert ns[i..][1..] == ns[i + 1..];
      ghost var more, moreTexts := ConditionRulesOf(ns[i + 1..]), PlainTexts(ns[i + 1..]);
      var st := ns[i];
      if st.If? {
        var c := ConditionFromNode(st);
        Assoc(conditions, [c], more);
        assert [] + moreTexts == moreTexts;
        conditions := conditions + [c];
      } else {
        Assoc(texts, [st.ActionText()], moreTexts);
        assert [] + more == more;
        texts := texts + [st.ActionText()];
      }
    }
    assert conditions + [] == conditions && texts + [] == texts;
    var (actions, default) := SplitDefault(texts);
    svc := ServiceRule(n.cond.value, actions, conditions, default);
  }

  /** conditionFromNode */
  method ConditionFromNode(n: Node) returns (c: ConditionRule)
    requires n.If?
    ensures c == ConditionRuleOf(n)
  {
    hide AllTexts, SplitDefault, CondValue;
    if n.inline {
      var action := "";
      if |n.children| == 1 {
        action := n.children[0].ActionText();
      }
      return ConditionRule(n.cond.attr, n.cond.op, CondValue(n.cond), [], true, action, "");
    }
    var texts := TextsFromNodes(n.children);
    var (actions, default) := SplitDefault(texts);
    c := ConditionRule(n.cond.attr, n.cond.op, CondValue(n.cond), actions, false, "", default);
  }
}
