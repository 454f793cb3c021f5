/** Every well-formed profile list survives rendering and parsing unchanged. */
module ProfilesRoundTrip {
  import opened Text
  import opened Lexer
  import opened Parser
  import opened Layout
  import opened LayoutParsing
  import opened Canonical
  import opened Model
  import opened Rendering
  import opened Mapping
  import opened Profiles

  predicate InlineActionOk(a: string) {
    a == "" || Words(a).Some?
  }

  /** The inline form carries one action and nothing else; the block form has no inline action. */
  predicate ConditionRuleOk(c: ConditionRule) {
    BareOk(c.attribute) && BareOk(c.operator) && ValueOk(c.operator, c.value) &&
    if c.isInline then c.actions == [] && c.defaultAction == "" && InlineActionOk(c.inlineAction)
    else c.inlineAction == "" && ActionsOk(c.actions) && DefaultOk(c.actions, c.defaultAction)
  }

  predicate ConditionRulesOk(cs: seq<ConditionRule>) {
    forall i :: 0 <= i < |cs| ==> ConditionRuleOk(cs[i])
  }

  /** The service name prints bare, as a regular expression does. */
  predicate ServiceOk(svc: ServiceRule) {
    ValueOk("=~", svc.service) && ActionsOk(svc.actions) && DefaultOk(svc.actions, svc.defaultAction) &&
    ConditionRulesOk(svc.conditions)
  }

  predicate ServicesOk(svcs: seq<ServiceRule>) {
    forall i :: 0 <= i < |svcs| ==> ServiceOk(svcs[i])
  }

  predicate ProfileOk(p: Profile) {
    BareOk(p.name) && ServicesOk(p.services) && (p.defaultAction == "" || IsTerminalAction(p.defaultAction))
  }

  predicate ProfilesOk(ps: seq<Profile>) {
    forall i :: 0 <= i < |ps| ==> ProfileOk(ps[i])
  }

  // ---------------------------------------------------------------- conditions

  function InlineWords(a: string): seq<Lexeme> {
    if a == "" then [] else Words(a).GetOr([])
  }

  function RuleBody(c: ConditionRule, indent: nat): seq<Item> {
    ActionItems(c.actions, indent) + DefaultItems(c.defaultAction, indent)
  }

  function RuleItem(c: ConditionRule, indent: nat): Item
    requires ValueOk(c.operator, c.value)
  {
    var v := ValueWords(c.operator, c.value);
    if c.isInline then Inline(indent, c.attribute, c.operator, v, InlineWords(c.inlineAction))
    else Branch(indent, c.attribute, c.operator, v, RuleBody(c, indent + 4), [])
  }

  function RuleItems(cs: seq<ConditionRule>, indent: nat): seq<Item>
    requires ConditionRulesOk(cs)
  {
    if cs == [] then [] else [RuleItem(cs[0], indent)] + RuleItems(cs[1..], indent)
  }

  lemma InlineWordsOk(a: string)
    requires InlineActionOk(a)
    ensures LexemesOk(InlineWords(a)) && Join(Sources(InlineWords(a)), " ") == a
    ensures PrintRow(Spaced(0, InlineWords(a))) == a
  {
    if a == "" {
      assert Sources([]) == [];
    } else {
      hide Words;
      WordsSound(a);
      PrintSpaced(0, InlineWords(a));
    }
  }

  lemma RuleBodyOk(c: ConditionRule, indent: nat, line: nat)
    requires ActionsOk(c.actions) && DefaultOk(c.actions, c.defaultAction)
    ensures ItemsOk(RuleBody(c, indent))
    ensures PrintAll(RuleBody(c, indent)) ==
            ActionLines(c.actions, Spaces(indent)) + DefaultLine(c.defaultAction, Spaces(indent))
    ensures SplitDefault(AllTexts(AllNodes(RuleBody(c, indent), line))) == (c.actions, c.defaultAction)
  {
    hide *;
    var a, d := ActionItems(c.actions, indent), DefaultItems(c.defaultAction, indent);
    DefaultKind(c.actions, c.defaultAction);
    RuleBodyIs(c, indent);
    ActionItemsOk(c.actions, indent);
    DefaultItemsOk(c.defaultAction, indent);
    ItemsOkAppend(a, d);
    PrintAllAppend(a, d);
    RuleBodyMaps(c, indent, line);
  }

  lemma RuleBodyIs(c: ConditionRule, indent: nat)
    ensures RuleBody(c, indent) == ActionItems(c.actions, indent) + DefaultItems(c.defaultAction, indent)
  {}

  lemma RuleBodyMaps(c: ConditionRule, indent: nat, line: nat)
    requires ActionsOk(c.actions) && DefaultOk(c.actions, c.defaultAction)
    ensures SplitDefault(AllTexts(AllNodes(RuleBody(c, indent), line))) == (c.actions, c.defaultAction)
  {
    hide *;
    var a, d := ActionItems(c.actions, indent), DefaultItems(c.defaultAction, indent);
    DefaultKind(c.actions, c.defaultAction);
    RuleBodyIs(c, indent);
    ActionItemsTexts(c.actions, indent, line);
    DefaultItemsTexts(c.defaultAction, indent, line + LinesAll(a));
    AllNodesAppend(a, d, line);
    PlainMaps(AllNodes(a, line), AllNodes(d, line + LinesAll(a)));
    SplitDefaultOf(c.actions, c.defaultAction);
  }

  lemma DefaultKind(actions: seq<string>, default: string)
    requires DefaultOk(actions, default)
    ensures default == "" || IsTerminalAction(default)
  {}

  lemma InlineRule(c: ConditionRule, indent: nat, line: nat)
    requires ConditionRuleOk(c) && c.isInline
    ensures ItemOk(RuleItem(c, indent)) && Print(RuleItem(c, indent)) == ConditionRuleText(c, Spaces(indent))
    ensures var ns := Nodes(RuleItem(c, indent), line); |ns| == 1 && ns[0].If? && ConditionRuleOf(ns[0]) == c
  {
    var v := ValueWords(c.operator, c.value);
    CondValueOf(c.attribute, c.operator, c.value);
    InlineWordsOk(c.inlineAction);
    hide ValueOk, ValueWords, InlineWords, LexemesOk, BareOk, RenderCondValue, PrintRow, Spaced, Spaces, CondValue,
      Sources;
    HeadGlue(c, Spaces(indent), PrintRow(Spaced(0, v)));
    assert Print(RuleItem(c, indent)) ==
      Spaces(indent) + (Condition(c.attribute, c.operator, v) + (" " + (c.inlineAction + "\n")));
    InlineGlue(RuleHead(c, Spaces(indent)), Spaces(indent), Condition(c.attribute, c.operator, v), c.inlineAction);
  }

  lemma InlineGlue(head: string, s: string, cond: string, action: string)
    requires head == s + cond
    ensures s + (cond + (" " + (action + "\n"))) == head + " " + action + "\n"
  {}

  lemma HeadGlue(c: ConditionRule, s: string, v: string)
    requires v == RenderCondValue(c.operator, c.value)
    ensures RuleHead(c, s) == s + ("if (" + (c.attribute + (" " + (c.operator + (" " + (v + ")"))))))
  {
    hide RenderCondValue;
    var r := c.attribute + " " + c.operator + " " + v;
    assert r + ")" == c.attribute + (" " + (c.operator + (" " + (v + ")"))));
    assert s + "if (" + r + ")" == s + ("if (" + (r + ")"));
  }

  lemma BlockRule(c: ConditionRule, indent: nat, line: nat)
    requires ConditionRuleOk(c) && !c.isInline
    ensures ItemOk(RuleItem(c, indent)) && Print(RuleItem(c, indent)) == ConditionRuleText(c, Spaces(indent))
    ensures var ns := Nodes(RuleItem(c, indent), line); |ns| == 1 && ns[0].If? && ConditionRuleOf(ns[0]) == c
  {
    var v := ValueWords(c.operator, c.value);
    var body := RuleBody(c, indent + 4);
    CondValueOf(c.attribute, c.operator, c.value);
    RuleBodyOk(c, indent + 4, line + 1);
    SpacesPlus(indent);
    hide ValueOk, ValueWords, LexemesOk, BareOk, RenderCondValue, PrintRow, Spaced, Spaces, CondValue,
         RuleBody, ActionLines, DefaultLine, ItemsOk, PrintAll, AllNodes, AllTexts, SplitDefault, ActionsOk, DefaultOk;
    HeadGlue(c, Spaces(indent), PrintRow(Spaced(0, v)));
    BlockRuleOk(c, indent, v, body);
    var s4 := Spaces(indent + 4);
    BlockGlue(RuleHead(c, Spaces(indent)), Spaces(indent), Condition(c.attribute, c.operator, v),
              ActionLines(c.actions, s4), DefaultLine(c.defaultAction, s4));
  }

  lemma BlockRuleOk(c: ConditionRule, indent: nat, v: seq<Lexeme>, body: seq<Item>)
    requires BareOk(c.attribute) && BareOk(c.operator) && LexemesOk(v) && ItemsOk(body)
    ensures var it := Branch(indent, c.attribute, c.operator, v, body, []);
      ItemOk(it)
      && Print(it) ==
         Spaces(indent) + (Condition(c.attribute, c.operator, v) +
         (" {\n" + (PrintAll(body) + (Spaces(indent) + "}\n"))))
  {
    hide BareOk, LexemesOk, Condition;
  }

  lemma BlockGlue(head: string, s: string, cond: string, a: string, d: string)
    requires head == s + cond
    ensures s + (cond + (" {\n" + ((a + d) + (s + "}\n")))) == head + " {\n" + a + d + (s + "}\n")
  {
    var o, z := " {\n", s + "}\n";
    Assoc(s, cond, o + ((a + d) + z));
    assert (s + cond) + (o + ((a + d) + z)) == (s + cond) + o + (a + d) + z;
    assert (s + cond) + o + (a + d) == (s + cond) + o + a + d;
  }

  lemma RuleItemOk(c: ConditionRule, indent: nat, line: nat)
    requires ConditionRuleOk(c)
    ensures ItemOk(RuleItem(c, indent)) && Print(RuleItem(c, indent)) == ConditionRuleText(c, Spaces(indent))
    ensures var ns := Nodes(RuleItem(c, indent), line); |ns| == 1 && ns[0].If? && ConditionRuleOf(ns[0]) == c
  {
    hide *;
    RuleValue(c);
    if c.isInline {
      InlineRule(c, indent, line);
    } else {
      BlockRule(c, indent, line);
    }
  }

  lemma RuleValue(c: ConditionRule)
    requires ConditionRuleOk(c)
    ensures ValueOk(c.operator, c.value)
  {}

  lemma OneRule(n: Node, more: seq<Node>)
    requires n.If? && AllIfs(more)
    ensures ConditionRulesOf([n] + more) == [ConditionRuleOf(n)] + ConditionRulesOf(more)
    ensures PlainTexts([n] + more) == PlainTexts(more) && AllIfs([n] + more)
  {
    hide ConditionRuleOf;
    assert ([n] + more)[1..] == more;
  }

  lemma RulesSplit(cs: seq<ConditionRule>, indent: nat)
    requires cs != [] && ConditionRulesOk(cs)
    ensures ConditionRuleOk(cs[0]) && ValueOk(cs[0].operator, cs[0].value) && ConditionRulesOk(cs[1..])
    ensures [cs[0]] + cs[1..] == cs
    ensures RuleItems(cs, indent) == [RuleItem(cs[0], indent)] + RuleItems(cs[1..], indent)
    ensures !OpensWithElse(RuleItems(cs, indent))
    ensures ConditionRulesText(cs, Spaces(indent)) ==
            ConditionRuleText(cs[0], Spaces(indent)) + ConditionRulesText(cs[1..], Spaces(indent))
  {
    hide ConditionRuleText, ValueOk, ValueWords;
  }

  lemma NoRules(indent: nat, line: nat)
    ensures ItemsOk(RuleItems([], indent)) && !OpensWithElse(RuleItems([], indent))
    ensures PrintAll(RuleItems([], indent)) == ConditionRulesText([], Spaces(indent))
    ensures var ns := AllNodes(RuleItems([], indent), line);
      ConditionRulesOf(ns) == [] && PlainTexts(ns) == [] && AllIfs(ns)
  {}

  lemma {:induction false} RulesOk(cs: seq<ConditionRule>, indent: nat, line: nat)
    requires ConditionRulesOk(cs)
    ensures ItemsOk(RuleItems(cs, indent)) && !OpensWithElse(RuleItems(cs, indent))
    ensures PrintAll(RuleItems(cs, indent)) == ConditionRulesText(cs, Spaces(indent))
    ensures var ns := AllNodes(RuleItems(cs, indent), line);
      ConditionRulesOf(ns) == cs && PlainTexts(ns) == [] && AllIfs(ns)
  {
    hide *;
    if cs == [] {
      NoRules(indent, line);
    } else {
      RulesSplit(cs, indent);
      var it, items := RuleItem(cs[0], indent), RuleItems(cs[1..], indent);
      var next := line + Lines(it);
      RuleItemOk(cs[0], indent, line);
      RulesOk(cs[1..], indent, next);
      ConsItems(it, items, line);
      assert Nodes(it, line) == [Nodes(it, line)[0]];
      OneRule(Nodes(it, line)[0], AllNodes(items, next));
    }
  }

  // ---------------------------------------------------------------- services

  function ServiceBody(svc: ServiceRule): seq<Item>
    requires ConditionRulesOk(svc.conditions)
  {
    ActionItems(svc.actions, 12) + (RuleItems(svc.conditions, 12) + DefaultItems(svc.defaultAction, 12))
  }

  function ServiceItem(svc: ServiceRule): Item
    requires ServiceOk(svc)
  {
    Branch(8, "service", "==", ValueWords("=~", svc.service), ServiceBody(svc), [])
  }

  lemma {:induction false} RulesAppend(a: seq<Node>, b: seq<Node>)
    ensures ConditionRulesOf(a + b) == ConditionRulesOf(a) + ConditionRulesOf(b)
  {
    if a == [] {
      assert a + b == b;
    } else {
      hide ConditionRuleOf;
      RulesAppend(a[1..], b);
      assert (a + b)[1..] == a[1..] + b;
      Assoc(if a[0].If? then [ConditionRuleOf(a[0])] else [], ConditionRulesOf(a[1..]), ConditionRulesOf(b));
    }
  }

  lemma {:induction false} NoRulesIn(ns: seq<Node>)
    requires NoIfs(ns)
    ensures ConditionRulesOf(ns) == []
  {
    if ns != [] {
      NoRulesIn(ns[1..]);
    }
  }

  lemma BodyMaps(na: seq<Node>, nc: seq<Node>, nd: seq<Node>)
    requires NoIfs(na) && NoIfs(nd) && PlainTexts(nc) == []
    ensures ConditionRulesOf(na + (nc + nd)) == ConditionRulesOf(nc)
    ensures PlainTexts(na + (nc + nd)) == PlainTexts(na) + PlainTexts(nd)
  {
    hide *;
    NoRulesIn(na);
    NoRulesIn(nd);
    RulesAppend(nc, nd);
    RulesAppend(na, nc + nd);
    PlainTextsAppend(nc, nd);
    PlainTextsAppend(na, nc + nd);
  }

  lemma ServiceBodyOk(svc: ServiceRule, line: nat)
    requires ServiceOk(svc)
    ensures ItemsOk(ServiceBody(svc))
    ensures PrintAll(ServiceBody(svc)) == ActionLines(svc.actions, Spaces(12)) +
      (ConditionRulesText(svc.conditions, Spaces(12)) + DefaultLine(svc.defaultAction, Spaces(12)))
    ensures var ns := AllNodes(ServiceBody(svc), line);
      ConditionRulesOf(ns) == svc.conditions && SplitDefault(PlainTexts(ns)) == (svc.actions, svc.defaultAction)
  {
    hide *;
    ServiceParts(svc);
    var a, c, d := ActionItems(svc.actions, 12), RuleItems(svc.conditions, 12), DefaultItems(svc.defaultAction, 12);
    var lc := line + LinesAll(a);
    var ld := lc + LinesAll(c);
    ActionItemsOk(svc.actions, 12);
    RulesOk(svc.conditions, 12, lc);
    DefaultItemsOk(svc.defaultAction, 12);
    ItemsOkAppend(c, d);
    OpensAppend(c, d);
    ItemsOkAppend(a, c + d);
    PrintAllAppend(c, d);
    PrintAllAppend(a, c + d);
    ActionItemsTexts(svc.actions, 12, line);
    DefaultItemsTexts(svc.defaultAction, 12, ld);
    ThreeParts(a, c, d, line);
    BodyMaps(AllNodes(a, line), AllNodes(c, lc), AllNodes(d, ld));
    SplitDefaultOf(svc.actions, svc.defaultAction);
  }

  lemma ServiceParts(svc: ServiceRule)
    requires ServiceOk(svc)
    ensures ValueOk("=~", svc.service) && ActionsOk(svc.actions) && DefaultOk(svc.actions, svc.defaultAction)
    ensures ConditionRulesOk(svc.conditions) && (svc.defaultAction == "" || IsTerminalAction(svc.defaultAction))
    ensures ServiceBody(svc) ==
            ActionItems(svc.actions, 12) + (RuleItems(svc.conditions, 12) + DefaultItems(svc.defaultAction, 12))
    ensures ServiceItem(svc) == Branch(8, "service", "==", ValueWords("=~", svc.service), ServiceBody(svc), [])
  {}

  lemma ServiceWord()
    ensures BareOk("service") && BareOk("==")
  {}

  /** A value printed bare has no quoted word. */
  lemma BareValue(v: string)
    requires ValueOk("=~", v)
    ensures CondOf("service", "==", ValueWords("=~", v)) == Cond("service", "==", v, false)
    ensures PrintRow(Spaced(0, ValueWords("=~", v))) == v && LexemesOk(ValueWords("=~", v))
  {
    CondValueOf("service", "=~", v);
    var xs := ValueWords("=~", v);
    assert !exists i :: 0 <= i < |xs| && xs[i].Quoted? by {
      if v != "" {
        assert forall i :: 0 <= i < |xs| ==> xs[i] in xs;
      }
    }
  }

  lemma ServiceItemOk(svc: ServiceRule, line: nat)
    requires ServiceOk(svc)
    ensures ItemOk(ServiceItem(svc)) && Print(ServiceItem(svc)) == ServiceText(svc)
    ensures var ns := Nodes(ServiceItem(svc), line); |ns| == 1 && IsService(ns[0]) && ServiceOf(ns[0]) == svc
  {
    hide *;
    ServiceParts(svc);
    ServiceWord();
    BareValue(svc.service);
    ServiceBodyOk(svc, line + 1);
    ServiceBranchOk(ValueWords("=~", svc.service), ServiceBody(svc), line);
    IndentTexts();
    ServiceGlue(svc, ValueWords("=~", svc.service));
    ServiceOfNode(svc, Nodes(ServiceItem(svc), line)[0]);
  }

  lemma ServiceBranchOk(v: seq<Lexeme>, body: seq<Item>, line: nat)
    requires LexemesOk(v) && ItemsOk(body) && BareOk("service") && BareOk("==")
    ensures var it := Branch(8, "service", "==", v, body, []);
      && ItemOk(it) && Print(it) ==
        Spaces(8) + (Condition("service", "==", v) + (" {\n" + (PrintAll(body) + (Spaces(8) + "}\n"))))
      && Nodes(it, line) == [If(CondOf("service", "==", v), AllNodes(body, line + 1), [], false, line,
                                line + 1 + LinesAll(body))]
  {
    hide BareOk, LexemesOk, Condition, PrintAll, AllNodes, LinesAll, CondOf, ItemsOk, Spaces;
    NoItems(line + 2 + LinesAll(body));
  }

  lemma NoItems(line: nat)
    ensures ItemsOk([]) && AllNodes([], line) == []
  {}

  lemma ServiceGlue(svc: ServiceRule, v: seq<Lexeme>)
    requires PrintRow(Spaced(0, v)) == svc.service
    ensures "        " + (Condition("service", "==", v) + (" {\n" + ((ActionLines(svc.actions, "            ") +
      (ConditionRulesText(svc.conditions, "            ") + DefaultLine(svc.defaultAction, "            "))) +
        ("        " + "}\n")))) == ServiceText(svc)
  {
    hide ActionLines, ConditionRulesText, DefaultLine, PrintRow, Spaced;
    var x := svc.service;
    assert Condition("service", "==", v) == "if (service == " + (x + ")") by {
      assert "if (" + ("service" + (" " + ("==" + (" " + (x + ")"))))) == "if (service == " + (x + ")");
    }
    var i := "        ";
    assert i + (("if (service == " + (x + ")")) + " {\n") == ServiceHead(svc) by {
      assert ServiceHead(svc) == i + "if (service == " + x + ") {\n";
      assert ")" + " {\n" == ") {\n";
    }
    hide ServiceHead;
    Glue5(i, "if (service == " + (x + ")"), ActionLines(svc.actions, "            "),
          ConditionRulesText(svc.conditions, "            "),
          DefaultLine(svc.defaultAction, "            "), ServiceHead(svc));
    assert i + "}\n" == "        }\n";
  }

  lemma Glue5(i: string, cond: string, a: string, c: string, d: string, head: string)
    requires i + (cond + " {\n") == head
    ensures i + (cond + (" {\n" + ((a + (c + d)) + (i + "}\n")))) == head + a + c + d + (i + "}\n")
  {
    var o, z := " {\n", i + "}\n";
    Assoc(cond, o, (a + (c + d)) + z);
    Assoc(i, cond + o, (a + (c + d)) + z);
    assert head + ((a + (c + d)) + z) == head + a + c + d + z;
  }

  lemma ServiceOfNode(svc: ServiceRule, n: Node)
    requires n.If? && n.cond == Cond("service", "==", svc.service, false)
    requires ConditionRulesOf(n.children) == svc.conditions
    requires SplitDefault(PlainTexts(n.children)) == (svc.actions, svc.defaultAction)
    ensures IsService(n) && ServiceOf(n) == svc
  {
    hide ConditionRulesOf, SplitDefault, PlainTexts;
  }

  function ServiceItems(svcs: seq<ServiceRule>): seq<Item>
    requires ServicesOk(svcs)
  {
    if svcs == [] then [] else [ServiceItem(svcs[0])] + ServiceItems(svcs[1..])
  }

  lemma OneService(n: Node, more: seq<Node>)
    requires IsService(n) && AllIfs(more)
    ensures ServicesOf([n] + more) == [ServiceOf(n)] + ServicesOf(more) && AllIfs([n] + more)
  {
    hide ServiceOf;
    assert ([n] + more)[1..] == more;
  }

  lemma ServicesSplit(svcs: seq<ServiceRule>)
    requires svcs != [] && ServicesOk(svcs)
    ensures ServiceOk(svcs[0]) && ServicesOk(svcs[1..]) && [svcs[0]] + svcs[1..] == svcs
    ensures ServiceItems(svcs) == [ServiceItem(svcs[0])] + ServiceItems(svcs[1..]) && ServiceItem(svcs[0]).Branch?
    ensures ServicesText(svcs) == ServiceText(svcs[0]) + ServicesText(svcs[1..])
    ensures !OpensWithElse(ServiceItems(svcs))
  {
    hide ServiceOk, ServiceText, ServiceBody;
  }

  lemma NoServiceItems(line: nat)
    ensures ItemsOk(ServiceItems([])) && !OpensWithElse(ServiceItems([]))
    ensures PrintAll(ServiceItems([])) == ServicesText([])
    ensures var ns := AllNodes(ServiceItems([]), line); ServicesOf(ns) == [] && AllIfs(ns)
  {}

  lemma {:induction false} ServiceItemsOk(svcs: seq<ServiceRule>, line: nat)
    requires ServicesOk(svcs)
    ensures ItemsOk(ServiceItems(svcs)) && !OpensWithElse(ServiceItems(svcs))
    ensures PrintAll(ServiceItems(svcs)) == ServicesText(svcs)
    ensures var ns := AllNodes(ServiceItems(svcs), line); ServicesOf(ns) == svcs && AllIfs(ns)
  {
    hide *;
    if svcs == [] {
      NoServiceItems(line);
    } else {
      ServicesSplit(svcs);
      var it, items := ServiceItem(svcs[0]), ServiceItems(svcs[1..]);
      var next := line + Lines(it);
      ServiceItemOk(svcs[0], line);
      ServiceItemsOk(svcs[1..], next);
      ConsItems(it, items, line);
      if svcs[1..] != [] {
        ServicesSplit(svcs[1..]);
      }
      assert Nodes(it, line) == [Nodes(it, line)[0]];
      OneService(Nodes(it, line)[0], AllNodes(items, next));
    }
  }

  // ---------------------------------------------------------------- profiles and the file

  function ScriptBody(p: Profile): seq<Item>
    requires ProfileOk(p)
  {
    ServiceItems(p.services) + DefaultItems(p.defaultAction, 8)
  }

  function ScriptItem(p: Profile): Item
    requires ProfileOk(p)
  {
    Group([Gapped(4, Bare("script"))], 4, ScriptBody(p))
  }

  function ProfileItem(p: Profile): Item
    requires ProfileOk(p)
  {
    Group([Gapped(0, Bare("profile")), Gapped(1, Bare(p.name))], 0, [ScriptItem(p)])
  }

  function ProfileItems(ps: seq<Profile>): seq<Item>
    requires ProfilesOk(ps)
  {
    if ps == [] then [] else [ProfileItem(ps[0])] + ([Item.Blank] + ProfileItems(ps[1..]))
  }

  lemma ProfileParts(p: Profile)
    requires ProfileOk(p)
    ensures BareOk(p.name) && ServicesOk(p.services) && (p.defaultAction == "" || IsTerminalAction(p.defaultAction))
    ensures ScriptBody(p) == ServiceItems(p.services) + DefaultItems(p.defaultAction, 8)
    ensures ScriptItem(p) == Group([Gapped(4, Bare("script"))], 4, ScriptBody(p))
    ensures ProfileItem(p) == Group([Gapped(0, Bare("profile")), Gapped(1, Bare(p.name))], 0, [ScriptItem(p)])
  {
    hide ServicesOk, ServiceItems, BareOk;
  }

  lemma {:induction false} ServicesAppend(a: seq<Node>, b: seq<Node>)
    ensures ServicesOf(a + b) == ServicesOf(a) + ServicesOf(b)
  {
    if a == [] {
      assert a + b == b;
    } else {
      hide ServiceOf, IsService;
      ServicesAppend(a[1..], b);
      assert (a + b)[1..] == a[1..] + b;
      Assoc(if IsService(a[0]) then [ServiceOf(a[0])] else [], ServicesOf(a[1..]), ServicesOf(b));
    }
  }

  lemma DefaultAlone(default: string, line: nat)
    requires default == "" || IsTerminalAction(default)
    ensures var ns := AllNodes(DefaultItems(default, 8), line); ServicesOf(ns) == [] && LastTerminal(ns, "") == default
  {
    DefaultItemsTexts(default, 8, line);
  }

  lemma ScriptBodyOk(p: Profile, line: nat)
    requires ProfileOk(p)
    ensures ItemsOk(ScriptBody(p))
    ensures PrintAll(ScriptBody(p)) == ServicesText(p.services) + DefaultLine(p.defaultAction, Spaces(8))
    ensures var ns := AllNodes(ScriptBody(p), line);
            ServicesOf(ns) == p.services && LastTerminal(ns, "") == p.defaultAction
  {
    hide *;
    ProfileParts(p);
    var a, d := ServiceItems(p.services), DefaultItems(p.defaultAction, 8);
    var ld := line + LinesAll(a);
    ServiceItemsOk(p.services, line);
    DefaultItemsOk(p.defaultAction, 8);
    DefaultAlone(p.defaultAction, ld);
    ItemsOkAppend(a, d);
    PrintAllAppend(a, d);
    AllNodesAppend(a, d, line);
    ServicesAppend(AllNodes(a, line), AllNodes(d, ld));
    LastTerminalAfter(AllNodes(a, line), AllNodes(d, ld));
    assert p.services + [] == p.services;
  }

  lemma ProfileWord()
    ensures BareOk("profile") && "profile" != "if"
  {}

  lemma ScriptNotElse()
    ensures Bare("script") != Bare("else") && Bare("profile") != Bare("else")
  {
    assert "script"[0] != "else"[0] && "profile"[0] != "else"[0];
  }

  lemma ProfileItemOk(p: Profile, line: nat)
    requires ProfileOk(p)
    ensures ItemOk(ProfileItem(p)) && Print(ProfileItem(p)) + "\n" == ProfileText(p)
    ensures var ns := Nodes(ProfileItem(p), line);
      |ns| == 1 && ns[0].Block? && ns[0].name == "profile" && ProfileOf(ns[0]) == p
  {
    hide *;
    ProfileParts(p);
    ScriptWord();
    ProfileWord();
    ScriptNotElse();
    ScriptBodyOk(p, line + 2);
    HeadOk("script", 4, ScriptBody(p), line + 1);
    OneItem(ScriptItem(p), line + 1);
    NamedHeadOk("profile", p.name, 0, [ScriptItem(p)], line);
    IndentTexts();
    NoIndent();
    ProfileGlue(p);
    ProfileOfNode(p, Nodes(ProfileItem(p), line)[0]);
  }

  lemma ProfileGlue(p: Profile)
    ensures "" + "profile" + " " + p.name + " {\n" +
      ("    " + "script" + " {\n" + (ServicesText(p.services) + DefaultLine(p.defaultAction, "        ")) + "    " +
       "}\n") + "" + "}\n" + "\n"
      == ProfileText(p)
  {
    hide ServicesText, DefaultLine;
    var s, d := ServicesText(p.services), DefaultLine(p.defaultAction, "        ");
    assert "" + "profile" + " " == "profile " && "    " + "script" + " {\n" == "    script {\n";
    assert ("profile " + p.name + " {\n") + "    script {\n" == ProfileHead(p) by {
      assert " {\n" + "    script {\n" == " {\n    script {\n";
      Assoc("profile " + p.name, " {\n", "    script {\n");
    }
    assert "    " + ("}\n" + ("" + ("}\n" + "\n"))) == "    }\n}\n\n";
    hide ProfileHead;
    ProfilePieces("profile " + p.name + " {\n", "    script {\n", s, d, "    ", "}\n", "", "}\n", "\n");
  }

  lemma ProfilePieces(h: string, o: string, s: string, d: string, i: string, z: string, e: string, y: string, x: string)
    ensures h + (o + (s + d) + i + z) + e + y + x == (h + o) + s + d + (i + (z + (e + (y + x))))
  {
    assert h + (o + (s + d) + i + z) == (h + o) + s + d + i + z;
    var t := (h + o) + s + d;
    assert t + i + z + e + y + x == t + (i + (z + (e + (y + x))));
  }

  lemma ProfileOfNode(p: Profile, n: Node)
    requires n.Block? && n.tag == p.name && |n.children| == 1 && n.children[0].Block? && n.children[0].name == "script"
    requires ServicesOf(n.children[0].children) == p.services
    requires LastTerminal(n.children[0].children, "") == p.defaultAction
    ensures ProfileOf(n) == p
  {
    hide ServicesOf, LastTerminal;
  }

  lemma OneProfile(n: Node, more: seq<Node>)
    requires n.Block? && n.name == "profile"
    ensures ProfilesIn([n] + more) == [ProfileOf(n)] + ProfilesIn(more)
  {
    hide ProfileOf;
    assert ([n] + more)[1..] == more;
  }

  lemma ProfilesSplit(ps: seq<Profile>)
    requires ps != [] && ProfilesOk(ps)
    ensures ProfileOk(ps[0]) && ProfilesOk(ps[1..]) && [ps[0]] + ps[1..] == ps && ProfileItem(ps[0]).Group?
    ensures ProfileItems(ps) == [ProfileItem(ps[0])] + ([Item.Blank] + ProfileItems(ps[1..]))
    ensures ProfileTexts(ps) == ProfileText(ps[0]) + ProfileTexts(ps[1..])
  {
    hide ProfileOk, ProfileText;
  }

  lemma NoProfiles(line: nat)
    ensures ItemsOk(ProfileItems([])) && PrintAll(ProfileItems([])) == ProfileTexts([])
    ensures ProfilesIn(AllNodes(ProfileItems([]), line)) == []
    ensures !OpensWithElse(ProfileItems([]))
  {}

  lemma BlankOk(line: nat)
    ensures ItemOk(Item.Blank) && Print(Item.Blank) == "\n" && Nodes(Item.Blank, line) == [] && Lines(Item.Blank) == 1
  {}

  lemma OpensWithProfile(ps: seq<Profile>)
    requires ProfilesOk(ps)
    ensures !OpensWithElse(ProfileItems(ps))
  {
    if ps != [] {
      hide ProfileOk;
      ScriptNotElse();
      ProfileParts(ps[0]);
    }
  }

  lemma {:induction false} ProfileItemsOk(ps: seq<Profile>, line: nat)
    requires ProfilesOk(ps)
    ensures ItemsOk(ProfileItems(ps)) && PrintAll(ProfileItems(ps)) == ProfileTexts(ps)
    ensures ProfilesIn(AllNodes(ProfileItems(ps), line)) == ps
  {
    hide *;
    if ps == [] {
      NoProfiles(line);
    } else {
      ProfilesSplit(ps);
      var it, items := ProfileItem(ps[0]), ProfileItems(ps[1..]);
      var blank := line + Lines(it);
      ProfileItemOk(ps[0], line);
      ProfileItemsOk(ps[1..], blank + 1);
      BlankOk(blank);
      ConsItems(Item.Blank, items, blank);
      ConsItems(it, [Item.Blank] + items, line);
      Assoc(Print(it), "\n", PrintAll(items));
      assert [] + AllNodes(items, blank + 1) == AllNodes(items, blank + 1);
      assert Nodes(it, line) == [Nodes(it, line)[0]];
      OneProfile(Nodes(it, line)[0], AllNodes(items, blank + 1));
    }
  }

  lemma ProfilesTitleOk()
    ensures OneLine("07-profiles.cfg" + " - " + "Authorization profiles")
  {
    var a, b := "07-profiles.cfg - ", "Authorization profiles";
    assert '\n' !in a && '\n' !in b;
    var t := "07-profiles.cfg" + " - " + "Authorization profiles";
    assert t == a + b && t[0] == a[0] && t[|t| - 1] == b[|b| - 1];
  }

  lemma ProfilesBannerIs()
    ensures ProfilesBanner() == Banner("07-profiles.cfg", "Authorization profiles")
  {}

  lemma ProfilesTextIs(ps: seq<Profile>)
    ensures ProfilesText(ps) == ProfilesBanner() + ProfileTexts(ps)
  {}

  /** The file the renderer writes for well-formed profiles is read back as exactly those profiles. */
  lemma ProfilesRoundTrip(ps: seq<Profile>)
    requires ProfilesOk(ps)
    ensures ProfilesOf(ProfilesText(ps)) == Good(ps)
  {
    hide *;
    var banner := BannerItems("07-profiles.cfg", "Authorization profiles");
    var items := ProfileItems(ps);
    ProfilesTitleOk();
    ProfilesBannerIs();
    ProfilesTextIs(ps);
    BannerPrints("07-profiles.cfg", "Authorization profiles", 1);
    ProfileItemsOk(ps, 9);
    OpensWithProfile(ps);
    ItemsOkAppend(banner, items);
    PrintAllAppend(banner, items);
    AllNodesAppend(banner, items, 1);
    PrintedTree(banner + items);
    assert [] + AllNodes(items, 9) == AllNodes(items, 9);
    ProfilesOfTree(ProfilesText(ps));
  }

  lemma ProfilesOfTree(src: string)
    ensures Tree(src).Good? ==> ProfilesOf(src) == Good(ProfilesIn(Tree(src).value))
  {
    hide Tree, ProfilesIn;
  }

  /** The same for the two methods, run one after the other. */
  method RenderThenParse(ps: seq<Profile>) returns (r: Result<seq<Profile>>)
    requires ProfilesOk(ps)
    ensures r == Good(ps)
  {
    hide *;
    var text := RenderProfiles(ps);
    r := ParseProfiles(text);
    ProfilesRoundTrip(ps);
  }
}
