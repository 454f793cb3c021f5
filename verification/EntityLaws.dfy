/** What the mappers make of any statement tree, also of one that no renderer has written. */
module EntityLaws {
  import opened Text
  import opened Parser
  import opened Canonical
  import opened Model
  import opened Mapping
  import opened Ruleset
  import opened Profiles

  // ---------------------------------------------------------------- statements

  predicate FirstAssign(ns: seq<Node>, key: string, i: nat) {
    i < |ns| && ns[i].Assign? && ns[i].name == key && forall k :: 0 <= k < i && ns[k].Assign? ==> ns[k].name != key
  }

  predicate FirstBlock(ns: seq<Node>, name: string, i: nat) {
    i < |ns| && ns[i].Block? && ns[i].name == name && forall k :: 0 <= k < i && ns[k].Block? ==> ns[k].name != name
  }

  predicate Terminal(n: Node) {
    n.Action? && (n.value == "permit" || n.value == "deny")
  }

  predicate LastTerm(ns: seq<Node>, i: nat) {
    i < |ns| && Terminal(ns[i]) && forall k :: i < k < |ns| ==> !Terminal(ns[k])
  }

  lemma {:induction false} AssignIs(ns: seq<Node>, key: string)
    ensures var v := AssignValue(ns, key);
      if exists i: nat :: FirstAssign(ns, key, i) then forall i: nat :: FirstAssign(ns, key, i) ==> v == ns[i].value
      else v == ""
  {
    if ns != [] && !(ns[0].Assign? && ns[0].name == key) {
      AssignIs(ns[1..], key);
      forall i: nat ensures FirstAssign(ns, key, i) <==> i > 0 && FirstAssign(ns[1..], key, i - 1) {
        assert forall k :: 1 <= k < |ns| ==> ns[k] == ns[1..][k - 1];
        if i > 0 && FirstAssign(ns[1..], key, i - 1) {
          forall k | 0 <= k < i && ns[k].Assign? ensures ns[k].name != key {
            assert k > 0 ==> ns[k] == ns[1..][k - 1];
          }
        }
      }
      if exists i: nat :: FirstAssign(ns[1..], key, i) {
        var i: nat :| FirstAssign(ns[1..], key, i);
        assert FirstAssign(ns, key, i + 1);
      }
    } else if ns != [] {
      assert FirstAssign(ns, key, 0);
    }
  }

  lemma {:induction false} BlockIs(ns: seq<Node>, name: string)
    ensures var r := FindBlock(ns, name);
      if exists i: nat :: FirstBlock(ns, name, i) then forall i: nat :: FirstBlock(ns, name, i) ==> r == Some(ns[i])
      else r == None
  {
    if ns != [] && !(ns[0].Block? && ns[0].name == name) {
      BlockIs(ns[1..], name);
      forall i: nat ensures FirstBlock(ns, name, i) <==> i > 0 && FirstBlock(ns[1..], name, i - 1) {
        assert forall k :: 1 <= k < |ns| ==> ns[k] == ns[1..][k - 1];
        if i > 0 && FirstBlock(ns[1..], name, i - 1) {
          forall k | 0 <= k < i && ns[k].Block? ensures ns[k].name != name {
            assert k > 0 ==> ns[k] == ns[1..][k - 1];
          }
        }
      }
      if exists i: nat :: FirstBlock(ns[1..], name, i) {
        var i: nat :| FirstBlock(ns[1..], name, i);
        assert FirstBlock(ns, name, i + 1);
      }
    } else if ns != [] {
      assert FirstBlock(ns, name, 0);
    }
  }

  lemma TerminalText(n: Node)
    ensures (n.Action? || n.Assign?) && IsTerminalAction(n.ActionText()) <==> Terminal(n)
    ensures Terminal(n) ==> n.ActionText() == n.value
  {
    if n.Assign? {
      assert n.ActionText()[|n.name|] == ' ';
      assert ' ' in n.ActionText();
    }
  }

  lemma {:induction false} TerminalIs(ns: seq<Node>, soFar: string)
    ensures var v := LastTerminal(ns, soFar);
      if exists i: nat :: LastTerm(ns, i) then forall i: nat :: LastTerm(ns, i) ==> v == ns[i].value else v == soFar
  {
    hide IsTerminalAction;
    if ns != [] {
      TerminalText(ns[0]);
      var next := if Terminal(ns[0]) then ns[0].value else soFar;
      TerminalIs(ns[1..], next);
      forall i: nat | i > 0 ensures LastTerm(ns, i) <==> LastTerm(ns[1..], i - 1) {
        LastTermTail(ns, i);
      }
      if exists i: nat :: LastTerm(ns[1..], i) {
        var i: nat :| LastTerm(ns[1..], i);
        assert LastTerm(ns, i + 1);
        assert ns[1..][i] == ns[i + 1];
        assert !LastTerm(ns, 0);
      } else {
        SomeTerminal(ns[1..]);
        assert LastTerm(ns, 0) <==> Terminal(ns[0]);
      }
    }
  }

  lemma LastTermTail(ns: seq<Node>, i: nat)
    requires ns != [] && i > 0
    ensures LastTerm(ns, i) <==> LastTerm(ns[1..], i - 1)
  {
    assert forall k :: 1 <= k < |ns| ==> ns[k] == ns[1..][k - 1];
    if LastTerm(ns[1..], i - 1) {
      forall k | i < k < |ns| ensures !Terminal(ns[k]) {
        assert ns[k] == ns[1..][k - 1];
      }
    }
  }

  lemma {:induction false} SomeTerminal(ns: seq<Node>)
    ensures (forall i: nat :: !LastTerm(ns, i)) ==> forall k :: 0 <= k < |ns| ==> !Terminal(ns[k])
  {
    if ns != [] {
      var n := |ns| - 1;
      if !Terminal(ns[n]) {
        SomeTerminal(ns[..n]);
        forall i: nat ensures LastTerm(ns[..n], i) ==> LastTerm(ns, i) {}
      } else {
        assert LastTerm(ns, n);
      }
    }
  }

  // ---------------------------------------------------------------- lists of statements

  function Conditions(ns: seq<Node>): (cs: seq<Node>)
    ensures forall c :: c in cs ==> c.If? && c in ns
  {
    if ns == [] then [] else (if ns[0].If? then [ns[0]] else []) + Conditions(ns[1..])
  }

  function Others(ns: seq<Node>): seq<Node> {
    if ns == [] then [] else (if ns[0].If? then [] else [ns[0]]) + Others(ns[1..])
  }

  function Says(n: Node): string {
    if n.Assign? then n.name + " = " + n.value else if n.Action? then n.value else ""
  }

  /** The texts of statements, a trailing permit or deny apart from the others. */
  predicate Split(ns: seq<Node>, actions: seq<string>, default: string) {
    var n := |ns| - 1;
    if n >= 0 && (Says(ns[n]) == "permit" || Says(ns[n]) == "deny") then
      |actions| == n && default == Says(ns[n]) && forall k :: 0 <= k < n ==> actions[k] == Says(ns[k])
    else |actions| == |ns| && default == "" && forall k :: 0 <= k < |ns| ==> actions[k] == Says(ns[k])
  }

  lemma {:induction false} TextsAre(ns: seq<Node>)
    ensures |AllTexts(ns)| == |ns| && forall k :: 0 <= k < |ns| ==> AllTexts(ns)[k] == Says(ns[k])
    ensures PlainTexts(ns) == AllTexts(Others(ns))
  {
    if ns != [] {
      TextsAre(ns[1..]);
      assert ns[0].ActionText() == Says(ns[0]);
      if !ns[0].If? {
        assert ([ns[0]] + Others(ns[1..]))[1..] == Others(ns[1..]);
      } else {
        assert [] + Others(ns[1..]) == Others(ns[1..]) && [] + PlainTexts(ns[1..]) == PlainTexts(ns[1..]);
      }
    }
  }

  lemma SplitIs(ns: seq<Node>)
    ensures Split(ns, SplitDefault(AllTexts(ns)).0, SplitDefault(AllTexts(ns)).1)
  {
    hide AllTexts;
    TextsAre(ns);
  }

  // ---------------------------------------------------------------- rules

  lemma {:induction false} RuleConditions(ns: seq<Node>)
    ensures var cs := Conditions(ns);
      |ConditionsOf(ns)| == |cs| && forall k :: 0 <= k < |cs| ==> ConditionsOf(ns)[k] == ConditionOf(cs[k])
  {
    hide ConditionOf;
    if ns != [] {
      RuleConditions(ns[1..]);
    }
  }

  /** A condition of a rule: its actions and its else part apart from a trailing permit or deny of each, and its own
      conditions in order. */
  lemma RuleConditionRead(n: Node)
    requires n.If?
    ensures var c, cs := ConditionOf(n), Conditions(n.children);
      && c.attribute == n.cond.attr && c.operator == n.cond.op && c.value == CondValue(n.cond)
      && Split(Others(n.children), c.actions, c.defaultAction) && Split(n.elseNodes, c.elseActions, c.elseAction)
      && |c.children| == |cs| && forall k :: 0 <= k < |cs| ==> c.children[k] == ConditionOf(cs[k])
  {
    hide Split, SplitDefault, AllTexts, PlainTexts, ConditionsOf, CondValue;
    TextsAre(n.children);
    SplitIs(Others(n.children));
    SplitIs(n.elseNodes);
    RuleConditions(n.children);
  }

  /** The default of a script is its last bare permit or deny. */
  ghost predicate DefaultOf(ns: seq<Node>, default: string) {
    (forall i: nat | LastTerm(ns, i) :: default == ns[i].value) &&
    ((forall k :: 0 <= k < |ns| ==> !Terminal(ns[k])) ==> default == "")
  }

  lemma DefaultIs(ns: seq<Node>)
    ensures DefaultOf(ns, LastTerminal(ns, ""))
  {
    hide LastTerminal;
    TerminalIs(ns, "");
  }

  /** A rule is enabled unless its first assignment of enabled says no; without one it is. Its conditions and default
      are those of its first script, and without a script there are none. */
  lemma RuleRead(n: Node)
    requires n.Block?
    ensures var r := RuleOf(n);
      && (r.enabled <==> !exists i: nat :: FirstAssign(n.children, "enabled", i) && n.children[i].value == "no")
      && ((forall i: nat :: !FirstBlock(n.children, "script", i)) ==> r.matches == [] && r.defaultAction == "")
      && (forall i: nat | FirstBlock(n.children, "script", i) ::
            var ns := n.children[i].children;
            && DefaultOf(ns, r.defaultAction) && |r.matches| == |Conditions(ns)|
            && forall k :: 0 <= k < |r.matches| ==> r.matches[k] == ConditionOf(Conditions(ns)[k]))
  {
    hide AssignValue, FindBlock, LastTerminal, ConditionsOf, ConditionOf, FirstAssign, FirstBlock, DefaultOf;
    AssignIs(n.children, "enabled");
    BlockIs(n.children, "script");
    AssignBounds(n.children, "enabled");
    var script := FindBlock(n.children, "script");
    if script.Some? {
      DefaultIs(script.value.children);
      RuleConditions(script.value.children);
    }
  }

  lemma AssignBounds(ns: seq<Node>, key: string)
    ensures forall i: nat :: FirstAssign(ns, key, i) ==> i < |ns| && ns[i].Assign?
    ensures forall i: nat :: FirstBlock(ns, key, i) ==> i < |ns| && ns[i].Block?
  {}

  function Blocks(ns: seq<Node>, name: string): (bs: seq<Node>)
    ensures forall b :: b in bs ==> b.Block? && b.name == name && b in ns
  {
    if ns == [] then [] else (if ns[0].Block? && ns[0].name == name then [ns[0]] else []) + Blocks(ns[1..], name)
  }

  lemma {:induction false} RuleBlocks(ns: seq<Node>)
    ensures var bs := Blocks(ns, "rule");
      |RulesOf(ns)| == |bs| && forall k :: 0 <= k < |bs| ==> RulesOf(ns)[k] == RuleOf(bs[k])
  {
    hide RuleOf;
    if ns != [] {
      RuleBlocks(ns[1..]);
    }
  }

  /** The rules of a file are the rule blocks of its first ruleset, in order; without a ruleset there are none. */
  lemma RulesRead(ns: seq<Node>)
    ensures (forall i: nat :: !FirstBlock(ns, "ruleset", i)) ==> RulesOfFile(ns) == []
    ensures forall i: nat | FirstBlock(ns, "ruleset", i) ::
              var bs := Blocks(ns[i].children, "rule");
              |RulesOfFile(ns)| == |bs| && forall k :: 0 <= k < |bs| ==> RulesOfFile(ns)[k] == RuleOf(bs[k])
  {
    hide FindBlock, RuleOf, RulesOf, FirstBlock;
    BlockIs(ns, "ruleset");
    AssignBounds(ns, "ruleset");
    forall i: nat | FirstBlock(ns, "ruleset", i) {
      RuleBlocks(ns[i].children);
    }
  }

  // ---------------------------------------------------------------- profiles

  /** A condition of a profile: an inline one has the text of its one statement, and a block one its actions apart from
      a trailing permit or deny. */
  lemma ProfileConditionRead(n: Node)
    requires n.If?
    ensures var c := ConditionRuleOf(n);
      && c.attribute == n.cond.attr && c.operator == n.cond.op && c.value == CondValue(n.cond) && c.isInline == n.inline
      && (n.inline ==> c.actions == [] && c.defaultAction == "")
      && (n.inline ==> c.inlineAction == if |n.children| == 1 then Says(n.children[0]) else "")
      && (!n.inline ==> c.inlineAction == "" && Split(n.children, c.actions, c.defaultAction))
  {
    hide Split, SplitDefault, AllTexts, CondValue;
    SplitIs(n.children);
  }

  lemma {:induction false} ServiceConditions(ns: seq<Node>)
    ensures var cs := Conditions(ns);
      |ConditionRulesOf(ns)| == |cs| && forall k :: 0 <= k < |cs| ==> ConditionRulesOf(ns)[k] == ConditionRuleOf(cs[k])
  {
    hide ConditionRuleOf;
    if ns != [] {
      ServiceConditions(ns[1..]);
    }
  }

  /** A service: its name as it stands in the condition, with quotes if there are any. */
  lemma ServiceRead(n: Node)
    requires n.If?
    ensures var s, cs := ServiceOf(n), Conditions(n.children);
      && s.service == n.cond.value && Split(Others(n.children), s.actions, s.defaultAction)
      && |s.conditions| == |cs| && forall k :: 0 <= k < |cs| ==> s.conditions[k] == ConditionRuleOf(cs[k])
  {
    hide Split, SplitDefault, AllTexts, PlainTexts, ConditionRulesOf;
    TextsAre(n.children);
    SplitIs(Others(n.children));
    ServiceConditions(n.children);
  }

  function Services(ns: seq<Node>): (ss: seq<Node>)
    ensures forall s :: s in ss ==> s.If? && s.cond.attr == "service" && s in ns
  {
    if ns == [] then [] else (if ns[0].If? && ns[0].cond.attr == "service" then [ns[0]] else []) + Services(ns[1..])
  }

  lemma {:induction false} ProfileServices(ns: seq<Node>)
    ensures var ss := Services(ns);
      |ServicesOf(ns)| == |ss| && forall k :: 0 <= k < |ss| ==> ServicesOf(ns)[k] == ServiceOf(ss[k])
  {
    hide ServiceOf;
    if ns != [] {
      ProfileServices(ns[1..]);
    }
  }

  /** A profile has the services and the default of its first script; other conditions of the script are passed over. */
  lemma ProfileRead(n: Node)
    requires n.Block?
    ensures var p := ProfileOf(n);
      && p.name == n.tag
      && ((forall i: nat :: !FirstBlock(n.children, "script", i)) ==> p.services == [] && p.defaultAction == "")
      && (forall i: nat | FirstBlock(n.children, "script", i) ::
            var ns := n.children[i].children;
            && DefaultOf(ns, p.defaultAction) && |p.services| == |Services(ns)|
            && forall k :: 0 <= k < |p.services| ==> p.services[k] == ServiceOf(Services(ns)[k]))
  {
    hide FindBlock, LastTerminal, ServicesOf, ServiceOf, FirstBlock, DefaultOf;
    BlockIs(n.children, "script");
    AssignBounds(n.children, "script");
    var script := FindBlock(n.children, "script");
    if script.Some? {
      DefaultIs(script.value.children);
      ProfileServices(script.value.children);
    }
  }

  /** The profiles of a file are its profile blocks, in order. */
  lemma {:induction false} ProfilesRead(ns: seq<Node>)
    ensures var bs := Blocks(ns, "profile");
      |ProfilesIn(ns)| == |bs| && forall k :: 0 <= k < |bs| ==> ProfilesIn(ns)[k] == ProfileOf(bs[k])
  {
    hide ProfileOf;
    if ns != [] {
      ProfilesRead(ns[1..]);
    }
  }
}
