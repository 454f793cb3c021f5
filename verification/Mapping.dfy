/** Helpers of the mapper from statement trees to entities. */
module Mapping {
  import opened Text
  import opened Parser
  import opened Canonical

  /** The texts of the statements that are not conditions. */
  function PlainTexts(ns: seq<Node>): seq<string> {
    if ns == [] then [] else (if ns[0].If? then [] else [ns[0].ActionText()]) + PlainTexts(ns[1..])
  }

  predicate NoIfs(ns: seq<Node>) {
    forall i :: 0 <= i < |ns| ==> !ns[i].If?
  }

  predicate AllIfs(ns: seq<Node>) {
    forall i :: 0 <= i < |ns| ==> ns[i].If?
  }

  /** A trailing permit or deny is the default action. */
  function SplitDefault(actions: seq<string>): (seq<string>, string) {
    if actions != [] && IsTerminalAction(actions[|actions| - 1])
    then (actions[..|actions| - 1], actions[|actions| - 1]) else (actions, "")
  }

  lemma {:induction false} PlainTextsAppend(a: seq<Node>, b: seq<Node>)
    ensures PlainTexts(a + b) == PlainTexts(a) + PlainTexts(b)
  {
    if a == [] {
      assert a + b == b;
    } else {
      PlainTextsAppend(a[1..], b);
      assert (a + b)[1..] == a[1..] + b;
      Assoc(if a[0].If? then [] else [a[0].ActionText()], PlainTexts(a[1..]), PlainTexts(b));
    }
  }

  function DefaultTexts(default: string): seq<string> {
    if default == "" then [] else [default]
  }

  /** Printed behind its actions, a default comes apart from them again exactly when it is a permit or deny, or
      there is none and the last action is neither. */
  lemma SplitDefaultOf(actions: seq<string>, default: string)
    ensures SplitDefault(actions + DefaultTexts(default)) == (actions, default) <==> DefaultOk(actions, default)
  {
    var all := actions + DefaultTexts(default);
    if default == "" {
      assert all == actions;
    } else {
      assert all[..|all| - 1] == actions && all[|all| - 1] == default;
    }
  }

  function AllTexts(ns: seq<Node>): seq<string> {
    if ns == [] then [] else [ns[0].ActionText()] + AllTexts(ns[1..])
  }

  /** findBlock */
  function FindBlock(ns: seq<Node>, name: string): (r: Option<Node>)
    ensures r.Some? ==> r.value.Block? && r.value.name == name && r.value in ns
  {
    if ns == [] then None
    else if ns[0].Block? && ns[0].name == name then Some(ns[0])
    else FindBlock(ns[1..], name)
  }

  /** assignValue */
  function AssignValue(ns: seq<Node>, key: string): string {
    if ns == [] then ""
    else if ns[0].Assign? && ns[0].name == key then ns[0].value
    else AssignValue(ns[1..], key)
  }

  /** The last permit or deny among the statements of a script. */
  function LastTerminal(ns: seq<Node>, soFar: string): string {
    if ns == [] then soFar
    else if (ns[0].Action? || ns[0].Assign?) && IsTerminalAction(ns[0].ActionText()) then
      LastTerminal(ns[1..], ns[0].ActionText())
    else LastTerminal(ns[1..], soFar)
  }

  lemma NoIfsAppend(a: seq<Node>, b: seq<Node>)
    requires NoIfs(a) && NoIfs(b)
    ensures NoIfs(a + b)
  {}

  lemma LastTerminalSkips(n: Node, more: seq<Node>)
    requires n.If?
    ensures LastTerminal([n] + more, "") == LastTerminal(more, "")
  {
    assert ([n] + more)[1..] == more;
  }

  lemma {:induction false} LastTerminalAfter(a: seq<Node>, b: seq<Node>)
    requires AllIfs(a)
    ensures LastTerminal(a + b, "") == LastTerminal(b, "")
  {
    if a == [] {
      assert a + b == b;
    } else {
      hide LastTerminal;
      LastTerminalAfter(a[1..], b);
      LastTerminalSkips(a[0], a[1..] + b);
      assert a + b == [a[0]] + (a[1..] + b);
    }
  }

  lemma {:induction false} NoIfsTexts(ns: seq<Node>)
    requires NoIfs(ns)
    ensures AllTexts(ns) == PlainTexts(ns)
  {
    if ns != [] {
      NoIfsTexts(ns[1..]);
    }
  }

  lemma PlainMaps(a: seq<Node>, b: seq<Node>)
    requires NoIfs(a) && NoIfs(b)
    ensures AllTexts(a + b) == PlainTexts(a) + PlainTexts(b)
  {
    hide *;
    NoIfsAppend(a, b);
    NoIfsTexts(a + b);
    PlainTextsAppend(a, b);
  }

  // The loops that compute these.

  method SearchBlock(ns: seq<Node>, name: string) returns (r: Option<Node>)
    ensures r == FindBlock(ns, name)
  {
    for i := 0 to |ns|
      invariant FindBlock(ns[i..], name) == FindBlock(ns, name)
    {
      assert ns[i..][1..] == ns[i + 1..];
      if ns[i].Block? && ns[i].name == name {
        return Some(ns[i]);
      }
    }
    return None;
  }

  method SearchAssign(ns: seq<Node>, key: string) returns (v: string)
    ensures v == AssignValue(ns, key)
  {
    for i := 0 to |ns|
      invariant AssignValue(ns[i..], key) == AssignValue(ns, key)
    {
      assert ns[i..][1..] == ns[i + 1..];
      if ns[i].Assign? && ns[i].name == key {
        return ns[i].value;
      }
    }
    return "";
  }

  method TextsFromNodes(ns: seq<Node>) returns (texts: seq<string>)
    ensures texts == AllTexts(ns)
  {
    texts := [];
    for i := 0 to |ns|
      invariant texts + AllTexts(ns[i..]) == AllTexts(ns)
    {
      assert ns[i..][1..] == ns[i + 1..];
      Assoc(texts, [ns[i].ActionText()], AllTexts(ns[i + 1..]));
      texts := texts + [ns[i].ActionText()];
    }
    assert texts + [] == texts;
  }
}
