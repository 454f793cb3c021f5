/** Well-formed pieces of configuration text: which action and value strings survive being printed and
    read back, and how concatenated statement lists behave. */
module Canonical {
  import opened Text
  import opened Lexer
  import opened Parser
  import opened Layout

  datatype Head = Head(x: Lexeme, len: nat)

  /** The lexeme a text starts with, as the tokenizer takes it, and its length. */
  function FirstWord(a: string): (r: Option<Head>)
    requires a != ""
    ensures r.Some? ==> 0 < r.value.len <= |a|
  {
    match FirstStep(a)
    case Emit(kind, text, n) =>
      if n > |a| then None
      else if kind == Word then Some(Head(Bare(text), n))
      else if kind == Str then Some(Head(Quoted(text), n))
      else if kind == Equals then Some(Head(Eq, n))
      else None
    case _ => None
  }

  /** The words of a text that is lexemes one blank apart; None when it is not of that form. */
  function Words(a: string): (r: Option<seq<Lexeme>>)
    ensures r.Some? ==> r.value != []
    decreases |a|
  {
    if a == "" || FirstWord(a).None? then None
    else
      var Head(x, n) := FirstWord(a).value;
      if n == |a| then Some([x])
      else if a[n] != ' ' || Words(a[n + 1..]).None? then None
      else Some([x] + Words(a[n + 1..]).value)
  }

  /** An action line: lexemes one blank apart, the first a word other than if, and something after the
      first equal sign when there is one. */
  predicate ActionOk(a: string) {
    Trim(a) != "" &&
    match Words(a)
    case None => false
    case Some(xs) => !xs[0].Eq? && xs[0].text != "if" && FirstEq(xs) != |xs| - 1
  }

  predicate ActionsOk(actions: seq<string>) {
    forall i :: 0 <= i < |actions| ==> ActionOk(actions[i])
  }

  function IsTerminalAction(s: string): bool {
    s == "permit" || s == "deny"
  }

  /** A default action, and the actions printed before it: without a default the list may not end in a
      permit or deny, which would be read back as the default. */
  predicate DefaultOk(actions: seq<string>, default: string) {
    if default == "" then actions != [] ==> !IsTerminalAction(actions[|actions| - 1]) else IsTerminalAction(default)
  }

  predicate HasBlank(v: string) {
    ' ' in v || '\t' in v
  }

  predicate NeedsQuotes(v: string) {
    v == "" || HasBlank(v)
  }

  /** A condition value, for its operator: regular expressions print bare, other values bare or quoted. */
  predicate ValueOk(op: string, v: string) {
    if op == "=~" then v == "" || (Words(v).Some? && forall x | x in Words(v).value :: !x.Quoted?)
    else if NeedsQuotes(v) then QuoteSafe(v) && Trimmed(v)
    else BareOk(v)
  }

  function ValueWords(op: string, v: string): seq<Lexeme>
    requires ValueOk(op, v)
  {
    if op == "=~" then (if v == "" then [] else Words(v).value)
    else if NeedsQuotes(v) then [Quoted(v)]
    else [Bare(v)]
  }

  /** renderCondValue */
  function RenderCondValue(op: string, v: string): string {
    if op == "=~" then v else if NeedsQuotes(v) then "\"" + v + "\"" else v
  }

  /** stripQuotes */
  function StripQuotes(s: string): string {
    var t := Trim(s);
    if |t| >= 2 && t[0] == '"' && t[|t| - 1] == '"' then t[1..|t| - 1] else t
  }

  /** condValue */
  function CondValue(c: Cond): string {
    if c.quoted then StripQuotes(c.value) else c.value
  }

  // ---------------------------------------------------------------- words

  lemma {:induction false} QuotedLenSafe(s: string)
    ensures var n := QuotedLen(s); n < |s| ==> s[n] == '"' && QuoteSafe(s[..n])
    decreases |s|
  {
    var n := QuotedLen(s);
    if n < |s| && n > 0 {
      if s[0] == '\\' {
        QuotedLenSafe(s[2..]);
        assert s[..n][2..] == s[2..][..n - 2];
      } else {
        QuotedLenSafe(s[1..]);
        assert s[..n][1..] == s[1..][..n - 1];
      }
    }
  }

  lemma {:induction false} WordLenOk(s: string)
    ensures forall i :: 0 <= i < WordLen(s) ==> !IsDelim(s[i])
  {
    if s != "" && !IsDelim(s[0]) {
      WordLenOk(s[1..]);
      assert forall i :: 1 <= i < WordLen(s) ==> s[i] == s[1..][i - 1];
    }
  }

  lemma FirstWordSound(a: string)
    requires a != "" && FirstWord(a).Some?
    ensures var Head(x, n) := FirstWord(a).value; LexemeOk(x) && Source(x) == a[..n]
  {
    if a[0] == '"' {
      hide WordLen, LineLen;
      var n := QuotedLen(a[1..]);
      QuotedLenSafe(a[1..]);
      if n + 2 <= |a| {
        assert a[1..n + 1] == a[1..][..n];
      }
    } else if a[0] == '=' || (a[0] == '!' && |a| > 1 && a[1] == '=') {
      hide WordLen, LineLen, QuotedLen;
    } else {
      hide LineLen, QuotedLen;
      WordLenOk(a);
    }
  }

  lemma {:induction false} WordsSound(a: string)
    requires Words(a).Some?
    ensures var xs := Words(a).value; LexemesOk(xs) && a == Join(Sources(xs), " ")
    decreases |a|
  {
    hide FirstWord, LexemeOk;
    FirstWordSound(a);
    var Head(x, n) := FirstWord(a).value;
    if n == |a| {
      assert a[..n] == a && Sources([x]) == [a];
    } else {
      WordsSound(a[n + 1..]);
      var more := Words(a[n + 1..]).value;
      JoinCons(x, more);
      assert a == a[..n] + " " + a[n + 1..];
    }
  }

  lemma JoinCons(x: Lexeme, more: seq<Lexeme>)
    requires more != []
    ensures Join(Sources([x] + more), " ") == Source(x) + " " + Join(Sources(more), " ")
  {
    assert Sources([x] + more) == [Source(x)] + Sources(more);
    assert Sources([x] + more)[1..] == Sources(more);
  }

  /** The parsed statement of an action line has the action's text again. */
  lemma ActionTextOf(a: string, line: nat)
    requires ActionOk(a)
    ensures LineNode(Words(a).value, line).ActionText() == a
    ensures !LineNode(Words(a).value, line).If? && !LineNode(Words(a).value, line).Block?
  {
    hide Words, Trim;
    WordsSound(a);
    LineText(Words(a).value, line);
  }

  lemma LineText(xs: seq<Lexeme>, line: nat)
    requires xs != [] && !xs[0].Eq? && FirstEq(xs) != |xs| - 1
    ensures LineNode(xs, line).ActionText() == Join(Sources(xs), " ")
  {
    hide Join, Sources;
    SourcesOf(xs);
    var k := FirstEq(xs);
    if k < |xs| {
      JoinAroundEq(Sources(xs[..k]), Sources(xs[k + 1..]));
      SourcesAroundEq(xs, k);
    }
  }

  lemma SourcesOf(xs: seq<Lexeme>)
    ensures forall k :: 0 < k <= |xs| ==> Sources(xs[..k]) != []
    ensures forall k :: 0 <= k < |xs| ==> Sources(xs[k..]) != []
  {}

  lemma SourcesAroundEq(xs: seq<Lexeme>, k: nat)
    requires k < |xs| && xs[k].Eq?
    ensures Sources(xs) == Sources(xs[..k]) + (["="] + Sources(xs[k + 1..]))
  {}

  lemma JoinAroundEq(before: seq<string>, after: seq<string>)
    requires before != [] && after != []
    ensures Join(before + (["="] + after), " ") == Join(before, " ") + " = " + Join(after, " ")
  {
    hide Join;
    JoinAppend(before, ["="] + after, " ");
    JoinAppend(["="], after, " ");
    JoinOne("=", " ");
    var b, a := Join(before, " "), Join(after, " ");
    assert b + " " + ("=" + " " + a) == b + " = " + a;
  }

  lemma JoinOne(s: string, sep: string)
    ensures Join([s], sep) == s
  {}

  /** A condition value is read back as it was. */
  lemma CondValueOf(attr: string, op: string, v: string)
    requires ValueOk(op, v)
    ensures LexemesOk(ValueWords(op, v))
    ensures CondValue(CondOf(attr, op, ValueWords(op, v))) == v
    ensures PrintRow(Spaced(0, ValueWords(op, v))) == RenderCondValue(op, v)
  {
    var xs := ValueWords(op, v);
    if op == "=~" {
      if v != "" {
        WordsSound(v);
        assert Texts(xs) == Sources(xs) by {
          forall i | 0 <= i < |xs| ensures Texts(xs)[i] == Sources(xs)[i] {
            assert xs[i] in xs;
          }
        }
        PrintSpaced(0, xs);
      }
    } else {
      PrintSpaced(0, xs);
      assert Texts(xs) == [v];
      assert Sources(xs) == [RenderCondValue(op, v)];
      if NeedsQuotes(v) {
        assert xs[0].Quoted?;
        TrimmedIsTrim(v);
      }
    }
  }

  // ---------------------------------------------------------------- statement lists

  lemma ConsItems(it: Item, items: seq<Item>, line: nat)
    ensures PrintAll([it] + items) == Print(it) + PrintAll(items)
    ensures AllNodes([it] + items, line) == Nodes(it, line) + AllNodes(items, line + Lines(it))
    ensures AllNotes([it] + items, line) == ItemNotes(it, line) + AllNotes(items, line + Lines(it))
    ensures ItemOk(it) && ItemsOk(items) && (it.Branch? ==> !OpensWithElse(items)) ==> ItemsOk([it] + items)
    ensures LinesAll([it] + items) == Lines(it) + LinesAll(items)
  {
    hide ItemOk, Print, Nodes, Lines, ItemNotes, OpensWithElse;
    assert ([it] + items)[1..] == items;
  }

  lemma {:induction false} AllNodesAppend(a: seq<Item>, b: seq<Item>, line: nat)
    ensures LinesAll(a + b) == LinesAll(a) + LinesAll(b)
    ensures AllNodes(a + b, line) == AllNodes(a, line) + AllNodes(b, line + LinesAll(a))
    ensures AllNotes(a + b, line) == AllNotes(a, line) + AllNotes(b, line + LinesAll(a))
  {
    hide Lines, Nodes, ItemNotes;
    if a == [] {
      assert a + b == b;
    } else {
      var next := line + Lines(a[0]);
      AllNodesAppend(a[1..], b, next);
      assert (a + b)[1..] == a[1..] + b;
      Assoc(Nodes(a[0], line), AllNodes(a[1..], next), AllNodes(b, line + LinesAll(a)));
      Assoc(ItemNotes(a[0], line), AllNotes(a[1..], next), AllNotes(b, line + LinesAll(a)));
    }
  }

  lemma {:induction false} OpensAppend(a: seq<Item>, b: seq<Item>)
    ensures OpensWithElse(a + b) ==> OpensWithElse(a) || OpensWithElse(b)
  {
    if a == [] {
      assert a + b == b;
    } else {
      assert (a + b)[1..] == a[1..] + b;
      OpensAppend(a[1..], b);
    }
  }

  lemma {:induction false} ItemsOkAppend(a: seq<Item>, b: seq<Item>)
    requires ItemsOk(a) && ItemsOk(b) && !OpensWithElse(b)
    ensures ItemsOk(a + b)
    decreases a
  {
    hide ItemOk;
    if a == [] {
      assert a + b == b;
    } else {
      assert (a + b)[1..] == a[1..] + b;
      ItemsOkAppend(a[1..], b);
      OpensAppend(a[1..], b);
    }
  }

  // ---------------------------------------------------------------- quotes

  /** Quotes around a text, and white space around them, are taken off; a text without them at both ends keeps them. */
  lemma QuotesTaken(s: string)
    ensures Trim(s) != "" && Trim(s)[0] != '"' ==> StripQuotes(s) == Trim(s)
    ensures Trim(s) != "" && Trim(s)[|Trim(s)| - 1] != '"' ==> StripQuotes(s) == Trim(s)
    ensures forall t: string :: Trim(s) == "\"" + t + "\"" ==> StripQuotes(s) == t
  {
    hide Trim;
    forall t: string | Trim(s) == "\"" + t + "\"" ensures StripQuotes(s) == t {
      assert ("\"" + t + "\"")[1..|t| + 1] == t;
    }
  }

  /** Which condition values are printed in quotes: empty ones and those with a blank or a tab, but no regular
      expression. */
  lemma QuotesPrinted(op: string, v: string)
    ensures RenderCondValue(op, v) ==
            if op != "=~" && (v == "" || ' ' in v || '\t' in v) then "\"" + v + "\"" else v
  {}
}
