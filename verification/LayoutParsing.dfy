/** Parsing the tokens of printed text yields the nodes of the tree. */
module LayoutParsing {
  import opened Text
  import opened Lexer
  import opened Parser
  import opened Layout
  import opened LayoutLexing

  ghost predicate NoEof(toks: seq<Token>) {
    forall k :: 0 <= k < |toks| ==> toks[k].kind != EOF
  }

  lemma {:induction false} AllNoEof(items: seq<Item>, line: nat)
    ensures NoEof(AllToks(items, line))
    decreases items, 0
  {
    if items != [] {
      ItemNoEof(items[0], line);
      AllNoEof(items[1..], line + Lines(items[0]));
    }
  }

  lemma NoEofAppend(a: seq<Token>, b: seq<Token>)
    requires NoEof(a) && NoEof(b)
    ensures NoEof(a + b)
  {}

  lemma {:induction false} ItemNoEof(it: Item, line: nat)
    ensures NoEof(ItemToks(it, line))
    decreases it, 1
  {
    match it
    case Group(head, _, body) =>
      var end := line + 1 + LinesAll(body);
      AllNoEof(body, line + 1);
      assert NoEof(Toks(Lexemes(head), line)) && NoEof(Open(line)) && NoEof(Close(end));
      hide NoEof;
      NoEofAppend(AllToks(body, line + 1), Close(end));
      NoEofAppend(Open(line), AllToks(body, line + 1) + Close(end));
      NoEofAppend(Toks(Lexemes(head), line), Open(line) + (AllToks(body, line + 1) + Close(end)));
    case Branch(_, _, _, _, _, _) => BranchNoEof(it, line);
    case _ =>
  }

  lemma {:induction false} BranchNoEof(it: Item, line: nat)
    requires it.Branch?
    ensures NoEof(ItemToks(it, line))
    decreases it, 0, 1
  {
    hide *;
    var mid := line + 1 + LinesAll(it.body);
    var condition := ConditionToks(it.attr, it.op, it.value, line);
    FixedNoEof(it, line);
    AllNoEof(it.body, line + 1);
    TailNoEof(it, mid);
    BranchToks(it, line);
    NoEofAppend(AllToks(it.body, line + 1), TailToks(it, mid));
    NoEofAppend(Open(line), AllToks(it.body, line + 1) + TailToks(it, mid));
    NoEofAppend(condition, Open(line) + (AllToks(it.body, line + 1) + TailToks(it, mid)));
  }

  lemma FixedNoEof(it: Item, line: nat)
    requires it.Branch?
    ensures NoEof(ConditionToks(it.attr, it.op, it.value, line)) && NoEof(Open(line))
  {}

  lemma {:induction false} TailNoEof(it: Item, mid: nat)
    requires it.Branch?
    ensures NoEof(TailToks(it, mid))
    decreases it, 0, 0
  {
    var items := it.otherwise;
    var end := mid + 1 + LinesAll(items);
    AllNoEof(items, mid + 1);
    var word := [Token(Word, "else", mid)];
    assert NoEof(word) && NoEof(Open(mid)) && NoEof(Close(end)) && NoEof(Close(mid)) && NoEof([]);
    hide NoEof;
    NoEofAppend(AllToks(items, mid + 1), Close(end));
    NoEofAppend(Open(mid), AllToks(items, mid + 1) + Close(end));
    NoEofAppend(word, Open(mid) + (AllToks(items, mid + 1) + Close(end)));
    NoEofAppend(Close(mid), if items == [] then [] else word + (Open(mid) + (AllToks(items, mid + 1) + Close(end))));
  }

  lemma StreamAppend(toks: seq<Token>, rest: seq<Token>)
    requires NoEof(toks) && Stream(rest)
    ensures Stream(toks + rest)
  {
    var ts := toks + rest;
    assert forall k :: 0 <= k < |ts| ==> ts[k] == if k < |toks| then toks[k] else rest[k - |toks|];
  }

  // The three word loops, on the tokens of a row.

  lemma TakeWordsCons(t: Token, line: nat, more: seq<Token>)
    requires IsText(t) && t.line == line && Stream(more)
    ensures Stream([t] + more)
    ensures TakeWords([t] + more, line) == ([TokenText(t)] + TakeWords(more, line).0, TakeWords(more, line).1)
  {
    StreamAppend([t], more);
    assert ([t] + more)[1..] == more;
  }

  lemma TakeRestCons(t: Token, line: nat, more: seq<Token>)
    requires (IsText(t) || t.kind == Equals) && t.line == line && Stream(more)
    ensures Stream([t] + more)
    ensures TakeRest([t] + more, line)
      == ([if t.kind == Equals then "=" else TokenText(t)] + TakeRest(more, line).0, TakeRest(more, line).1)
  {
    StreamAppend([t], more);
    assert ([t] + more)[1..] == more;
  }

  lemma Uncons(xs: seq<Lexeme>, line: nat, rest: seq<Token>)
    requires xs != []
    ensures Toks(xs, line) + rest == [TokenOf(xs[0], line)] + (Toks(xs[1..], line) + rest)
    ensures Sources(xs) == [Source(xs[0])] + Sources(xs[1..])
    ensures Texts(xs) == [TokenOf(xs[0], line).text] + Texts(xs[1..])
  {
    assert Toks(xs, line) == [TokenOf(xs[0], line)] + Toks(xs[1..], line);
  }

  lemma {:induction false} TakeWordsOf(xs: seq<Lexeme>, line: nat, rest: seq<Token>)
    requires NoEq(xs) && Stream(rest) && !(IsText(rest[0]) && rest[0].line == line)
    ensures Stream(Toks(xs, line) + rest) && TakeWords(Toks(xs, line) + rest, line) == (Sources(xs), rest)
  {
    if xs == [] {
      assert Toks(xs, line) + rest == rest && Sources(xs) == [];
    } else {
      hide Stream, TakeWords, Toks, Sources;
      TakeWordsOf(xs[1..], line, rest);
      Uncons(xs, line, rest);
      assert !xs[0].Eq? && TokenText(TokenOf(xs[0], line)) == Source(xs[0]);
      TakeWordsCons(TokenOf(xs[0], line), line, Toks(xs[1..], line) + rest);
    }
  }

  lemma {:induction false} TakeRestOf(xs: seq<Lexeme>, line: nat, rest: seq<Token>)
    requires Stream(rest) && !(rest[0].line == line && (IsText(rest[0]) || rest[0].kind == Equals))
    ensures Stream(Toks(xs, line) + rest) && TakeRest(Toks(xs, line) + rest, line) == (Sources(xs), rest)
  {
    if xs == [] {
      assert Toks(xs, line) + rest == rest && Sources(xs) == [];
    } else {
      hide Stream, TakeRest, Toks, Sources;
      TakeRestOf(xs[1..], line, rest);
      Uncons(xs, line, rest);
      TakeRestCons(TokenOf(xs[0], line), line, Toks(xs[1..], line) + rest);
    }
  }

  predicate AnyQuoted(xs: seq<Lexeme>) {
    exists i :: 0 <= i < |xs| && xs[i].Quoted?
  }

  lemma TakeValueCons(t: Token, more: seq<Token>)
    requires t.kind != RParen && t.kind != EOF && Stream(more)
    ensures Stream([t] + more)
    ensures var v := TakeValue(more);
      TakeValue([t] + more) == Value([t.text] + v.parts, t.kind == Str || v.quoted, v.rest)
  {
    StreamAppend([t], more);
    assert ([t] + more)[1..] == more;
  }

  lemma {:induction false} TakeValueOf(xs: seq<Lexeme>, line: nat, rest: seq<Token>)
    requires Stream(rest) && rest[0].kind == RParen
    ensures Stream(Toks(xs, line) + rest) && TakeValue(Toks(xs, line) + rest) == Value(Texts(xs), AnyQuoted(xs), rest)
  {
    if xs == [] {
      assert Toks(xs, line) + rest == rest && Sources(xs) == [];
    } else {
      hide Stream, TakeValue, Toks, Texts;
      TakeValueOf(xs[1..], line, rest);
      Uncons(xs, line, rest);
      TakeValueCons(TokenOf(xs[0], line), Toks(xs[1..], line) + rest);
      assert AnyQuoted(xs) == (xs[0].Quoted? || AnyQuoted(xs[1..])) by {
        assert forall i :: 1 <= i < |xs| ==> xs[i] == xs[1..][i - 1];
      }
    }
  }

  /** What may follow a statement: the end of a block or of the file, or a word on this line or later. */
  ghost predicate Later(rest: seq<Token>, line: nat) {
    Stream(rest) && (rest[0].kind == EOF || rest[0].kind == RBrace || (IsText(rest[0]) && rest[0].line >= line))
  }

  /** The leading words of a statement. */
  lemma ReadWords(xs: seq<Lexeme>, line: nat, after: seq<Token>)
    requires xs != [] && NoEq(xs) && xs[0].text != "if"
    requires Stream(after) && !(IsText(after[0]) && after[0].line == line)
    ensures Stream(Toks(xs, line) + after)
    ensures ReadStmt(Toks(xs, line) + after) == ReadAfterWords(line, Sources(xs), after)
  {
    hide ReadAfterWords, TakeWords, ReadIf, Stream, Toks, Sources;
    var t := TokenOf(xs[0], line);
    TakeWordsOf(xs[1..], line, after);
    Uncons(xs, line, after);
    TakeWordsCons(t, line, Toks(xs[1..], line) + after);
    var ts := Toks(xs, line) + after;
    assert ts[0] == t && ts[1..] == Toks(xs[1..], line) + after;
    assert TokenText(t) == Source(xs[0]);
  }

  lemma ReadLine(row: Row, line: nat, rest: seq<Token>)
    requires RowOk(row) && Opening(row) && Later(rest, line + 1)
    ensures Stream(Toks(Lexemes(row), line) + rest)
    ensures ReadStmt(Toks(Lexemes(row), line) + rest) == Ok(LineNode(Lexemes(row), line), rest)
  {
    hide RowOk, ReadStmts, ReadStmt, TakeRest, Stream, Toks, Sources;
    var xs := Lexemes(row);
    var k := FirstEq(xs);
    assert xs[0] == row[0].x;
    if k == |xs| {
      assert xs[..k] == xs;
      ReadWords(xs, line, rest);
    } else {
      ReadAssign(xs, k, line, rest);
      assert xs[..k][0] == xs[0];
      ReadWords(xs[..k], line, Toks(xs[k..], line) + rest);
      SplitToks(xs, k, line);
      Assoc(Toks(xs[..k], line), Toks(xs[k..], line), rest);
    }
  }

  lemma SplitToks(xs: seq<Lexeme>, k: nat, line: nat)
    requires k <= |xs|
    ensures Toks(xs, line) == Toks(xs[..k], line) + Toks(xs[k..], line)
  {}

  /** What is left of an assignment from its equal sign on. */
  lemma ReadAssign(xs: seq<Lexeme>, k: nat, line: nat, rest: seq<Token>)
    requires k == FirstEq(xs) < |xs| && Later(rest, line + 1)
    ensures var after := Toks(xs[k..], line) + rest;
      && Stream(after) && after[0].kind == Equals && after[0].line == line
      && Stream(after[1..]) && TakeRest(after[1..], line) == (Sources(xs[k + 1..]), rest)
  {
    hide TakeRest, Toks, Sources;
    TakeRestOf(xs[k + 1..], line, rest);
    hide Stream, NoEof;
    Uncons(xs[k..], line, rest);
    assert xs[k..][1..] == xs[k + 1..];
    ReadFixed(TokenOf(xs[k], line), "", Toks(xs[k + 1..], line) + rest);
    var after := Toks(xs[k..], line) + rest;
    assert after[1..] == Toks(xs[k + 1..], line) + rest;
  }

  lemma {:induction false} ReadBlock(items: seq<Item>, line: nat, rest: seq<Token>)
    requires ItemsOk(items) && Stream(rest)
    ensures var ts := AllToks(items, line) + (Close(line + LinesAll(items)) + rest);
      Stream(ts) && ReadStmts(ts, true) == Ok((AllNodes(items, line), line + LinesAll(items)), rest)
    decreases items, 1
  {
    var close := Close(line + LinesAll(items));
    StreamAppend(close, rest);
    var tail := close + rest;
    assert tail[1..] == rest && tail[0] == close[0];
    ReadAll(items, line, tail, true);
    assert AllNodes(items, line) + [] == AllNodes(items, line);
  }

  lemma GroupParts(it: Item, line: nat)
    requires ItemOk(it) && it.Group?
    ensures var xs := Lexemes(it.head); var end := line + 1 + LinesAll(it.body);
      && xs != [] && NoEq(xs) && xs[0].text != "if" && ItemsOk(it.body)
      && ItemToks(it, line) == Toks(xs, line) + (Open(line) + (AllToks(it.body, line + 1) + Close(end)))
      && Nodes(it, line) == [Block(Sources(xs)[0], Join(Sources(xs)[1..], " "), AllNodes(it.body, line + 1), line, end)]
  {
    hide AllToks, AllNodes, ItemsOk, LinesAll, RowOk, Toks;
    assert Lexemes(it.head)[0] == it.head[0].x;
    assert Sources(Lexemes(it.head))[1..] == Sources(Lexemes(it.head[1..]));
  }

  lemma ReadBracedBlock(words: seq<string>, line: nat, block: seq<Token>, children: seq<Node>, end: nat,
                        rest: seq<Token>)
    requires words != [] && Stream(block) && Stream(rest) && ReadStmts(block, true) == Ok((children, end), rest)
    ensures Stream(Open(line) + block) && (Open(line) + block)[0].kind == LBrace && !IsText((Open(line) + block)[0])
    ensures ReadAfterWords(line, words, Open(line) + block) ==
            Ok(Block(words[0], Join(words[1..], " "), children, line, end), rest)
  {
    hide ReadStmts, TakeRest;
    StreamAppend(Open(line), block);
    assert (Open(line) + block)[1..] == block;
  }

  lemma {:induction false} ReadGroup(it: Item, line: nat, rest: seq<Token>)
    requires ItemOk(it) && it.Group? && Stream(rest)
    ensures Stream(ItemToks(it, line) + rest)
    ensures ReadStmt(ItemToks(it, line) + rest) == Ok(Nodes(it, line)[0], rest)
    decreases it, 2
  {
    hide *;
    var end := line + 1 + LinesAll(it.body);
    var xs := Lexemes(it.head);
    var children := AllNodes(it.body, line + 1);
    var block := AllToks(it.body, line + 1) + (Close(end) + rest);
    GroupParts(it, line);
    ReadBlock(it.body, line + 1, rest);
    SourcesLength(xs);
    ReadBracedBlock(Sources(xs), line, block, children, end, rest);
    ReadWords(xs, line, Open(line) + block);
    Assoc5(Toks(xs, line), Open(line), AllToks(it.body, line + 1), Close(end), rest);
  }

  lemma SourcesLength(xs: seq<Lexeme>)
    ensures |Sources(xs)| == |xs|
  {}

  lemma ReadFixed(t: Token, what: string, rest: seq<Token>)
    requires t.kind != EOF && Stream(rest)
    ensures Stream([t] + rest) && ReadToken([t] + rest, t.kind, what) == Ok(t, rest)
  {
    StreamAppend([t], rest);
    assert ([t] + rest)[1..] == rest;
  }

  lemma ReadCondition(attr: string, op: string, value: seq<Lexeme>, line: nat, rest: seq<Token>)
    requires Stream(rest)
    ensures Stream(ConditionToks(attr, op, value, line) + rest)
    ensures ReadStmt(ConditionToks(attr, op, value, line) + rest) ==
            ReadBranches(CondOf(attr, op, value), line, line, rest)
  {
    hide ReadBranches, ReadAfterWords, TakeWords, ReadToken, TakeValue, Stream;
    var rp := Token(RParen, ")", line);
    var lp := Token(LParen, "(", line);
    var a, o := Token(Word, attr, line), Token(Word, op, line);
    var r4 := [rp] + rest;
    ReadFixed(rp, "')'", rest);
    assert r4[0] == rp;
    TakeValueOf(value, line, r4);
    var r3 := Toks(value, line) + r4;
    ReadFixed(o, "condition operator", r3);
    ReadFixed(a, "condition attribute", [o] + r3);
    ReadFixed(lp, "'('", [a] + ([o] + r3));
    var r := [lp] + ([a] + ([o] + r3));
    assert ReadIf(r, line) == ReadBranches(CondOf(attr, op, value), line, line, rest) by {
      assert AnyQuoted(value) == CondOf(attr, op, value).quoted;
    }
    ReadFixed(Token(Word, "if", line), "", r);
    var ts := [Token(Word, "if", line)] + r;
    assert ts == ConditionToks(attr, op, value, line) + rest;
    assert ts[1..] == r;
  }

  lemma ReadInlineAction(cond: Cond, action: seq<Lexeme>, line: nat, rest: seq<Token>)
    requires Later(rest, line + 1)
    ensures var ts := Toks(action, line) + rest;
      Stream(ts) && ReadBranches(cond, line, line, ts)
        == Ok(If(cond, [Action(Join(Sources(action), " "), line, 0)], [], true, line, line), rest)
  {
    hide ReadStmts, TakeRest;
    TakeRestOf(action, line, rest);
    hide Stream;
    var ts := Toks(action, line) + rest;
    assert ts[0].kind != LBrace by {
      assert ts[0] == if action == [] then rest[0] else TokenOf(action[0], line);
    }
  }

  lemma InlineParts(it: Item, line: nat)
    requires it.Inline?
    ensures ItemToks(it, line) == ConditionToks(it.attr, it.op, it.value, line) + Toks(it.action, line)
    ensures Nodes(it, line)
      == [If(CondOf(it.attr, it.op, it.value), [Action(Join(Sources(it.action), " "), line, 0)], [], true, line, line)]
  {}

  lemma ReadInline(it: Item, line: nat, rest: seq<Token>)
    requires ItemOk(it) && it.Inline? && Later(rest, line + 1)
    ensures Stream(ItemToks(it, line) + rest)
    ensures ReadStmt(ItemToks(it, line) + rest) == Ok(Nodes(it, line)[0], rest)
  {
    hide *;
    ReadInlineAction(CondOf(it.attr, it.op, it.value), it.action, line, rest);
    ReadCondition(it.attr, it.op, it.value, line, Toks(it.action, line) + rest);
    InlineParts(it, line);
    Assoc(ConditionToks(it.attr, it.op, it.value, line), Toks(it.action, line), rest);
  }

  ghost predicate NotElse(rest: seq<Token>) {
    rest != [] && !(rest[0].kind == Word && rest[0].text == "else")
  }

  lemma {:induction false} ReadTail(it: Item, cond: Cond, children: seq<Node>, line: nat, mid: nat, rest: seq<Token>)
    requires ItemOk(it) && it.Branch? && Stream(rest) && (it.otherwise == [] ==> NotElse(rest))
    ensures var tail := ElseToks(it, mid) + rest;
      Stream(tail) && ReadElse(cond, children, line, mid, tail)
      == Ok(If(cond, children, AllNodes(it.otherwise, mid + 1), false, line, mid + TailLines(it)), rest)
    decreases it, 1
  {
    hide ReadStmts, TakeRest, AllToks;
    var items := it.otherwise;
    if items == [] {
      assert ElseToks(it, mid) == [];
      assert [] + rest == rest;
    } else {
      var block := AllToks(items, mid + 1) + (Close(mid + 1 + LinesAll(items)) + rest);
      ReadBlock(items, mid + 1, rest);
      var head := [Token(Word, "else", mid)] + Open(mid);
      StreamAppend(head, block);
      var tail := head + block;
      assert tail == ElseToks(it, mid) + rest;
      assert tail[2..] == block && tail[0] == head[0] && tail[1] == head[1];
    }
  }

  lemma ReadBraced(cond: Cond, line: nat, parenLine: nat, block: seq<Token>, children: seq<Node>, mid: nat,
                   tail: seq<Token>)
    requires Stream(block) && Stream(tail) && ReadStmts(block, true) == Ok((children, mid), tail)
    ensures Stream(Open(line) + block)
    ensures ReadBranches(cond, line, parenLine, Open(line) + block) == ReadElse(cond, children, line, mid, tail)
  {
    hide ReadStmts, ReadElse;
    StreamAppend(Open(line), block);
    assert (Open(line) + block)[1..] == block;
  }

  lemma BranchNode(it: Item, line: nat)
    requires it.Branch?
    ensures var mid := line + 1 + LinesAll(it.body);
      Nodes(it, line) == [If(CondOf(it.attr, it.op, it.value), AllNodes(it.body, line + 1),
                             AllNodes(it.otherwise, mid + 1), false, line, mid + TailLines(it))]
  {}

  lemma BranchOk(it: Item)
    requires ItemOk(it) && it.Branch?
    ensures ItemsOk(it.body) && ItemsOk(it.otherwise)
  {}

  lemma {:induction false} ReadBranch(it: Item, line: nat, rest: seq<Token>)
    requires ItemOk(it) && it.Branch? && Stream(rest) && (it.otherwise == [] ==> NotElse(rest))
    ensures Stream(ItemToks(it, line) + rest)
    ensures ReadStmt(ItemToks(it, line) + rest) == Ok(Nodes(it, line)[0], rest)
    decreases it, 2
  {
    hide *;
    var mid := line + 1 + LinesAll(it.body);
    var cond := CondOf(it.attr, it.op, it.value);
    var children := AllNodes(it.body, line + 1);
    var tail := ElseToks(it, mid) + rest;
    var block := AllToks(it.body, line + 1) + (Close(mid) + tail);
    var condition := ConditionToks(it.attr, it.op, it.value, line);
    BranchOk(it);
    ReadTail(it, cond, children, line, mid, rest);
    ReadBlock(it.body, line + 1, tail);
    ReadBraced(cond, line, line, block, children, mid, tail);
    ReadCondition(it.attr, it.op, it.value, line, Open(line) + block);
    BranchNode(it, line);
    BranchToks(it, line);
    TailParts(it, mid);
    Assoc5(condition, Open(line), AllToks(it.body, line + 1), TailToks(it, mid), rest);
    Assoc(Close(mid), ElseToks(it, mid), rest);
  }

  lemma TailParts(it: Item, mid: nat)
    requires it.Branch?
    ensures TailToks(it, mid) == Close(mid) + ElseToks(it, mid)
  {}

  lemma ItemFirst(it: Item, line: nat)
    requires ItemOk(it) && !it.Blank? && !it.Note?
    ensures var toks := ItemToks(it, line);
      && toks != [] && IsText(toks[0]) && toks[0].line == line
      && ((it.Line? && it.row[0].x != Bare("else")) ==> NotElse(toks))
      && ((it.Group? && it.head[0].x != Bare("else")) || it.Branch? || it.Inline? ==> NotElse(toks))
  {
    hide AllToks, RowOk, ItemsOk;
  }

  /** The first token of printed items, or what follows when they print none. */
  lemma {:induction false} FirstToken(items: seq<Item>, line: nat, rest: seq<Token>)
    requires ItemsOk(items) && Stream(rest) && (rest[0].kind == RBrace || rest[0].kind == EOF)
    ensures var ts := AllToks(items, line) + rest;
      Later(ts, line) && (!OpensWithElse(items) ==> NotElse(ts))
    decreases items
  {
    AllNoEof(items, line);
    StreamAppend(AllToks(items, line), rest);
    hide NoEof, ItemToks, ItemOk;
    if items == [] {
      assert [] + rest == rest;
    } else {
      var it := items[0];
      var ts := AllToks(items, line) + rest;
      if it.Blank? || it.Note? {
        FirstToken(items[1..], line + 1, rest);
        Silent(it, line);
        assert ts == AllToks(items[1..], line + 1) + rest;
      } else {
        ItemFirst(it, line);
        assert ts[0] == ItemToks(it, line)[0];
      }
    }
  }

  lemma {:induction false} ReadAll(items: seq<Item>, line: nat, rest: seq<Token>, untilRBrace: bool)
    requires ItemsOk(items) && Stream(rest) && (rest[0].kind == RBrace || rest[0].kind == EOF)
    ensures Stream(AllToks(items, line) + rest)
    ensures ReadStmts(AllToks(items, line) + rest, untilRBrace) ==
            PrependNodes(AllNodes(items, line), ReadStmts(rest, untilRBrace))
    decreases items, 0
  {
    hide ReadStmts, ReadStmt, PrependNodes, Stream, ItemToks, Nodes, Lines;
    AllNoEof(items, line);
    StreamAppend(AllToks(items, line), rest);
    if items == [] {
      assert [] + rest == rest;
      PrependNone(ReadStmts(rest, untilRBrace));
    } else {
      var it := items[0];
      var next := line + Lines(it);
      var more := AllToks(items[1..], next) + rest;
      ReadAll(items[1..], next, rest, untilRBrace);
      FirstToken(items[1..], next, rest);
      assert AllToks(items, line) + rest == ItemToks(it, line) + more;
      if it.Blank? || it.Note? {
        Silent(it, line);
        assert [] + more == more;
        assert [] + AllNodes(items[1..], next) == AllNodes(items[1..], next);
      } else {
        ReadItem(it, line, more);
        ReadStep(it, line, more, untilRBrace);
        PrependMany(Nodes(it, line), AllNodes(items[1..], next), ReadStmts(rest, untilRBrace));
      }
    }
  }

  lemma Silent(it: Item, line: nat)
    requires it.Blank? || it.Note?
    ensures ItemToks(it, line) == [] && Nodes(it, line) == []
  {}

  lemma PrependMany(a: seq<Node>, b: seq<Node>, r: Parsed<(seq<Node>, nat)>)
    ensures PrependNodes(a, PrependNodes(b, r)) == PrependNodes(a + b, r)
  {
    if r.Ok? {
      assert a + (b + r.value.0) == (a + b) + r.value.0;
    }
  }

  lemma ReadStep(it: Item, line: nat, more: seq<Token>, untilRBrace: bool)
    requires ItemOk(it) && !it.Blank? && !it.Note? && Stream(more) && Stream(ItemToks(it, line) + more)
    requires ReadStmt(ItemToks(it, line) + more) == Ok(Nodes(it, line)[0], more)
    ensures ReadStmts(ItemToks(it, line) + more, untilRBrace) ==
            PrependNodes(Nodes(it, line), ReadStmts(more, untilRBrace))
  {
    hide ReadStmt;
    assert Nodes(it, line) == [Nodes(it, line)[0]];
    var ts := ItemToks(it, line) + more;
    assert ts[0] == ItemToks(it, line)[0] && IsText(ts[0]);
  }

  lemma {:induction false} ReadItem(it: Item, line: nat, rest: seq<Token>)
    requires ItemOk(it) && !it.Blank? && !it.Note? && Later(rest, line + Lines(it))
    requires it.Branch? && it.otherwise == [] ==> NotElse(rest)
    ensures Stream(ItemToks(it, line) + rest)
    ensures ReadStmt(ItemToks(it, line) + rest) == Ok(Nodes(it, line)[0], rest)
    decreases it, 3
  {
    hide ReadStmt;
    match it
    case Line(row) => ReadLine(row, line, rest);
    case Group(_, _, _) => ReadGroup(it, line, rest);
    case Branch(_, _, _, _, _, _) => ReadBranch(it, line, rest);
    case Inline(_, _, _, _, _) => ReadInline(it, line, rest);
  }

  /** Printed text, tokenized and parsed, gives the nodes and the comments of the tree it was printed from. */
  lemma PrintedTree(items: seq<Item>)
    requires ItemsOk(items)
    ensures Tree(PrintAll(items)) == Good(AllNodes(items, 1))
    ensures Scan(PrintAll(items), 1).comments == AllNotes(items, 1)
  {
    hide ReadStmts;
    var s := PrintAll(items);
    var end := 1 + LinesAll(items);
    ScanAll(items, "", 1);
    assert s + "" == s;
    var eof := [Token(EOF, "", end)];
    assert Scan("", end) == Lexed(eof, []);
    assert Scan(s, 1) == Lexed(AllToks(items, 1) + eof, AllNotes(items, 1) + []);
    ReadAll(items, 1, eof, false);
    EndOfFile(eof);
    assert AllNodes(items, 1) + [] == AllNodes(items, 1);
  }

  lemma EndOfFile(eof: seq<Token>)
    requires |eof| == 1 && eof[0].kind == EOF
    ensures ReadStmts(eof, false) == Ok(([], 0), eof)
  {}
}
