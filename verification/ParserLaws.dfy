/** Texts the parser rejects, each with its error and line, and an else on one line. */
module ParserLaws {
  import opened Text
  import opened Lexer
  import opened Parser
  import opened Layout
  import opened LayoutLexing
  import opened LayoutParsing

  function Eof(line: nat): seq<Token> {
    [Token(EOF, "", line)]
  }

  lemma EofIs(line: nat)
    ensures Stream(Eof(line)) && Scan("", line) == Lexed(Eof(line), []) && Eof(line)[0] == Token(EOF, "", line)
  {}

  /** The tree of a text whose tokens are known up to a place behind which more follows. */
  lemma TreeIs(src: string, toks: seq<Token>, notes: seq<Comment>, more: string, line: nat)
    requires Scans(src, 1, toks, notes, more, line)
    ensures Stream(toks + Scan(more, line).toks)
    ensures var r := ReadStmts(toks + Scan(more, line).toks, false);
      Tree(src) == if r.Ok? then Good(r.value.0) else Bad(r.error)
  {
    hide ReadStmts, Scan;
    ScanWellFormed(src, 1);
  }

  lemma StreamOf(s: string, line: nat)
    ensures Stream(Scan(s, line).toks)
  {
    hide Scan;
    ScanWellFormed(s, line);
  }

  /** A closing brace that closes nothing, behind any statements: the error names its line. */
  lemma StrayBrace(items: seq<Item>, more: string)
    requires ItemsOk(items)
    ensures Tree(PrintAll(items) + ("}" + more)) == Bad(UnexpectedBrace(1 + LinesAll(items)))
  {
    hide *;
    var end := 1 + LinesAll(items);
    var rest := Close(end) + Scan(more, end).toks;
    ScanAll(items, "}" + more, 1);
    CloseScans(more, end);
    TreeIs(PrintAll(items) + ("}" + more), AllToks(items, 1), AllNotes(items, 1), "}" + more, end);
    ReadAll(items, 1, rest, false);
    StmtsBrace(AllNodes(items, 1), rest);
  }

  lemma CloseScans(more: string, line: nat)
    ensures var rest := Close(line) + Scan(more, line).toks;
      && Scan("}" + more, line).toks == rest && Stream(rest)
      && rest[0].kind == RBrace && rest[0].line == line
  {
    hide Scan, Scans;
    ScanMark(RBrace, "}", more, line);
    ScansToks("}" + more, line, Close(line), [], more, line);
    StreamOf(more, line);
    StreamAppend(Close(line), Scan(more, line).toks);
  }

  lemma ScansToks(s: string, line: nat, toks: seq<Token>, notes: seq<Comment>, rest: string, line': nat)
    requires Scans(s, line, toks, notes, rest, line')
    ensures Scan(s, line).toks == toks + Scan(rest, line').toks
  {
    hide Scan;
  }

  /** A block that is never closed: the error names the line on which the file ends. */
  lemma UnclosedBlock(head: Row, body: seq<Item>)
    requires RowOk(head) && Opening(head) && NoEq(Lexemes(head)) && ItemsOk(body)
    ensures Tree(PrintRow(head) + (" {\n" + PrintAll(body))) == Bad(MissingBrace(2 + LinesAll(body)))
  {
    hide *;
    var xs, end := Lexemes(head), 2 + LinesAll(body);
    var text := " {\n" + PrintAll(body);
    var block := AllToks(body, 2) + Eof(end);
    var front := Toks(xs, 1) + (Open(1) + AllToks(body, 2));
    EofIs(end);
    ScanNothing("", end);
    ScanBody(body, "", "", 1, [], [], end) by {
      assert "" + "" == "";
    }
    assert " {\n" + (PrintAll(body) + "") == text;
    ScanRow(head, text, 1) by {
      SpaceIsSoft(text);
    }
    Then(PrintRow(head) + text, 1, Toks(xs, 1), text, 1, Open(1) + (AllToks(body, 2) + []), AllNotes(body, 2) + [], "",
         end);
    assert AllToks(body, 2) + [] == AllToks(body, 2);
    TreeIs(PrintRow(head) + text, front, AllNotes(body, 2) + [], "", end);
    ReadAll(body, 2, Eof(end), true);
    StmtsEnd(AllNodes(body, 2), Eof(end));
    HeadWords(head);
    OpenFails(Sources(xs), 1, block, MissingBrace(end));
    ReadWords(xs, 1, Open(1) + block);
    Assoc4(Toks(xs, 1), Open(1), AllToks(body, 2), Eof(end));
    FirstFails(front + Eof(end), MissingBrace(end)) by {
      assert (front + Eof(end))[0] == TokenOf(xs[0], 1);
      LexemeIsText(xs[0], 1);
    }
  }

  lemma SpaceIsSoft(text: string)
    requires text != "" && text[0] == ' '
    ensures Soft(text)
  {}

  lemma HeadWords(head: Row)
    requires Opening(head)
    ensures var xs := Lexemes(head);
      xs != [] && !xs[0].Eq? && xs[0].text != "if" && |Sources(xs)| == |xs| &&
      Toks(xs, 1) != [] && Toks(xs, 1)[0] == TokenOf(xs[0], 1)
  {
    SourcesLength(Lexemes(head));
  }

  lemma LexemeIsText(x: Lexeme, line: nat)
    requires !x.Eq?
    ensures IsText(TokenOf(x, line))
  {}

  lemma OpenFails(words: seq<string>, line: nat, block: seq<Token>, e: ParseError)
    requires words != [] && Stream(block) && ReadStmts(block, true) == Err(e)
    ensures var after := Open(line) + block;
      Stream(after) && !IsText(after[0]) && ReadAfterWords(line, words, after) == Err(e)
  {
    hide ReadStmts, TakeRest;
    StreamAppend(Open(line), block);
    assert (Open(line) + block)[1..] == block;
  }

  lemma FirstFails(ts: seq<Token>, e: ParseError)
    requires Stream(ts) && IsText(ts[0]) && ReadStmt(ts) == Err(e)
    ensures ReadStmts(ts, false) == Err(e)
  {
    hide ReadStmt;
  }

  // ---------------------------------------------------------------- tokens out of place

  lemma {:induction false} MarkScans(kind: Kind, text: string, more: string, line: nat)
    requires (kind, text) in {(LBrace, "{"), (RBrace, "}"), (LParen, "("), (RParen, ")")}
    ensures var ts := [Token(kind, text, line)] + Scan(more, line).toks;
      Scan(text + more, line).toks == ts && Stream(ts) && ts[0] == Token(kind, text, line)
  {
    hide Scan, Scans;
    ScanMark(kind, text, more, line);
    ScansToks(text + more, line, [Token(kind, text, line)], [], more, line);
    StreamOf(more, line);
    StreamAppend([Token(kind, text, line)], Scan(more, line).toks);
  }

  /** A brace or a parenthesis where a statement should start. */
  lemma StrayMark(kind: Kind, text: string, more: string)
    requires (kind, text) in {(LBrace, "{"), (LParen, "("), (RParen, ")")}
    ensures Tree(text + more) == Bad(UnexpectedToken(1, text))
  {
    hide *;
    MarkScans(kind, text, more, 1);
    ScanNothing(text + more, 1);
    assert "" + (text + more) == text + more;
    TreeIs(text + more, [], [], text + more, 1);
    var ts := [Token(kind, text, 1)] + Scan(more, 1).toks;
    assert [] + ts == ts;
    MarkFails(ts, kind, text);
  }

  lemma MarkFails(ts: seq<Token>, kind: Kind, text: string)
    requires Stream(ts) && ts[0] == Token(kind, text, 1) && kind in {LBrace, LParen, RParen}
    ensures ReadStmts(ts, false) == Err(UnexpectedToken(1, text))
  {}

  lemma IfFails(ts: seq<Token>, line: nat, e: ParseError)
    requires Stream(ts) && |ts| > 1 && ts[0] == Token(Word, "if", line) && ReadIf(ts[1..], line) == Err(e)
    ensures ReadStmts(ts, false) == Err(e)
  {
    hide ReadIf;
    FirstFails(ts, e);
  }

  /** What is wrong with the tokens behind the word if: an opening parenthesis is asked for, */
  lemma ParenMissing(ts: seq<Token>, line: nat)
    requires Stream(ts) && ts[0] == Token(Word, "if", line) && ts[1].kind != LParen
    ensures ReadStmts(ts, false) == Err(Expected(ts[1].line, "'('", ts[1].text))
  {
    hide ReadBranches, TakeValue, ReadStmts;
    IfFails(ts, line, Expected(ts[1].line, "'('", ts[1].text));
  }

  /** a word for the attribute, */
  lemma AttributeMissing(ts: seq<Token>, line: nat)
    requires Stream(ts) && ts[0] == Token(Word, "if", line) && ts[1].kind == LParen && ts[2].kind != Word
    ensures ReadStmts(ts, false) == Err(Expected(ts[2].line, "condition attribute", ts[2].text))
  {
    hide ReadBranches, TakeValue, ReadStmts;
    IfFails(ts, line, Expected(ts[2].line, "condition attribute", ts[2].text));
  }

  /** one for the operator, */
  lemma OperatorMissing(ts: seq<Token>, line: nat)
    requires Stream(ts) && ts[0] == Token(Word, "if", line) && ts[1].kind == LParen && ts[2].kind == Word
    requires ts[3].kind != Word
    ensures ReadStmts(ts, false) == Err(Expected(ts[3].line, "condition operator", ts[3].text))
  {
    hide ReadBranches, TakeValue, ReadStmts;
    IfFails(ts, line, Expected(ts[3].line, "condition operator", ts[3].text));
  }

  /** and somewhere behind them a closing parenthesis. */
  lemma ParenUnclosed(ts: seq<Token>, line: nat)
    requires Stream(ts) && ts[0] == Token(Word, "if", line) && ts[1].kind == LParen && ts[2].kind == Word
    requires ts[3].kind == Word && forall t :: t in ts ==> t.kind != RParen
    ensures ReadStmts(ts, false) == Err(Expected(ts[|ts| - 1].line, "')'", ts[|ts| - 1].text))
  {
    hide ReadBranches, TakeValue, ReadStmts;
    ValueToEnd(ts[4..]);
    assert ts[1..][1..] == ts[2..] && ts[2..][1..] == ts[3..] && ts[3..][1..] == ts[4..];
    IfFails(ts, line, Expected(ts[|ts| - 1].line, "')'", ts[|ts| - 1].text));
  }

  lemma {:induction false} ValueToEnd(ts: seq<Token>)
    requires Stream(ts) && forall t :: t in ts ==> t.kind != RParen
    ensures TakeValue(ts).rest == [ts[|ts| - 1]]
  {
    if ts[0].kind != EOF {
      ValueToEnd(ts[1..]);
    }
  }

  // ---------------------------------------------------------------- an else on one line

  /** An else with an action on its own line: the action is the condition's else part, without a line for its end. */
  lemma InlineElse(attr: string, op: string, value: seq<Lexeme>, body: seq<Item>, action: seq<Lexeme>)
    requires BareOk(attr) && BareOk(op) && LexemesOk(value) && ItemsOk(body) && LexemesOk(action)
    ensures var mid := 2 + LinesAll(body); var words := PrintRow(Spaced(0, action)) + "\n";
            var otherwise := [Action(Join(Sources(action), " "), mid, 0)];
      Tree(Condition(attr, op, value) + (" {\n" + (PrintAll(body) + ("} else " + words)))) ==
      Good([If(CondOf(attr, op, value), AllNodes(body, 2), otherwise, false, 1, mid)])
  {
    hide *;
    var mid := 2 + LinesAll(body);
    var words := PrintRow(Spaced(0, action)) + "\n";
    var tail := "} else " + words;
    var r := " {\n" + (PrintAll(body) + tail);
    var back := Close(mid) + ([Token(Word, "else", mid)] + Toks(action, mid));
    var toks := Open(1) + (AllToks(body, 2) + back);
    var condition := ConditionToks(attr, op, value, 1);
    var cond := CondOf(attr, op, value);
    ElseScans(action, mid);
    ScanBody(body, tail, "", 1, back, [], mid + 1);
    ScanCondition(attr, op, value, r, 1);
    Then(Condition(attr, op, value) + r, 1, condition, r, 1, toks, AllNotes(body, 2) + [], "", mid + 1);
    TreeIs(Condition(attr, op, value) + r, condition + toks, AllNotes(body, 2) + [], "", mid + 1);
    EofIs(mid + 1);
    var eof := Eof(mid + 1);
    var last := [Token(Word, "else", mid)] + (Toks(action, mid) + eof);
    var block := AllToks(body, 2) + (Close(mid) + last);
    var n := If(cond, AllNodes(body, 2), [Action(Join(Sources(action), " "), mid, 0)], false, 1, mid);
    ElseReads(cond, AllNodes(body, 2), action, 1, mid, mid, eof) by {
      EofLater(mid + 1);
    }
    ReadBlock(body, 2, last);
    ReadBraced(cond, 1, 1, block, AllNodes(body, 2), mid, last);
    ReadCondition(attr, op, value, 1, Open(1) + block);
    Assoc(condition, toks, eof);
    Assoc4(Open(1), AllToks(body, 2), back, eof);
    ElseToksAre(mid, action, eof);
    OneStmt(condition + (Open(1) + block), n, eof) by {
      ConditionFirst(attr, op, value, Open(1) + block);
    }
  }

  lemma ConditionFirst(attr: string, op: string, value: seq<Lexeme>, rest: seq<Token>)
    ensures IsText((ConditionToks(attr, op, value, 1) + rest)[0])
  {}

  lemma ElseToksAre(mid: nat, action: seq<Lexeme>, eof: seq<Token>)
    ensures Close(mid) + ([Token(Word, "else", mid)] + Toks(action, mid)) + eof ==
            Close(mid) + ([Token(Word, "else", mid)] + (Toks(action, mid) + eof))
  {}

  lemma ElseScans(action: seq<Lexeme>, mid: nat)
    requires LexemesOk(action)
    ensures Scans("} else " + (PrintRow(Spaced(0, action)) + "\n"), mid,
                  Close(mid) + ([Token(Word, "else", mid)] + Toks(action, mid)), [], "", mid + 1)
  {
    hide *;
    var words := PrintRow(Spaced(0, action)) + "\n";
    var r1 := " " + words;
    var r2 := "else" + r1;
    SpacedOk(0, action);
    ScanRow(Spaced(0, action), "\n", mid) by {
      BreakIsSoft();
    }
    assert "\n" + "" == "\n";
    EndLine(words, mid, Toks(action, mid), "");
    AfterBlank(words, mid, Toks(action, mid), [], "", mid + 1);
    ScanElseWord(r1, mid);
    Then(r2, mid, [Token(Word, "else", mid)], r1, mid, Toks(action, mid), [], "", mid + 1);
    AfterBlank(r2, mid, [Token(Word, "else", mid)] + Toks(action, mid), [], "", mid + 1);
    ScanMark(RBrace, "}", " " + r2, mid);
    CloseIs(mid);
    Then("}" + (" " + r2), mid, Close(mid), " " + r2, mid, [Token(Word, "else", mid)] + Toks(action, mid), [], "",
         mid + 1);
    assert "}" + (" " + ("else" + (" " + words))) == "} else " + words;
  }

  lemma CloseIs(line: nat)
    ensures Close(line) == [Token(RBrace, "}", line)]
  {}

  lemma BreakIsSoft()
    ensures Soft("\n")
  {}

  lemma ScanElseWord(rest: string, line: nat)
    requires rest != "" && rest[0] == ' '
    ensures Scans("else" + rest, line, [Token(Word, "else", line)], [], rest, line)
  {
    hide Scan, Scans;
    ScanLexeme(Bare("else"), rest, line);
  }

  lemma EofLater(line: nat)
    ensures Later(Eof(line), line)
  {}

  /** An action behind an else goes as far as the line of the else; the condition ends where its block does. */
  lemma ElseReads(cond: Cond, children: seq<Node>, action: seq<Lexeme>, line: nat, endLine: nat, elseLine: nat,
                  rest: seq<Token>)
    requires Later(rest, elseLine + 1)
    ensures var ts := [Token(Word, "else", elseLine)] + (Toks(action, elseLine) + rest);
            var otherwise := [Action(Join(Sources(action), " "), elseLine, 0)];
      && Stream(ts)
      && ReadElse(cond, children, line, endLine, ts) ==
         Ok(If(cond, children, otherwise, false, line, endLine), rest)
  {
    hide ReadStmts, TakeRest;
    var ts := [Token(Word, "else", elseLine)] + (Toks(action, elseLine) + rest);
    TakeRestOf(action, elseLine, rest);
    StreamAppend([Token(Word, "else", elseLine)], Toks(action, elseLine) + rest);
    assert ts[1..] == Toks(action, elseLine) + rest;
    assert ts[1] == if action == [] then rest[0] else TokenOf(action[0], elseLine);
  }

  lemma OneStmt(ts: seq<Token>, n: Node, eof: seq<Token>)
    requires Stream(ts) && IsText(ts[0]) && Stream(eof) && |eof| == 1 && ReadStmt(ts) == Ok(n, eof)
    ensures ReadStmts(ts, false) == Ok(([n], 0), eof)
  {
    hide ReadStmt;
    EndOfFile(eof);
    assert [n] + [] == [n];
  }

  // ---------------------------------------------------------------- conditions over several lines

  /** The tokens of a condition that need not stand on one line. */
  function Scattered(attr: Token, op: Token, value: seq<Lexeme>, valueLine: nat, line: nat, openLine: nat,
                     closeLine: nat): seq<Token>
  {
    [Token(Word, "if", line), Token(LParen, "(", openLine), attr, op] +
    (Toks(value, valueLine) + [Token(RParen, ")", closeLine)])
  }

  lemma ScatteredReads(attr: Token, op: Token, value: seq<Lexeme>, valueLine: nat, line: nat, openLine: nat,
                       closeLine: nat, rest: seq<Token>)
    requires Stream(rest) && attr.kind == Word && op.kind == Word
    ensures var ts := Scattered(attr, op, value, valueLine, line, openLine, closeLine) + rest;
      Stream(ts) && ReadStmt(ts) == ReadBranches(CondOf(attr.text, op.text, value), line, closeLine, rest)
  {
    hide ReadBranches, ReadAfterWords, TakeWords, ReadToken, TakeValue, Stream;
    var rp, lp := Token(RParen, ")", closeLine), Token(LParen, "(", openLine);
    var r4 := [rp] + rest;
    ReadFixed(rp, "')'", rest);
    assert r4[0] == rp;
    TakeValueOf(value, valueLine, r4);
    var r3 := Toks(value, valueLine) + r4;
    ReadFixed(op, "condition operator", r3);
    ReadFixed(attr, "condition attribute", [op] + r3);
    ReadFixed(lp, "'('", [attr] + ([op] + r3));
    var r := [lp] + ([attr] + ([op] + r3));
    assert ReadIf(r, line) == ReadBranches(CondOf(attr.text, op.text, value), line, closeLine, rest) by {
      assert AnyQuoted(value) == CondOf(attr.text, op.text, value).quoted;
    }
    ReadFixed(Token(Word, "if", line), "", r);
    var ts := [Token(Word, "if", line)] + r;
    assert ts == Scattered(attr, op, value, valueLine, line, openLine, closeLine) + rest;
    assert ts[1..] == r;
  }

  /** An inline action goes as far as the line of the closing parenthesis, and that is its line and the condition's
      last; the condition's first is that of its if. */
  lemma InlineScattered(attr: Token, op: Token, value: seq<Lexeme>, valueLine: nat, line: nat, openLine: nat,
                        closeLine: nat, action: seq<Lexeme>, rest: seq<Token>)
    requires attr.kind == Word && op.kind == Word && action != [] && Later(rest, closeLine + 1)
    ensures var condition := Scattered(attr, op, value, valueLine, line, openLine, closeLine);
            var ts := condition + (Toks(action, closeLine) + rest);
            var body := [Action(Join(Sources(action), " "), closeLine, 0)];
      && Stream(ts)
      && ReadStmt(ts) == Ok(If(CondOf(attr.text, op.text, value), body, [], true, line, closeLine), rest)
  {
    hide ReadStmts, ReadStmt, TakeRest, Scattered, Sources, CondOf;
    TakeRestOf(action, closeLine, rest);
    ScatteredReads(attr, op, value, valueLine, line, openLine, closeLine, Toks(action, closeLine) + rest);
    hide Stream;
    assert (Toks(action, closeLine) + rest)[0] == TokenOf(action[0], closeLine);
  }

  /** An assignment whose equal sign stands on a later line takes its value from that line, and ends there. */
  lemma AssignScattered(xs: seq<Lexeme>, vs: seq<Lexeme>, line: nat, valueLine: nat, rest: seq<Token>)
    requires xs != [] && NoEq(xs) && xs[0].text != "if" && Later(rest, valueLine + 1)
    ensures var after := [Token(Equals, "=", valueLine)] + (Toks(vs, valueLine) + rest);
      && Stream(Toks(xs, line) + after)
      && ReadStmt(Toks(xs, line) + after) ==
         Ok(Assign(Join(Sources(xs), " "), Join(Sources(vs), " "), line, valueLine), rest)
  {
    hide ReadStmts, ReadStmt, TakeRest, Sources;
    var after := [Token(Equals, "=", valueLine)] + (Toks(vs, valueLine) + rest);
    TakeRestOf(vs, valueLine, rest);
    StreamAppend([Token(Equals, "=", valueLine)], Toks(vs, valueLine) + rest);
    assert after[1..] == Toks(vs, valueLine) + rest;
    SourcesLength(xs);
    ReadWords(xs, line, after);
  }

  // ---------------------------------------------------------------- words, blanks and comments

  /** A bare word ends at a blank, a line end, a quote, a number sign, a brace, a parenthesis or an equal sign. */
  lemma Delimiters(c: char)
    ensures IsDelim(c) <==>
            c == ' ' || c == '\t' || c == '\r' || c == '\n' || c == '"' || c == '#' || c == '{' || c == '}' ||
            c == '(' || c == ')' || c == '='
  {}

  /** Blanks between tokens do not matter, and a newline only to the line numbers. */
  lemma BlanksSkipped(s: string, line: nat)
    ensures Scan(" " + s, line) == Scan("\t" + s, line) == Scan("\r" + s, line) == Scan(s, line)
    ensures Scan("\n" + s, line) == Scan(s, line + 1)
  {
    assert (" " + s)[1..] == s && ("\t" + s)[1..] == s && ("\r" + s)[1..] == s && ("\n" + s)[1..] == s;
  }

  /** The three operators are words of two characters; an equal sign before anything else is one of its own. */
  lemma Operators(s: string)
    ensures FirstStep("==" + s) == Emit(Word, "==", 2) && FirstStep("=~" + s) == Emit(Word, "=~", 2)
    ensures FirstStep("!=" + s) == Emit(Word, "!=", 2)
    ensures (s == "" || (s[0] != '=' && s[0] != '~')) ==> FirstStep("=" + s) == Emit(Equals, "=", 1)
  {
    assert ("==" + s)[..2] == "==" && ("=~" + s)[..2] == "=~";
  }

  predicate Hashes(s: string) {
    s != "" && forall i :: 0 <= i < |s| ==> s[i] == '#'
  }

  lemma {:induction false} HashesDropped(hashes: string, text: string)
    requires (forall i :: 0 <= i < |hashes| ==> hashes[i] == '#') && (text == "" || text[0] != '#')
    ensures DropHashes(hashes + text) == text
  {
    var s := hashes + text;
    if hashes == "" {
      assert s == text;
    } else {
      assert s[0] == hashes[0] && s[1..] == hashes[1..] + text;
      HashesDropped(hashes[1..], text);
    }
  }

  /** A comment runs to the end of its line; its text is what stands behind its number signs, without white space around
      it. */
  lemma CommentRead(hashes: string, text: string, rest: string, line: nat)
    requires Hashes(hashes) && (text == "" || text[0] != '#') && '\n' !in text
    ensures var l := Scan(rest, line + 1);
      Scan(hashes + text + ("\n" + rest), line) == Lexed(l.toks, [Comment(Trim(text), line)] + l.comments)
  {
    hide Trim;
    var whole := hashes + text;
    var s := whole + ("\n" + rest);
    assert s[0] == hashes[0];
    forall i | 0 <= i < |whole| ensures s[i] != '\n' {
      assert s[i] == if i < |hashes| then hashes[i] else text[i - |hashes|];
    }
    LineLenAt(s, |whole|);
    assert s[|whole|..] == "\n" + rest && s[..|whole|] == whole;
    HashesDropped(hashes, text);
    assert FirstStep(s) == Remark(Trim(text), |whole|);
    hide FirstStep;
    BlanksSkipped(rest, line);
  }
}
