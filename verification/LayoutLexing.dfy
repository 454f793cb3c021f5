/** Tokenizing printed text yields the tokens and the comments of the tree, on the lines it was printed on. */
module LayoutLexing {
  import opened Text
  import opened Lexer
  import opened Layout

  /** Scanning s from one line yields these tokens and comments, and goes on with rest on another line. */
  ghost predicate Scans(s: string, line: nat, toks: seq<Token>, notes: seq<Comment>, rest: string, line': nat) {
    Scan(s, line) == Prepend(toks, notes, Scan(rest, line'))
  }

  lemma Chain(s: string, l: nat, t1: seq<Token>, n1: seq<Comment>, r1: string, l1: nat,
              t2: seq<Token>, n2: seq<Comment>, r2: string, l2: nat)
    requires Scans(s, l, t1, n1, r1, l1) && Scans(r1, l1, t2, n2, r2, l2)
    ensures Scans(s, l, t1 + t2, n1 + n2, r2, l2)
  {
    hide Scan;
    var x := Scan(r2, l2);
    assert t1 + (t2 + x.toks) == (t1 + t2) + x.toks;
    assert n1 + (n2 + x.comments) == (n1 + n2) + x.comments;
  }

  /** Text before which a bare word ends. */
  predicate Soft(rest: string) {
    rest == "" || rest[0] == ' ' || rest[0] == '\n' || rest[0] == ')'
  }

  lemma {:induction false} BareLen(w: string, rest: string)
    requires forall c | c in w :: !IsDelim(c)
    requires Soft(rest)
    ensures WordLen(w + rest) == |w|
  {
    var s := w + rest;
    forall i | 0 <= i < |w| ensures !IsDelim(s[i]) {
      assert s[i] in w;
    }
    WordLenAt(s, |w|);
    assert s[|w|..] == rest;
  }

  lemma {:induction false} QuoteLen(q: string, rest: string)
    requires QuoteSafe(q)
    ensures QuotedLen(q + "\"" + rest) == |q|
    decreases |q|
  {
    var s := q + "\"" + rest;
    if q == "" {
    } else if q[0] == '\\' {
      QuoteLen(q[2..], rest);
      assert s[2..] == q[2..] + "\"" + rest;
    } else {
      QuoteLen(q[1..], rest);
      assert s[1..] == q[1..] + "\"" + rest;
    }
  }

  lemma FirstOfBare(w: string, rest: string)
    requires BareOk(w) && Soft(rest)
    ensures FirstStep(w + rest) == Emit(Word, w, |w|)
  {
    var s := w + rest;
    if w == "==" || w == "!=" || w == "=~" {
      assert s[0] == w[0] && s[1] == w[1] && s[..2] == w;
    } else {
      BareLen(w, rest);
      assert s[0] == w[0] && w[0] in w && !IsDelim(s[0]);
      if |w| > 1 {
        assert s[1] == w[1] && w[1] in w && !IsDelim(s[1]);
      }
      assert s[..|w|] == w;
    }
  }

  lemma FirstOfQuoted(q: string, rest: string)
    requires QuoteSafe(q)
    ensures FirstStep("\"" + q + "\"" + rest) == Emit(Str, q, |q| + 2)
  {
    hide QuotedLen, QuoteSafe, WordLen, LineLen;
    var s := "\"" + q + "\"" + rest;
    assert s[0] == '"';
    assert s[1..] == q + "\"" + rest;
    QuoteLen(q, rest);
    assert s[1..|q| + 1] == q;
  }

  lemma FirstOfLexeme(x: Lexeme, rest: string)
    requires LexemeOk(x) && Soft(rest)
    ensures var t := TokenOf(x, 0); FirstStep(Source(x) + rest) == Emit(t.kind, t.text, |Source(x)|)
  {
    match x
    case Bare(w) => FirstOfBare(w, rest);
    case Quoted(q) =>
      hide FirstStep;
      FirstOfQuoted(q, rest);
    case Eq =>
  }

  lemma ScanLexeme(x: Lexeme, rest: string, line: nat)
    requires LexemeOk(x) && Soft(rest)
    ensures Scans(Source(x) + rest, line, [TokenOf(x, line)], [], rest, line)
  {
    hide FirstStep;
    var s := Source(x) + rest;
    FirstOfLexeme(x, rest);
    assert Source(x) != "";
    assert Drop(s, |Source(x)|) == rest;
    assert [] + Scan(rest, line).comments == Scan(rest, line).comments;
  }

  lemma {:induction false} ScanSpaces(n: nat, rest: string, line: nat)
    ensures Scans(Spaces(n) + rest, line, [], [], rest, line)
  {
    var l := Scan(rest, line);
    assert Prepend([], [], l) == l;
    if n == 0 {
      assert Spaces(0) + rest == rest;
    } else {
      ScanSpaces(n - 1, rest, line);
      assert Spaces(n) + rest == " " + (Spaces(n - 1) + rest);
    }
  }

  lemma {:induction false} ScanRow(row: Row, rest: string, line: nat)
    requires RowOk(row) && Soft(rest)
    ensures Scans(PrintRow(row) + rest, line, Toks(Lexemes(row), line), [], rest, line)
    decreases row
  {
    hide Scan;
    if row == [] {
      assert "" + rest == rest;
      assert Prepend([], [], Scan(rest, line)) == Scan(rest, line);
    } else {
      var x := row[0].x;
      var more := PrintRow(row[1..]) + rest;
      assert Soft(more) by {
        if |row| > 1 {
          assert more[0] == Spaces(row[1].gap)[0];
        }
      }
      ScanRow(row[1..], rest, line);
      ScanLexeme(x, more, line);
      ScanSpaces(row[0].gap, Source(x) + more, line);
      assert PrintRow(row) + rest == Spaces(row[0].gap) + (Source(x) + more);
      Chain(Source(x) + more, line, [TokenOf(x, line)], [], more, line, Toks(Lexemes(row[1..]), line), [], rest, line);
      assert [TokenOf(x, line)] + Toks(Lexemes(row[1..]), line) == Toks(Lexemes(row), line);
      Chain(PrintRow(row) + rest, line, [], [], Source(x) + more, line, Toks(Lexemes(row), line), [], rest, line);
    }
  }

  /** One structural character, or the two of a line end. */
  lemma ScanMark(kind: Kind, text: string, rest: string, line: nat)
    requires (kind, text) in {(LBrace, "{"), (RBrace, "}"), (LParen, "("), (RParen, ")")}
    ensures Scans(text + rest, line, [Token(kind, text, line)], [], rest, line)
  {
    var s := text + rest;
    assert FirstStep(s) == Emit(kind, text, 1);
    hide FirstStep;
    assert Drop(s, 1) == rest;
    assert [] + Scan(rest, line).comments == Scan(rest, line).comments;
  }

  lemma ScanBreak(rest: string, line: nat)
    ensures Scans("\n" + rest, line, [], [], rest, line + 1)
  {
    assert ("\n" + rest)[1..] == rest;
    var l := Scan(rest, line + 1);
    assert Prepend([], [], l) == l;
  }

  // Ways of putting scans together.

  lemma Then(s: string, l: nat, t1: seq<Token>, r1: string, l1: nat, t2: seq<Token>, n2: seq<Comment>, r2: string,
             l2: nat)
    requires Scans(s, l, t1, [], r1, l1) && Scans(r1, l1, t2, n2, r2, l2)
    ensures Scans(s, l, t1 + t2, n2, r2, l2)
  {
    hide Scan, Scans, Prepend;
    Chain(s, l, t1, [], r1, l1, t2, n2, r2, l2);
    assert [] + n2 == n2;
  }

  lemma Indented(n: nat, s: string, line: nat, toks: seq<Token>, notes: seq<Comment>, rest: string, line': nat)
    requires Scans(s, line, toks, notes, rest, line')
    ensures Scans(Spaces(n) + s, line, toks, notes, rest, line')
  {
    hide Scan, Scans, Prepend;
    ScanSpaces(n, s, line);
    Then(Spaces(n) + s, line, [], s, line, toks, notes, rest, line');
    assert [] + toks == toks;
  }

  lemma AfterBlank(s: string, line: nat, toks: seq<Token>, notes: seq<Comment>, rest: string, line': nat)
    requires Scans(s, line, toks, notes, rest, line')
    ensures Scans(" " + s, line, toks, notes, rest, line')
  {
    hide Scan, Scans, Prepend;
    Indented(1, s, line, toks, notes, rest, line');
    assert Spaces(1) == " ";
  }

  lemma EndLine(s: string, line: nat, toks: seq<Token>, rest: string)
    requires Scans(s, line, toks, [], "\n" + rest, line)
    ensures Scans(s, line, toks, [], rest, line + 1)
  {
    hide Scan, Scans, Prepend;
    ScanBreak(rest, line);
    Then(s, line, toks, "\n" + rest, line, [], [], rest, line + 1);
    assert toks + [] == toks;
  }

  lemma ScanCommentLine(text: string, rest: string, line: nat)
    requires Trimmed(text) && '\n' !in text
    ensures Scans("# " + (text + ("\n" + rest)), line, [], [Comment(text, line)], rest, line + 1)
  {
    var whole := "# " + text;
    var more := "\n" + rest;
    var s := whole + more;
    assert s == "# " + (text + more);
    forall i | 0 <= i < |whole| ensures whole[i] != '\n' {
      if i >= 2 {
        assert whole[i] == text[i - 2] && text[i - 2] in text;
      }
    }
    LineLenAt(s, |whole|);
    assert s[..|whole|] == whole && s[|whole|..] == more;
    assert DropHashes(whole) == " " + text by {
      assert whole[1..] == " " + text;
      assert (" " + text)[0] == ' ';
    }
    TrimBlank(text);
    assert FirstStep(s) == Remark(text, |whole|);
    ScanBreak(rest, line);
    assert Drop(s, |whole|) == more;
    var l := Scan(rest, line + 1);
    assert Scan(more, line) == l by {
      assert Prepend([], [], l) == l;
    }
    assert [] + l.toks == l.toks;
  }

  lemma TrimBlank(text: string)
    requires Trimmed(text)
    ensures Trim(" " + text) == text
  {
    assert (" " + text)[1..] == text;
    assert TrimLeft(text) == text;
    assert TrimLeft(" " + text) == text;
  }

  lemma ScanTwoWords(a: string, b: string, rest: string, line: nat)
    requires BareOk(a) && BareOk(b)
    ensures Scans(a + (" " + (b + (" " + rest))), line, [Token(Word, a, line), Token(Word, b, line)], [], " " + rest,
                  line)
  {
    hide Scan, Scans, Prepend;
    var r := b + (" " + rest);
    ScanLexeme(Bare(b), " " + rest, line);
    AfterBlank(r, line, [Token(Word, b, line)], [], " " + rest, line);
    ScanLexeme(Bare(a), " " + r, line);
    assert [Token(Word, a, line)] + [Token(Word, b, line)] == [Token(Word, a, line), Token(Word, b, line)];
    Then(a + (" " + r), line, [Token(Word, a, line)], " " + r, line, [Token(Word, b, line)], [], " " + rest, line);
  }

  lemma ScanIfOpen(rest: string, line: nat)
    ensures Scans("if (" + rest, line, [Token(Word, "if", line), Token(LParen, "(", line)], [], rest, line)
  {
    hide Scan, Scans, Prepend;
    var r := "(" + rest;
    ScanMark(LParen, "(", rest, line);
    AfterBlank(r, line, [Token(LParen, "(", line)], [], rest, line);
    ScanLexeme(Bare("if"), " " + r, line);
    assert [Token(Word, "if", line)] + [Token(LParen, "(", line)] ==
      [Token(Word, "if", line), Token(LParen, "(", line)];
    Then("if" + (" " + r), line, [Token(Word, "if", line)], " " + r, line, [Token(LParen, "(", line)], [], rest, line);
    assert "if (" + rest == "if" + (" " + r);
  }

  lemma ScanCondition(attr: string, op: string, value: seq<Lexeme>, rest: string, line: nat)
    requires BareOk(attr) && BareOk(op) && LexemesOk(value)
    ensures Scans(Condition(attr, op, value) + rest, line, ConditionToks(attr, op, value, line), [], rest, line)
  {
    hide Scan, Scans, Prepend;
    var row := Spaced(0, value);
    SpacedOk(0, value);
    var r3 := ")" + rest;
    var r2 := PrintRow(row) + r3;
    var r1 := attr + (" " + (op + (" " + r2)));
    var rp := [Token(RParen, ")", line)];
    var words := [Token(Word, attr, line), Token(Word, op, line)];
    var open := [Token(Word, "if", line), Token(LParen, "(", line)];
    ScanMark(RParen, ")", rest, line);
    ScanRow(row, r3, line);
    Then(r2, line, Toks(value, line), r3, line, rp, [], rest, line);
    AfterBlank(r2, line, Toks(value, line) + rp, [], rest, line);
    ScanTwoWords(attr, op, r2, line);
    Then(r1, line, words, " " + r2, line, Toks(value, line) + rp, [], rest, line);
    ScanIfOpen(r1, line);
    Then("if (" + r1, line, open, r1, line, words + (Toks(value, line) + rp), [], rest, line);
    assert Condition(attr, op, value) + rest == "if (" + r1;
    assert open + (words + (Toks(value, line) + rp)) == ConditionToks(attr, op, value, line);
  }

  /** A closing brace on its own line. */
  lemma ScanClose(indent: nat, rest: string, line: nat)
    ensures Scans(Spaces(indent) + ("}\n" + rest), line, Close(line), [], rest, line + 1)
  {
    hide Scan, Scans, Prepend;
    ScanMark(RBrace, "}", "\n" + rest, line);
    assert "}\n" + rest == "}" + ("\n" + rest);
    EndLine("}\n" + rest, line, Close(line), rest);
    Indented(indent, "}\n" + rest, line, Close(line), [], rest, line + 1);
  }

  /** A brace that opens a block, at the end of a line. */
  lemma ScanOpen(rest: string, line: nat)
    ensures Scans(" {\n" + rest, line, Open(line), [], rest, line + 1)
  {
    hide Scan, Scans, Prepend;
    ScanMark(LBrace, "{", "\n" + rest, line);
    EndLine("{" + ("\n" + rest), line, Open(line), rest);
    AfterBlank("{" + ("\n" + rest), line, Open(line), [], rest, line + 1);
    assert " " + ("{" + ("\n" + rest)) == " {\n" + rest;
  }

  /** The line between the two branches of a condition. */
  lemma ScanElse(indent: nat, rest: string, line: nat)
    ensures Scans(Spaces(indent) + ("} else {\n" + rest), line,
                  Close(line) + ([Token(Word, "else", line)] + Open(line)), [], rest, line + 1)
  {
    hide Scan, Scans, Prepend;
    var r1 := " {\n" + rest;
    var r2 := "else" + r1;
    var word := [Token(Word, "else", line)];
    ScanOpen(rest, line);
    ScanLexeme(Bare("else"), r1, line);
    Then(r2, line, word, r1, line, Open(line), [], rest, line + 1);
    AfterBlank(r2, line, word + Open(line), [], rest, line + 1);
    ScanMark(RBrace, "}", " " + r2, line);
    Then("}" + (" " + r2), line, Close(line), " " + r2, line, word + Open(line), [], rest, line + 1);
    assert "}" + (" " + r2) == "} else {\n" + rest;
    Indented(indent, "} else {\n" + rest, line, Close(line) + (word + Open(line)), [], rest, line + 1);
  }

  // Statements, by induction on the tree.

  lemma {:induction false} ScanBody(items: seq<Item>, tail: string, rest: string, line: nat, toks: seq<Token>,
                                    notes: seq<Comment>, last: nat)
    requires ItemsOk(items)
    requires Scans(tail, line + 1 + LinesAll(items), toks, notes, rest, last)
    ensures Scans(" {\n" + (PrintAll(items) + tail), line, Open(line) + (AllToks(items, line + 1) + toks),
                  AllNotes(items, line + 1) + notes, rest, last)
    decreases items, 2
  {
    hide Scan, Scans, Prepend;
    var text := PrintAll(items) + tail;
    ScanAll(items, tail, line + 1);
    Chain(text, line + 1, AllToks(items, line + 1), AllNotes(items, line + 1), tail, line + 1 + LinesAll(items), toks,
          notes, rest, last);
    ScanOpen(text, line);
    Then(" {\n" + text, line, Open(line), text, line + 1, AllToks(items, line + 1) + toks,
         AllNotes(items, line + 1) + notes, rest, last);
  }

  lemma ScanNothing(rest: string, line: nat)
    ensures Scans("" + rest, line, [], [], rest, line)
  {
    assert "" + rest == rest;
    assert Prepend([], [], Scan(rest, line)) == Scan(rest, line);
  }

  lemma {:induction false} ScanAll(items: seq<Item>, rest: string, line: nat)
    requires ItemsOk(items)
    ensures Scans(PrintAll(items) + rest, line, AllToks(items, line), AllNotes(items, line), rest,
                  line + LinesAll(items))
    decreases items, 0
  {
    hide Scan, Scans, Prepend;
    if items == [] {
      ScanNothing(rest, line);
    } else {
      var it := items[0];
      var more := PrintAll(items[1..]) + rest;
      var next := line + Lines(it);
      ScanAll(items[1..], rest, next);
      ScanItem(it, more, line);
      hide ItemToks, ItemNotes, Print, Lines;
      assert PrintAll(items) + rest == Print(it) + more;
      Chain(Print(it) + more, line, ItemToks(it, line), ItemNotes(it, line), more, next,
            AllToks(items[1..], next), AllNotes(items[1..], next), rest, line + LinesAll(items));
    }
  }

  ghost predicate ItemScans(it: Item, rest: string, line: nat) {
    Scans(Print(it) + rest, line, ItemToks(it, line), ItemNotes(it, line), rest, line + Lines(it))
  }

  lemma {:induction false} ScanItem(it: Item, rest: string, line: nat)
    requires ItemOk(it)
    ensures ItemScans(it, rest, line)
    decreases it, 3
  {
    hide ItemScans;
    match it
    case Blank => ScanBlankLine(rest, line);
    case Note(_, _) => ScanNote(it, rest, line);
    case Line(_) => ScanLine(it, rest, line);
    case Group(_, _, _) => ScanGroup(it, rest, line);
    case Branch(_, _, _, _, _, _) => ScanBranch(it, rest, line);
    case Inline(_, _, _, _, _) => ScanInline(it, rest, line);
  }

  lemma ScanBlankLine(rest: string, line: nat)
    ensures ItemScans(Item.Blank, rest, line)
  {
    ScanBreak(rest, line);
  }

  lemma ScanNote(it: Item, rest: string, line: nat)
    requires ItemOk(it) && it.Note?
    ensures ItemScans(it, rest, line)
  {
    hide Scan, Scans, Prepend;
    var s := "# " + (it.text + ("\n" + rest));
    ScanCommentLine(it.text, rest, line);
    Indented(it.indent, s, line, [], [Comment(it.text, line)], rest, line + 1);
    assert Print(it) + rest == Spaces(it.indent) + s;
  }

  lemma ScanLine(it: Item, rest: string, line: nat)
    requires ItemOk(it) && it.Line?
    ensures ItemScans(it, rest, line)
  {
    hide Scan, Scans, Prepend;
    ScanRow(it.row, "\n" + rest, line);
    EndLine(PrintRow(it.row) + ("\n" + rest), line, Toks(Lexemes(it.row), line), rest);
    assert Print(it) + rest == PrintRow(it.row) + ("\n" + rest);
  }

  lemma ScanInline(it: Item, rest: string, line: nat)
    requires ItemOk(it) && it.Inline?
    ensures ItemScans(it, rest, line)
  {
    hide Scan, Scans, Prepend;
    var Inline(indent, attr, op, value, action) := it;
    var r := PrintRow(Spaced(0, action)) + ("\n" + rest);
    SpacedOk(0, action);
    ScanRow(Spaced(0, action), "\n" + rest, line);
    EndLine(r, line, Toks(action, line), rest);
    AfterBlank(r, line, Toks(action, line), [], rest, line + 1);
    ScanCondition(attr, op, value, " " + r, line);
    var s := Condition(attr, op, value) + (" " + r);
    Then(s, line, ConditionToks(attr, op, value, line), " " + r, line, Toks(action, line), [], rest, line + 1);
    Indented(indent, s, line, ItemToks(it, line), [], rest, line + 1);
    assert Print(it) + rest == Spaces(indent) + s;
  }

  lemma {:induction false} ScanGroup(it: Item, rest: string, line: nat)
    requires ItemOk(it) && it.Group?
    ensures ItemScans(it, rest, line)
    decreases it, 2
  {
    hide Scan, Scans, Prepend;
    var Group(head, indent, body) := it;
    var end := line + 1 + LinesAll(body);
    var tail := Spaces(indent) + ("}\n" + rest);
    ScanClose(indent, rest, end);
    ScanBody(body, tail, rest, line, Close(end), [], end + 1);
    var s := " {\n" + (PrintAll(body) + tail);
    var notes := AllNotes(body, line + 1);
    assert notes + [] == notes;
    ScanRow(head, s, line);
    Then(PrintRow(head) + s, line, Toks(Lexemes(head), line), s, line,
         Open(line) + (AllToks(body, line + 1) + Close(end)), notes, rest, end + 1);
    assert Print(it) + rest == PrintRow(head) + s;
  }

  // A condition ends in a closing brace, or in an else part.

  function TailText(it: Item): string
    requires it.Branch?
  {
    Spaces(it.indent) +
      if it.otherwise == [] then "}\n" else "} else {\n" + (PrintAll(it.otherwise) + (Spaces(it.indent) + "}\n"))
  }

  function TailToks(it: Item, mid: nat): seq<Token>
    requires it.Branch?
  {
    Close(mid) + ElseToks(it, mid)
  }

  function ElseToks(it: Item, mid: nat): seq<Token>
    requires it.Branch?
  {
    if it.otherwise == [] then [] else
      [Token(Word, "else", mid)] +
      (Open(mid) + (AllToks(it.otherwise, mid + 1) + Close(mid + 1 + LinesAll(it.otherwise))))
  }

  function TailNotes(it: Item, mid: nat): seq<Comment>
    requires it.Branch?
  {
    if it.otherwise == [] then [] else AllNotes(it.otherwise, mid + 1)
  }

  function TailLines(it: Item): nat
    requires it.Branch?
  {
    if it.otherwise == [] then 0 else 1 + LinesAll(it.otherwise)
  }

  lemma {:induction false} ScanTail(it: Item, rest: string, mid: nat)
    requires ItemOk(it) && it.Branch?
    ensures Scans(TailText(it) + rest, mid, TailToks(it, mid), TailNotes(it, mid), rest, mid + 1 + TailLines(it))
    decreases it, 1
  {
    hide Scan, Scans, Prepend;
    var items := it.otherwise;
    var close := Spaces(it.indent) + ("}\n" + rest);
    if items == [] {
      ScanClose(it.indent, rest, mid);
      assert Close(mid) + [] == Close(mid);
      assert TailText(it) + rest == close;
    } else {
      var end := mid + 1 + LinesAll(items);
      var r := PrintAll(items) + close;
      var notes := AllNotes(items, mid + 1);
      var toks := AllToks(items, mid + 1) + Close(end);
      var head := Close(mid) + ([Token(Word, "else", mid)] + Open(mid));
      ScanClose(it.indent, rest, end);
      ScanAll(items, close, mid + 1);
      Chain(r, mid + 1, AllToks(items, mid + 1), notes, close, end, Close(end), [], rest, end + 1);
      assert notes + [] == notes;
      ScanElse(it.indent, r, mid);
      Then(Spaces(it.indent) + ("} else {\n" + r), mid, head, r, mid + 1, toks, notes, rest, end + 1);
      assert TailText(it) + rest == Spaces(it.indent) + ("} else {\n" + r);
      assert head + toks == TailToks(it, mid);
    }
  }

  lemma {:induction false} ScanBranch(it: Item, rest: string, line: nat)
    requires ItemOk(it) && it.Branch?
    ensures ItemScans(it, rest, line)
    decreases it, 2
  {
    hide Scan, Scans, Prepend;
    var Branch(indent, attr, op, value, body, otherwise) := it;
    var mid := line + 1 + LinesAll(body);
    var last := mid + 1 + TailLines(it);
    ScanTail(it, rest, mid);
    ScanBody(body, TailText(it) + rest, rest, line, TailToks(it, mid), TailNotes(it, mid), last);
    var r := " {\n" + (PrintAll(body) + (TailText(it) + rest));
    var toks := Open(line) + (AllToks(body, line + 1) + TailToks(it, mid));
    ScanCondition(attr, op, value, r, line);
    Then(Condition(attr, op, value) + r, line, ConditionToks(attr, op, value, line), r, line,
         toks, AllNotes(body, line + 1) + TailNotes(it, mid), rest, last);
    BranchParts(it, rest, line);
    BranchToks(it, line);
    Indented(indent, Condition(attr, op, value) + r, line, ConditionToks(attr, op, value, line) + toks,
             AllNotes(body, line + 1) + TailNotes(it, mid), rest, last);
  }

  lemma BranchParts(it: Item, rest: string, line: nat)
    requires it.Branch?
    ensures Print(it) + rest
      == Spaces(it.indent) +
        (Condition(it.attr, it.op, it.value) + (" {\n" + (PrintAll(it.body) + (TailText(it) + rest))))
    ensures ItemNotes(it, line) == AllNotes(it.body, line + 1) + TailNotes(it, line + 1 + LinesAll(it.body))
    ensures line + Lines(it) == line + 1 + LinesAll(it.body) + 1 + TailLines(it)
  {
    assert Print(it) ==
      Spaces(it.indent) + (Condition(it.attr, it.op, it.value) + (" {\n" + (PrintAll(it.body) + TailText(it)))) by {
      hide Condition, PrintAll;
    }
    hide *;
    Assoc5(Condition(it.attr, it.op, it.value), " {\n", PrintAll(it.body), TailText(it), rest);
    Assoc(Spaces(it.indent), Condition(it.attr, it.op, it.value) + (" {\n" + (PrintAll(it.body) + TailText(it))), rest);
  }

  lemma BranchToks(it: Item, line: nat)
    requires it.Branch?
    ensures ItemToks(it, line) == ConditionToks(it.attr, it.op, it.value, line)
      + (Open(line) + (AllToks(it.body, line + 1) + TailToks(it, line + 1 + LinesAll(it.body))))
  {
    hide ConditionToks, AllToks, LinesAll, Open, Close;
  }
}
