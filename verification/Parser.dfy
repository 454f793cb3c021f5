/** The recursive-descent parser: what it reads from a token stream, and the cursor object that reads it. */
module Parser {
  import opened Text
  import opened Lexer

  datatype Cond = Cond(attr: string, op: string, value: string, quoted: bool)

  /** One statement of the configuration grammar. */
  datatype Node =
    | Block(name: string, tag: string, children: seq<Node>, startLine: nat, endLine: nat)
    | Assign(name: string, value: string, startLine: nat, endLine: nat)
    | Action(value: string, startLine: nat, endLine: nat)
    | If(cond: Cond, children: seq<Node>, elseNodes: seq<Node>, inline: bool, startLine: nat, endLine: nat)
  {
    /** The flat text of a simple statement. */
    function ActionText(): string {
      match this
      case Assign(name, value, _, _) => name + " = " + value
      case Action(value, _, _) => value
      case _ => ""
    }
  }

  datatype ParseError =
    | Expected(line: nat, what: string, got: string)
    | UnexpectedToken(line: nat, got: string)
    | UnexpectedBrace(line: nat)
    | MissingBrace(line: nat)

  datatype Result<+T> = Good(value: T) | Bad(error: ParseError)

  /** The outcome of reading a phrase from the front of a token stream. */
  datatype Parsed<+T> = Ok(value: T, rest: seq<Token>) | Err(error: ParseError)

  /** A token stream: its last token, and no other, is EOF. */
  ghost predicate Stream(ts: seq<Token>) {
    ts != [] && forall k :: 0 <= k < |ts| ==> (ts[k].kind == EOF <==> k == |ts| - 1)
  }

  predicate IsText(t: Token) {
    t.kind == Word || t.kind == Str
  }

  function TokenText(t: Token): string {
    if t.kind == Str then "\"" + t.text + "\"" else t.text
  }

  /** Bare words and strings that continue a statement on its own line. */
  function TakeWords(ts: seq<Token>, line: nat): (r: (seq<string>, seq<Token>))
    requires Stream(ts)
    ensures Stream(r.1) && |r.1| <= |ts|
  {
    if IsText(ts[0]) && ts[0].line == line then
      var r := TakeWords(ts[1..], line);
      ([TokenText(ts[0])] + r.0, r.1)
    else ([], ts)
  }

  /** The words, strings and equal signs left on a line. */
  function TakeRest(ts: seq<Token>, line: nat): (r: (seq<string>, seq<Token>))
    requires Stream(ts)
    ensures Stream(r.1) && |r.1| <= |ts|
  {
    if ts[0].line == line && (IsText(ts[0]) || ts[0].kind == Equals) then
      var r := TakeRest(ts[1..], line);
      ([if ts[0].kind == Equals then "=" else TokenText(ts[0])] + r.0, r.1)
    else ([], ts)
  }

  datatype Value = Value(parts: seq<string>, quoted: bool, rest: seq<Token>)

  /** Everything up to a closing parenthesis or the end of the file. */
  function TakeValue(ts: seq<Token>): (v: Value)
    requires Stream(ts)
    ensures Stream(v.rest) && |v.rest| <= |ts|
  {
    if ts[0].kind == RParen || ts[0].kind == EOF then Value([], false, ts)
    else
      var v := TakeValue(ts[1..]);
      Value([ts[0].text] + v.parts, ts[0].kind == Str || v.quoted, v.rest)
  }

  function ReadToken(ts: seq<Token>, kind: Kind, what: string): (r: Parsed<Token>)
    requires Stream(ts) && !kind.EOF?
    ensures r.Ok? ==> Stream(r.rest) && |r.rest| < |ts|
  {
    if ts[0].kind == kind then Ok(ts[0], ts[1..]) else Err(Expected(ts[0].line, what, ts[0].text))
  }

  function PrependNodes(ns: seq<Node>, r: Parsed<(seq<Node>, nat)>): Parsed<(seq<Node>, nat)> {
    match r
    case Ok(v, rest) => Ok((ns + v.0, v.1), rest)
    case Err(e) => Err(e)
  }

  /** Statements up to the end of the file, or up to and including a closing brace, whose line is returned. */
  function ReadStmts(ts: seq<Token>, untilRBrace: bool): (r: Parsed<(seq<Node>, nat)>)
    requires Stream(ts)
    ensures r.Ok? ==> Stream(r.rest) && |r.rest| <= |ts|
    decreases |ts|, 1
  {
    if ts[0].kind == EOF then
      if untilRBrace then Err(MissingBrace(ts[0].line)) else Ok(([], 0), ts)
    else if ts[0].kind == RBrace then
      if untilRBrace then Ok(([], ts[0].line), ts[1..]) else Err(UnexpectedBrace(ts[0].line))
    else match ReadStmt(ts)
      case Err(e) => Err(e)
      case Ok(n, rest) => PrependNodes([n], ReadStmts(rest, untilRBrace))
  }

  function ReadStmt(ts: seq<Token>): (r: Parsed<Node>)
    requires Stream(ts)
    ensures r.Ok? ==> Stream(r.rest) && |r.rest| < |ts|
    decreases |ts|, 0
  {
    var t := ts[0];
    if !IsText(t) then Err(UnexpectedToken(t.line, t.text))
    else if t.text == "if" then ReadIf(ts[1..], t.line)
    else
      var (more, rest) := TakeWords(ts[1..], t.line);
      ReadAfterWords(t.line, [TokenText(t)] + more, rest)
  }

  /** A statement once its leading words are known: the next token says which kind it is. */
  function ReadAfterWords(line: nat, words: seq<string>, ts: seq<Token>): (r: Parsed<Node>)
    requires words != [] && Stream(ts)
    ensures r.Ok? ==> Stream(r.rest) && |r.rest| <= |ts|
    decreases |ts|, 2
  {
    if ts[0].kind == Equals then
      var (parts, rest) := TakeRest(ts[1..], ts[0].line);
      Ok(Assign(Join(words, " "), Join(parts, " "), line, ts[0].line), rest)
    else if ts[0].kind == LBrace then
      match ReadStmts(ts[1..], true)
      case Err(e) => Err(e)
      case Ok((children, endLine), rest) =>
        Ok(Block(words[0], Join(words[1..], " "), children, line, endLine), rest)
    else Ok(Action(Join(words, " "), line, line), ts)
  }

  /** if ( attribute operator value ), ts starting just after the word if. */
  function ReadIf(ts: seq<Token>, line: nat): (r: Parsed<Node>)
    requires Stream(ts)
    ensures r.Ok? ==> Stream(r.rest) && |r.rest| < |ts|
    decreases |ts|, 4
  {
    match ReadToken(ts, LParen, "'('")
    case Err(e) => Err(e)
    case Ok(_, ts1) =>
    match ReadToken(ts1, Word, "condition attribute")
    case Err(e) => Err(e)
    case Ok(attr, ts2) =>
    match ReadToken(ts2, Word, "condition operator")
    case Err(e) => Err(e)
    case Ok(op, ts3) =>
    var v := TakeValue(ts3);
    match ReadToken(v.rest, RParen, "')'")
    case Err(e) => Err(e)
    case Ok(rp, ts5) => ReadBranches(Cond(attr.text, op.text, Join(v.parts, " "), v.quoted), line, rp.line, ts5)
  }

  /** What follows the condition: a block with an optional else, or an inline action. */
  function ReadBranches(cond: Cond, line: nat, parenLine: nat, ts: seq<Token>): (r: Parsed<Node>)
    requires Stream(ts)
    ensures r.Ok? ==> Stream(r.rest) && |r.rest| <= |ts|
    decreases |ts|, 3
  {
    if ts[0].kind == LBrace then
      match ReadStmts(ts[1..], true)
      case Err(e) => Err(e)
      case Ok((children, endLine), rest) => ReadElse(cond, children, line, endLine, rest)
    else
      var (parts, rest) := TakeRest(ts, parenLine);
      Ok(If(cond, [Action(Join(parts, " "), parenLine, 0)], [], true, line, parenLine), rest)
  }

  function ReadElse(cond: Cond, children: seq<Node>, line: nat, endLine: nat, ts: seq<Token>): (r: Parsed<Node>)
    requires Stream(ts)
    ensures r.Ok? ==> Stream(r.rest) && |r.rest| <= |ts|
    decreases |ts|, 2
  {
    if ts[0].kind == Word && ts[0].text == "else" then
      if ts[1].kind == LBrace then
        match ReadStmts(ts[2..], true)
        case Err(e) => Err(e)
        case Ok((elseNodes, elseLine), rest) => Ok(If(cond, children, elseNodes, false, line, elseLine), rest)
      else
        var (parts, rest) := TakeRest(ts[1..], ts[0].line);
        Ok(If(cond, children, [Action(Join(parts, " "), ts[0].line, 0)], false, line, endLine), rest)
    else Ok(If(cond, children, [], false, line, endLine), ts)
  }

  /** parse: the tree of a source text, or the first error. */
  function Tree(src: string): Result<seq<Node>> {
    var l := Scan(src, 1);
    ScanWellFormed(src, 1);
    match ReadStmts(l.toks, false)
    case Ok(v, _) => Good(v.0)
    case Err(e) => Bad(e)
  }

  // The three ways the statement loop can go on.

  lemma StmtsEnd(nodes: seq<Node>, ts: seq<Token>)
    requires Stream(ts) && ts[0].kind == EOF
    ensures PrependNodes(nodes, ReadStmts(ts, true)) == Err(MissingBrace(ts[0].line))
    ensures PrependNodes(nodes, ReadStmts(ts, false)) == Ok((nodes, 0), ts)
  {
    assert nodes + [] == nodes;
  }

  lemma StmtsBrace(nodes: seq<Node>, ts: seq<Token>)
    requires Stream(ts) && ts[0].kind == RBrace
    ensures PrependNodes(nodes, ReadStmts(ts, true)) == Ok((nodes, ts[0].line), ts[1..])
    ensures PrependNodes(nodes, ReadStmts(ts, false)) == Err(UnexpectedBrace(ts[0].line))
  {
    assert nodes + [] == nodes;
  }

  lemma StmtsMore(nodes: seq<Node>, ts: seq<Token>, untilRBrace: bool)
    requires Stream(ts) && ts[0].kind != EOF && ts[0].kind != RBrace
    ensures ReadStmt(ts).Err? ==> PrependNodes(nodes, ReadStmts(ts, untilRBrace)) == Err(ReadStmt(ts).error)
    ensures ReadStmt(ts).Ok? ==>
      (PrependNodes(nodes, ReadStmts(ts, untilRBrace))
       == PrependNodes(nodes + [ReadStmt(ts).value], ReadStmts(ReadStmt(ts).rest, untilRBrace)))
  {
    hide ReadStmt;
    if ReadStmt(ts).Ok? {
      PrependOne(nodes, ReadStmt(ts).value, ReadStmts(ReadStmt(ts).rest, untilRBrace));
    }
  }

  // The state of the rest-of-line loop: what was collected, and what is still to be taken.

  ghost predicate RestSoFar(whole: (seq<string>, seq<Token>), parts: seq<string>, ts: seq<Token>, line: nat) {
    Stream(ts) && whole == (parts + TakeRest(ts, line).0, TakeRest(ts, line).1)
  }

  lemma RestFirst(ts: seq<Token>, line: nat)
    requires Stream(ts)
    ensures RestSoFar(TakeRest(ts, line), [], ts, line)
  {
    assert [] + TakeRest(ts, line).0 == TakeRest(ts, line).0;
  }

  lemma RestMore(whole: (seq<string>, seq<Token>), parts: seq<string>, ts: seq<Token>, line: nat)
    requires RestSoFar(whole, parts, ts, line)
    requires ts[0].line == line && (IsText(ts[0]) || ts[0].kind == Equals)
    ensures RestSoFar(whole, parts + [if ts[0].kind == Equals then "=" else TokenText(ts[0])], ts[1..], line)
  {
    var part := if ts[0].kind == Equals then "=" else TokenText(ts[0]);
    var more := TakeRest(ts[1..], line).0;
    assert parts + ([part] + more) == (parts + [part]) + more;
  }

  lemma RestLast(whole: (seq<string>, seq<Token>), parts: seq<string>, ts: seq<Token>, line: nat)
    requires RestSoFar(whole, parts, ts, line)
    requires !(ts[0].line == line && (IsText(ts[0]) || ts[0].kind == Equals))
    ensures whole == (parts, ts)
  {
    assert parts + [] == parts;
  }

  // The same for the loop that collects the leading words of a statement.

  ghost predicate WordsSoFar(whole: (seq<string>, seq<Token>), words: seq<string>, ts: seq<Token>, line: nat) {
    Stream(ts) && whole == (words + TakeWords(ts, line).0, TakeWords(ts, line).1)
  }

  lemma WordsFirst(words: seq<string>, ts: seq<Token>, line: nat)
    requires Stream(ts)
    ensures WordsSoFar((words + TakeWords(ts, line).0, TakeWords(ts, line).1), words, ts, line)
  {}

  lemma WordsMore(whole: (seq<string>, seq<Token>), words: seq<string>, ts: seq<Token>, line: nat)
    requires WordsSoFar(whole, words, ts, line) && IsText(ts[0]) && ts[0].line == line
    ensures WordsSoFar(whole, words + [TokenText(ts[0])], ts[1..], line)
  {
    var more := TakeWords(ts[1..], line).0;
    assert words + ([TokenText(ts[0])] + more) == (words + [TokenText(ts[0])]) + more;
  }

  lemma WordsLast(whole: (seq<string>, seq<Token>), words: seq<string>, ts: seq<Token>, line: nat)
    requires WordsSoFar(whole, words, ts, line) && !(IsText(ts[0]) && ts[0].line == line)
    ensures whole == (words, ts)
  {
    assert words + [] == words;
  }

  /** The parser object: a token list and a cursor. Every read of the list is checked to be in range. */
  class TokenParser {
    const toks: seq<Token>
    var pos: nat

    constructor (toks: seq<Token>)
      ensures this.toks == toks && pos == 0
    {
      this.toks := toks;
      pos := 0;
    }

    /** Tokens not read yet. After an error the end-of-file token may have been read as well. */
    ghost function Left(): seq<Token>
      requires pos <= |toks|
      reads this
    {
      toks[pos..]
    }

    ghost predicate Ready()
      reads this
    {
      pos < |toks| && Stream(Left())
    }

    ghost predicate Agrees<T>(r: Result<T>, spec: Parsed<T>)
      reads this
    {
      match spec
      case Ok(v, rest) => r == Good(v) && Ready() && Left() == rest
      case Err(e) => r == Bad(e) && pos <= |toks|
    }

    method Peek() returns (t: Token)
      requires Ready()
      ensures t == Left()[0]
    {
      t := toks[pos];
    }

    method Next() returns (t: Token)
      requires Ready()
      modifies this
      ensures pos == old(pos) + 1 && t == old(Left()[0])
      ensures Left() == old(Left()[1..])
      ensures t.kind != EOF ==> Ready()
    {
      t := toks[pos];
      assert toks[pos..][1..] == toks[pos + 1..];
      pos := pos + 1;
    }

    method Expect(kind: Kind, what: string) returns (r: Result<Token>)
      requires Ready() && !kind.EOF?
      modifies this
      ensures pos == old(pos) + 1 && Agrees(r, ReadToken(old(Left()), kind, what))
    {
      var t := Next();
      if t.kind != kind {
        return Bad(Expected(t.line, what, t.text));
      }
      return Good(t);
    }

    method RestOfLine(line: nat) returns (text: string)
      requires Ready()
      modifies this
      ensures Ready() && pos >= old(pos)
      ensures text == Join(TakeRest(old(Left()), line).0, " ") && Left() == TakeRest(old(Left()), line).1
    {
      hide RestSoFar;
      var parts := [];
      ghost var whole := TakeRest(Left(), line);
      RestFirst(Left(), line);
      while true
        invariant Ready() && pos >= old(pos)
        invariant RestSoFar(whole, parts, Left(), line)
        decreases |toks| - pos
      {
        var t := Peek();
        if t.line != line {
          RestLast(whole, parts, Left(), line);
          return Join(parts, " ");
        }
        ghost var before, here := parts, Left();
        match t.kind {
          case Word =>
            parts := parts + [t.text];
          case Str =>
            parts := parts + ["\"" + t.text + "\""];
          case Equals =>
            parts := parts + ["="];
          case _ =>
            RestLast(whole, parts, Left(), line);
            return Join(parts, " ");
        }
        RestMore(whole, before, here, line);
        var _ := Next();
      }
    }

    method ParseStmts(untilRBrace: bool) returns (r: Result<(seq<Node>, nat)>)
      requires Ready()
      modifies this
      ensures pos >= old(pos) && Agrees(r, ReadStmts(old(Left()), untilRBrace))
      decreases |toks| - pos, 1
    {
      hide ReadStmts, ReadStmt, PrependNodes;
      var nodes := [];
      PrependNone(ReadStmts(Left(), untilRBrace));
      while true
        invariant Ready() && pos >= old(pos)
        invariant ReadStmts(old(Left()), untilRBrace) == PrependNodes(nodes, ReadStmts(Left(), untilRBrace))
        decreases |toks| - pos
      {
        var t := Peek();
        match t.kind
        case EOF =>
          StmtsEnd(nodes, Left());
          if untilRBrace {
            return Bad(MissingBrace(t.line));
          }
          return Good((nodes, 0));
        case RBrace =>
          StmtsBrace(nodes, Left());
          if untilRBrace {
            var _ := Next();
            return Good((nodes, t.line));
          }
          return Bad(UnexpectedBrace(t.line));
        case _ =>
          StmtsMore(nodes, Left(), untilRBrace);
          var n := ParseStmt();
          if n.Bad? {
            return Bad(n.error);
          }
          nodes := nodes + [n.value];
      }
    }

    method ParseStmt() returns (r: Result<Node>)
      requires Ready()
      modifies this
      ensures pos > old(pos) && Agrees(r, ReadStmt(old(Left())))
      decreases |toks| - pos, 0
    {
      var t := Next();
      if t.kind != Word && t.kind != Str {
        return Bad(UnexpectedToken(t.line, t.text));
      }
      if t.text == "if" {
        r := ParseIf(t.line);
        return;
      }
      hide WordsSoFar, TakeWords, TakeRest, ReadStmts, ReadIf;
      var words := [TokenText(t)];
      ghost var after := TakeWords(Left(), t.line);
      ghost var all := [TokenText(t)] + after.0;
      WordsFirst(words, Left(), t.line);
      while true
        invariant Ready() && pos > old(pos) && words != []
        invariant WordsSoFar((all, after.1), words, Left(), t.line)
        decreases |toks| - pos
      {
        var nt := Peek();
        if nt.kind == Equals {
          WordsLast((all, after.1), words, Left(), t.line);
          var _ := Next();
          var value := RestOfLine(nt.line);
          return Good(Assign(Join(words, " "), value, t.line, nt.line));
        } else if nt.kind == LBrace {
          WordsLast((all, after.1), words, Left(), t.line);
          var _ := Next();
          var body := ParseStmts(true);
          if body.Bad? {
            return Bad(body.error);
          }
          var tag := "";
          if |words| > 1 {
            tag := Join(words[1..], " ");
          }
          assert |words| == 1 ==> words[1..] == [];
          return Good(Block(words[0], tag, body.value.0, t.line, body.value.1));
        } else if (nt.kind == Word || nt.kind == Str) && nt.line == t.line {
          WordsMore((all, after.1), words, Left(), t.line);
          var _ := Next();
          words := words + [TokenText(nt)];
        } else {
          WordsLast((all, after.1), words, Left(), t.line);
          return Good(Action(Join(words, " "), t.line, t.line));
        }
      }
    }

    method ParseIf(line: nat) returns (r: Result<Node>)
      requires Ready()
      modifies this
      ensures pos > old(pos) && Agrees(r, ReadIf(old(Left()), line))
      decreases |toks| - pos, 2
    {
      var lp := Expect(LParen, "'('");
      if lp.Bad? {
        return Bad(lp.error);
      }
      var attr := Expect(Word, "condition attribute");
      if attr.Bad? {
        return Bad(attr.error);
      }
      var op := Expect(Word, "condition operator");
      if op.Bad? {
        return Bad(op.error);
      }
      var parts, quoted := ParseValue();
      var rp := Expect(RParen, "')'");
      if rp.Bad? {
        return Bad(rp.error);
      }
      r := ParseBranches(Cond(attr.value.text, op.value.text, Join(parts, " "), quoted), line, rp.value.line);
    }

    /** The loop of parseIf that collects the condition's value. */
    method ParseValue() returns (parts: seq<string>, quoted: bool)
      requires Ready()
      modifies this
      ensures Ready() && pos >= old(pos)
      ensures Value(parts, quoted, Left()) == TakeValue(old(Left()))
    {
      parts, quoted := [], false;
      var t := Peek();
      while t.kind != RParen && t.kind != EOF
        invariant Ready() && pos >= old(pos) && t == Left()[0]
        invariant var v := TakeValue(Left());
          TakeValue(old(Left())) == Value(parts + v.parts, quoted || v.quoted, v.rest)
        decreases |toks| - pos
      {
        ghost var v := TakeValue(Left()[1..]);
        assert parts + ([t.text] + v.parts) == (parts + [t.text]) + v.parts;
        var vt := Next();
        if vt.kind == Str {
          quoted := true;
        }
        parts := parts + [vt.text];
        t := Peek();
      }
    }

    /** The rest of parseIf, after the closing parenthesis. */
    method ParseBranches(cond: Cond, line: nat, parenLine: nat) returns (r: Result<Node>)
      requires Ready()
      modifies this
      ensures pos >= old(pos) && Agrees(r, ReadBranches(cond, line, parenLine, old(Left())))
      decreases |toks| - pos, 2
    {
      var t := Peek();
      if t.kind == LBrace {
        var _ := Next();
        var body := ParseStmts(true);
        if body.Bad? {
          return Bad(body.error);
        }
        var (children, endLine) := body.value;
        var elseNodes := [];
        var e := Peek();
        if e.kind == Word && e.text == "else" {
          var _ := Next();
          var b := Peek();
          if b.kind == LBrace {
            var _ := Next();
            var other := ParseStmts(true);
            if other.Bad? {
              return Bad(other.error);
            }
            elseNodes, endLine := other.value.0, other.value.1;
          } else {
            var text := RestOfLine(e.line);
            elseNodes := [Action(text, e.line, 0)];
          }
        }
        return Good(If(cond, children, elseNodes, false, line, endLine));
      } else {
        var text := RestOfLine(parenLine);
        return Good(If(cond, [Action(text, parenLine, 0)], [], true, line, parenLine));
      }
    }
  }

  lemma PrependNone(r: Parsed<(seq<Node>, nat)>)
    ensures PrependNodes([], r) == r
  {
    if r.Ok? {
      assert [] + r.value.0 == r.value.0;
    }
  }

  lemma PrependOne(ns: seq<Node>, n: Node, r: Parsed<(seq<Node>, nat)>)
    ensures PrependNodes(ns, PrependNodes([n], r)) == PrependNodes(ns + [n], r)
  {
    if r.Ok? {
      assert ns + ([n] + r.value.0) == (ns + [n]) + r.value.0;
    }
  }

  /** parse, on every source text: it ends with the tree or the error, and never reads past the end of file. */
  method Parse(src: string) returns (r: Result<seq<Node>>, comments: seq<Comment>)
    ensures r == Tree(src) && comments == Scan(src, 1).comments
  {
    var toks, cs := Lex(src);
    var p := new TokenParser(toks);
    assert p.Left() == toks;
    var body := p.ParseStmts(false);
    comments := cs;
    r := if body.Bad? then Bad(body.error) else Good(body.value.0);
  }
}
