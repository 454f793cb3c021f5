/** Laid-out configuration text: what printing a statement tree yields, and that the tokenizer and the
    parser read it back. The renderers of every configuration file are shown to print such a tree. */
module Layout {
  import opened Text
  import opened Lexer
  import opened Parser

  // ---------------------------------------------------------------- words

  datatype Lexeme = Bare(text: string) | Quoted(text: string) | Eq

  /** A word the tokenizer takes whole. */
  predicate BareOk(w: string) {
    w == "==" || w == "!=" || w == "=~" || (w != "" && forall c | c in w :: !IsDelim(c))
  }

  /** A text that survives between double quotes: scanned left to right, with a backslash taking the
      next character along, it meets no quote and does not end in a lone backslash. */
  predicate QuoteSafe(q: string) {
    if q == "" then true
    else if q[0] == '"' then false
    else if q[0] == '\\' then |q| > 1 && QuoteSafe(q[2..])
    else QuoteSafe(q[1..])
  }

  predicate LexemeOk(x: Lexeme) {
    match x
    case Bare(w) => BareOk(w)
    case Quoted(q) => QuoteSafe(q)
    case Eq => true
  }

  function Source(x: Lexeme): string {
    match x
    case Bare(w) => w
    case Quoted(q) => "\"" + q + "\""
    case Eq => "="
  }

  function TokenOf(x: Lexeme, line: nat): Token {
    match x
    case Bare(w) => Token(Word, w, line)
    case Quoted(q) => Token(Str, q, line)
    case Eq => Token(Equals, "=", line)
  }

  function Sources(xs: seq<Lexeme>): seq<string> {
    seq(|xs|, i requires 0 <= i < |xs| => Source(xs[i]))
  }

  function Toks(xs: seq<Lexeme>, line: nat): seq<Token> {
    seq(|xs|, i requires 0 <= i < |xs| => TokenOf(xs[i], line))
  }

  predicate LexemesOk(xs: seq<Lexeme>) {
    forall i :: 0 <= i < |xs| ==> LexemeOk(xs[i])
  }

  predicate NoEq(xs: seq<Lexeme>) {
    forall i :: 0 <= i < |xs| ==> !xs[i].Eq?
  }

  // ---------------------------------------------------------------- rows

  /** A word and the number of blanks before it. */
  datatype Gapped = Gapped(gap: nat, x: Lexeme)

  type Row = seq<Gapped>

  function Lexemes(row: Row): seq<Lexeme> {
    seq(|row|, i requires 0 <= i < |row| => row[i].x)
  }

  /** Words one blank apart, the first one indented. */
  function Spaced(indent: nat, xs: seq<Lexeme>): (row: Row)
    ensures |row| == |xs|
    decreases |xs|
  {
    if xs == [] then [] else [Gapped(indent, xs[0])] + Spaced(1, xs[1..])
  }

  predicate RowOk(row: Row) {
    row == [] || (LexemeOk(row[0].x) && (|row| > 1 ==> row[1].gap > 0) && RowOk(row[1..]))
  }

  function PrintRow(row: Row): string {
    if row == [] then "" else Spaces(row[0].gap) + (Source(row[0].x) + PrintRow(row[1..]))
  }

  lemma {:induction false} SpacedOk(indent: nat, xs: seq<Lexeme>)
    requires LexemesOk(xs)
    ensures RowOk(Spaced(indent, xs)) && Lexemes(Spaced(indent, xs)) == xs
    decreases |xs|
  {
    if xs != [] {
      SpacedOk(1, xs[1..]);
      var row := Spaced(indent, xs);
      assert row[1..] == Spaced(1, xs[1..]);
      forall i | 0 <= i < |xs| ensures Lexemes(row)[i] == xs[i] {
        if i > 0 {
          assert row[i] == row[1..][i - 1];
          assert Lexemes(row[1..])[i - 1] == xs[1..][i - 1];
        }
      }
    }
  }

  lemma {:induction false} PrintSpaced(indent: nat, xs: seq<Lexeme>)
    requires xs != []
    ensures PrintRow(Spaced(indent, xs)) == Spaces(indent) + Join(Sources(xs), " ")
    decreases |xs|
  {
    var row := Spaced(indent, xs);
    assert row[1..] == Spaced(1, xs[1..]);
    assert Sources(xs)[1..] == Sources(xs[1..]);
    if |xs| > 1 {
      PrintSpaced(1, xs[1..]);
      assert Spaces(1) == " ";
    } else {
      assert Source(xs[0]) + "" == Source(xs[0]);
    }
  }

  // ---------------------------------------------------------------- statement trees

  datatype Item =
    | Blank
    | Note(indent: nat, text: string)
    | Line(row: Row)
    | Group(head: Row, indent: nat, body: seq<Item>)
    | Branch(indent: nat, attr: string, op: string, value: seq<Lexeme>, body: seq<Item>, otherwise: seq<Item>)
    | Inline(indent: nat, attr: string, op: string, value: seq<Lexeme>, action: seq<Lexeme>)

  /** The words may open a statement: they start with a word that is not the keyword if. */
  predicate Opening(row: Row) {
    row != [] && !row[0].x.Eq? && row[0].x.text != "if"
  }

  predicate ItemOk(it: Item)
    decreases it, 1
  {
    match it
    case Blank => true
    case Note(_, text) => Trimmed(text) && '\n' !in text
    case Line(row) => RowOk(row) && Opening(row)
    case Group(head, _, body) => RowOk(head) && Opening(head) && NoEq(Lexemes(head)) && ItemsOk(body)
    case Branch(_, attr, op, value, body, otherwise) =>
      BareOk(attr) && BareOk(op) && LexemesOk(value) && ItemsOk(body) && ItemsOk(otherwise)
    case Inline(_, attr, op, value, action) => BareOk(attr) && BareOk(op) && LexemesOk(value) && LexemesOk(action)
  }

  /** Items in order; no statement that starts with the word else follows an if without an else. */
  predicate ItemsOk(items: seq<Item>)
    decreases items, 0
  {
    items == [] ||
    (ItemOk(items[0]) && ItemsOk(items[1..]) &&
     (items[0].Branch? && items[0].otherwise == [] ==> !OpensWithElse(items[1..])))
  }

  predicate OpensWithElse(items: seq<Item>) {
    items != [] &&
    match items[0]
    case Blank => OpensWithElse(items[1..])
    case Note(_, _) => OpensWithElse(items[1..])
    case Line(row) => row != [] && row[0].x == Bare("else")
    case Group(head, _, _) => head != [] && head[0].x == Bare("else")
    case _ => false
  }

  function Condition(attr: string, op: string, value: seq<Lexeme>): string {
    "if (" + (attr + (" " + (op + (" " + (PrintRow(Spaced(0, value)) + ")")))))
  }

  function Print(it: Item): string
    decreases it, 1
  {
    match it
    case Blank => "\n"
    case Note(indent, text) => Spaces(indent) + ("# " + (text + "\n"))
    case Line(row) => PrintRow(row) + "\n"
    case Group(head, indent, body) => PrintRow(head) + (" {\n" + (PrintAll(body) + (Spaces(indent) + "}\n")))
    case Branch(indent, attr, op, value, body, otherwise) =>
      Spaces(indent) + (Condition(attr, op, value) + (" {\n" + (PrintAll(body) + (Spaces(indent) +
        if otherwise == [] then "}\n" else "} else {\n" + (PrintAll(otherwise) + (Spaces(indent) + "}\n"))))))
    case Inline(indent, attr, op, value, action) =>
      Spaces(indent) + (Condition(attr, op, value) + (" " + (PrintRow(Spaced(0, action)) + "\n")))
  }

  function PrintAll(items: seq<Item>): string
    decreases items, 0
  {
    if items == [] then "" else Print(items[0]) + PrintAll(items[1..])
  }

  lemma {:induction false} PrintAllAppend(a: seq<Item>, b: seq<Item>)
    ensures PrintAll(a + b) == PrintAll(a) + PrintAll(b)
  {
    hide Print;
    if a == [] {
      assert a + b == b;
    } else {
      PrintAllAppend(a[1..], b);
      assert (a + b)[1..] == a[1..] + b;
      Assoc(Print(a[0]), PrintAll(a[1..]), PrintAll(b));
    }
  }

  /** Number of line breaks an item prints outside quotes. */
  function Lines(it: Item): nat
    decreases it, 1
  {
    match it
    case Group(_, _, body) => 2 + LinesAll(body)
    case Branch(_, _, _, _, body, otherwise) =>
      2 + LinesAll(body) + (if otherwise == [] then 0 else 1 + LinesAll(otherwise))
    case _ => 1
  }

  function LinesAll(items: seq<Item>): nat
    decreases items, 0
  {
    if items == [] then 0 else Lines(items[0]) + LinesAll(items[1..])
  }

  function ConditionToks(attr: string, op: string, value: seq<Lexeme>, line: nat): seq<Token> {
    [Token(Word, "if", line), Token(LParen, "(", line), Token(Word, attr, line), Token(Word, op, line)]
    + (Toks(value, line) + [Token(RParen, ")", line)])
  }

  function Open(line: nat): seq<Token> { [Token(LBrace, "{", line)] }
  function Close(line: nat): seq<Token> { [Token(RBrace, "}", line)] }

  function ItemToks(it: Item, line: nat): seq<Token>
    decreases it, 1
  {
    match it
    case Blank => []
    case Note(_, _) => []
    case Line(row) => Toks(Lexemes(row), line)
    case Group(head, _, body) =>
      Toks(Lexemes(head), line) + (Open(line) + (AllToks(body, line + 1) + Close(line + 1 + LinesAll(body))))
    case Branch(_, attr, op, value, body, otherwise) =>
      var mid := line + 1 + LinesAll(body);
      ConditionToks(attr, op, value, line) + (Open(line) + (AllToks(body, line + 1) + (Close(mid) +
        if otherwise == [] then [] else
        [Token(Word, "else", mid)] +
        (Open(mid) + (AllToks(otherwise, mid + 1) + Close(mid + 1 + LinesAll(otherwise)))))))
    case Inline(_, attr, op, value, action) => ConditionToks(attr, op, value, line) + Toks(action, line)
  }

  function AllToks(items: seq<Item>, line: nat): seq<Token>
    decreases items, 0
  {
    if items == [] then [] else ItemToks(items[0], line) + AllToks(items[1..], line + Lines(items[0]))
  }

  function ItemNotes(it: Item, line: nat): seq<Comment>
    decreases it, 1
  {
    match it
    case Note(_, text) => [Comment(text, line)]
    case Group(_, _, body) => AllNotes(body, line + 1)
    case Branch(_, _, _, _, body, otherwise) =>
      AllNotes(body, line + 1) +
        (if otherwise == [] then [] else AllNotes(otherwise, line + 2 + LinesAll(body)))
    case _ => []
  }

  function AllNotes(items: seq<Item>, line: nat): seq<Comment>
    decreases items, 0
  {
    if items == [] then [] else ItemNotes(items[0], line) + AllNotes(items[1..], line + Lines(items[0]))
  }

  function FirstEq(xs: seq<Lexeme>): (k: nat)
    ensures k <= |xs| && (k < |xs| ==> xs[k].Eq?) && NoEq(xs[..k])
  {
    if xs == [] || xs[0].Eq? then 0 else
      var k := 1 + FirstEq(xs[1..]);
      assert xs[..k] == [xs[0]] + xs[1..][..k - 1];
      k
  }

  /** A simple statement: an assignment when it has an equal sign, an action otherwise. */
  function LineNode(xs: seq<Lexeme>, line: nat): Node {
    var k := FirstEq(xs);
    if k == |xs| then Action(Join(Sources(xs), " "), line, line)
    else Assign(Join(Sources(xs[..k]), " "), Join(Sources(xs[k + 1..]), " "), line, line)
  }

  function Texts(xs: seq<Lexeme>): seq<string> {
    seq(|xs|, i requires 0 <= i < |xs| => TokenOf(xs[i], 0).text)
  }

  function CondOf(attr: string, op: string, value: seq<Lexeme>): Cond {
    Cond(attr, op, Join(Texts(value), " "), exists i :: 0 <= i < |value| && value[i].Quoted?)
  }

  function Nodes(it: Item, line: nat): seq<Node>
    decreases it, 1
  {
    match it
    case Blank => []
    case Note(_, _) => []
    case Line(row) => [LineNode(Lexemes(row), line)]
    case Group(head, _, body) =>
      if head == [] then [] else
      [Block(Source(head[0].x), Join(Sources(Lexemes(head[1..])), " "), AllNodes(body, line + 1), line,
             line + 1 + LinesAll(body))]
    case Branch(_, attr, op, value, body, otherwise) =>
      var mid := line + 1 + LinesAll(body);
      [If(CondOf(attr, op, value), AllNodes(body, line + 1), AllNodes(otherwise, mid + 1), false, line,
          if otherwise == [] then mid else mid + 1 + LinesAll(otherwise))]
    case Inline(_, attr, op, value, action) =>
      [If(CondOf(attr, op, value), [Action(Join(Sources(action), " "), line, 0)], [], true, line, line)]
  }

  function AllNodes(items: seq<Item>, line: nat): seq<Node>
    decreases items, 0
  {
    if items == [] then [] else Nodes(items[0], line) + AllNodes(items[1..], line + Lines(items[0]))
  }
}
