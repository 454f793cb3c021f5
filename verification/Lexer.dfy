/** The tac_plus-ng tokenizer: a recursive definition, and the cursor loop proved against it. */
module Lexer {
  import opened Text

  datatype Kind = EOF | Word | Str | LBrace | RBrace | LParen | RParen | Equals

  datatype Token = Token(kind: Kind, text: string, line: nat)

  datatype Comment = Comment(text: string, line: nat)

  datatype Lexed = Lexed(toks: seq<Token>, comments: seq<Comment>)

  /** The characters that end a bare word. */
  predicate IsDelim(c: char) {
    c in " \t\r\n#\"{}()="
  }

  /** Length of the longest prefix that is a bare word. */
  function WordLen(s: string): (n: nat)
    ensures n <= |s|
  {
    if s == "" || IsDelim(s[0]) then 0 else 1 + WordLen(s[1..])
  }

  /** Length of the text of a quoted string, s starting just after the opening quote. */
  function QuotedLen(s: string): (n: nat)
    ensures n <= |s|
  {
    if s == "" || s[0] == '"' then 0
    else if s[0] == '\\' && |s| > 1 then 2 + QuotedLen(s[2..])
    else 1 + QuotedLen(s[1..])
  }

  /** Length of the rest of the line. */
  function LineLen(s: string): (n: nat)
    ensures n <= |s|
  {
    if s == "" || s[0] == '\n' then 0 else 1 + LineLen(s[1..])
  }

  /** strings.TrimLeft(s, "#") */
  function DropHashes(s: string): string {
    if s != "" && s[0] == '#' then DropHashes(s[1..]) else s
  }

  function CommentText(s: string): string {
    Trim(DropHashes(s))
  }

  function Drop(s: string, n: nat): string {
    if n <= |s| then s[n..] else ""
  }

  function AddTok(t: Token, l: Lexed): Lexed {
    Lexed([t] + l.toks, l.comments)
  }

  function AddComment(c: Comment, l: Lexed): Lexed {
    Lexed(l.toks, [c] + l.comments)
  }

  function Prepend(toks: seq<Token>, comments: seq<Comment>, l: Lexed): Lexed {
    Lexed(toks + l.toks, comments + l.comments)
  }

  /** What one round of the tokenizer's loop does, and how many characters it consumes. */
  datatype Step =
    | Blank
    | Newline
    | Remark(text: string, len: nat)
    | Emit(kind: Kind, text: string, len: nat)

  function FirstStep(s: string): (st: Step)
    requires s != ""
    ensures st.Remark? || st.Emit? ==> st.len > 0
    ensures st.Emit? ==> !st.kind.EOF?
  {
    if s[0] == '\n' then Newline
    else if s[0] == ' ' || s[0] == '\t' || s[0] == '\r' then Blank
    else if s[0] == '#' then
      var n := LineLen(s);
      Remark(CommentText(s[..n]), n)
    else if s[0] == '"' then
      var n := QuotedLen(s[1..]);
      Emit(Str, s[1..n + 1], n + 2)
    else if s[0] == '{' then Emit(LBrace, "{", 1)
    else if s[0] == '}' then Emit(RBrace, "}", 1)
    else if s[0] == '(' then Emit(LParen, "(", 1)
    else if s[0] == ')' then Emit(RParen, ")", 1)
    else if s[0] == '=' then
      if |s| > 1 && (s[1] == '=' || s[1] == '~') then Emit(Word, s[..2], 2) else Emit(Equals, "=", 1)
    else if s[0] == '!' && |s| > 1 && s[1] == '=' then Emit(Word, "!=", 2)
    else
      var n := WordLen(s);
      Emit(Word, s[..n], n)
  }

  /** What the tokenizer yields for the text s that starts on the given line. */
  function Scan(s: string, line: nat): Lexed
    decreases |s|
  {
    if s == "" then Lexed([Token(EOF, "", line)], [])
    else match FirstStep(s)
      case Blank => Scan(s[1..], line)
      case Newline => Scan(s[1..], line + 1)
      case Remark(text, n) => AddComment(Comment(text, line), Scan(Drop(s, n), line))
      case Emit(kind, text, n) => AddTok(Token(kind, text, line), Scan(Drop(s, n), line))
  }

  /** One EOF, at the end, and lines that never go down. */
  ghost predicate WellFormed(toks: seq<Token>) {
    && toks != []
    && (forall k :: 0 <= k < |toks| ==> (toks[k].kind == EOF <==> k == |toks| - 1))
    && (forall i, j :: 0 <= i <= j < |toks| ==> toks[i].line <= toks[j].line)
  }

  ghost predicate From(toks: seq<Token>, line: nat) {
    forall k :: 0 <= k < |toks| ==> line <= toks[k].line
  }

  lemma {:induction false} ScanWellFormed(s: string, line: nat)
    ensures WellFormed(Scan(s, line).toks) && From(Scan(s, line).toks, line)
    decreases |s|
  {
    if s != "" {
      match FirstStep(s)
      case Blank => ScanWellFormed(s[1..], line);
      case Newline => ScanWellFormed(s[1..], line + 1);
      case Remark(text, n) => ScanWellFormed(Drop(s, n), line);
      case Emit(kind, text, n) => ScanWellFormed(Drop(s, n), line);
    }
  }

  lemma {:induction false} WordLenAt(s: string, k: nat)
    requires k <= |s| && forall i :: 0 <= i < k ==> !IsDelim(s[i])
    ensures WordLen(s) == k + WordLen(s[k..])
    decreases k
  {
    if k > 0 {
      WordLenAt(s[1..], k - 1);
      assert s[1..][k - 1..] == s[k..];
    } else {
      assert s[0..] == s;
    }
  }

  lemma {:induction false} LineLenAt(s: string, k: nat)
    requires k <= |s| && forall i :: 0 <= i < k ==> s[i] != '\n'
    ensures LineLen(s) == k + LineLen(s[k..])
    decreases k
  {
    if k > 0 {
      LineLenAt(s[1..], k - 1);
      assert s[1..][k - 1..] == s[k..];
    } else {
      assert s[0..] == s;
    }
  }

  // One round of the loop, in terms of what is still to scan.

  ghost predicate Rest(src: string, i: nat, line: nat, toks: seq<Token>, comments: seq<Comment>, whole: Lexed) {
    whole == Prepend(toks, comments, Scan(Drop(src, i), line))
  }

  lemma {:induction false} RoundSkip(src: string, i: nat, line: nat, toks: seq<Token>, comments: seq<Comment>,
                                     whole: Lexed)
    requires i < |src| && FirstStep(src[i..]) in {Blank, Newline}
    requires Rest(src, i, line, toks, comments, whole)
    ensures Rest(src, i + 1, if FirstStep(src[i..]) == Newline then line + 1 else line, toks, comments, whole)
  {
    assert src[i..][1..] == src[i + 1..];
  }

  lemma {:induction false} RoundRemark(src: string, i: nat, line: nat, toks: seq<Token>, comments: seq<Comment>,
                                       whole: Lexed, text: string, n: nat)
    requires i < |src| && FirstStep(src[i..]) == Remark(text, n)
    requires Rest(src, i, line, toks, comments, whole)
    ensures Rest(src, i + n, line, toks, comments + [Comment(text, line)], whole)
  {
    assert Drop(src[i..], n) == Drop(src, i + n);
    var l := Scan(Drop(src, i + n), line);
    assert comments + ([Comment(text, line)] + l.comments) == (comments + [Comment(text, line)]) + l.comments;
  }

  lemma {:induction false} RoundEmit(src: string, i: nat, line: nat, toks: seq<Token>, comments: seq<Comment>,
                                     whole: Lexed, kind: Kind, text: string, n: nat)
    requires i < |src| && FirstStep(src[i..]) == Emit(kind, text, n)
    requires Rest(src, i, line, toks, comments, whole)
    ensures Rest(src, i + n, line, toks + [Token(kind, text, line)], comments, whole)
  {
    assert Drop(src[i..], n) == Drop(src, i + n);
    var l := Scan(Drop(src, i + n), line);
    assert toks + ([Token(kind, text, line)] + l.toks) == (toks + [Token(kind, text, line)]) + l.toks;
  }

  lemma RoundFirst(src: string)
    ensures Rest(src, 0, 1, [], [], Scan(src, 1))
  {
    assert Drop(src, 0) == src;
  }

  lemma {:induction false} RoundLast(src: string, i: nat, line: nat, toks: seq<Token>, comments: seq<Comment>,
                                     whole: Lexed)
    requires i >= |src| && Rest(src, i, line, toks, comments, whole)
    ensures whole == Lexed(toks + [Token(EOF, "", line)], comments)
  {
    assert Scan(Drop(src, i), line) == Lexed([Token(EOF, "", line)], []);
  }

  /** lex: one pass with a cursor, never indexing outside the source, equal to Scan on every input. */
  method Lex(src: string) returns (toks: seq<Token>, comments: seq<Comment>)
    ensures Lexed(toks, comments) == Scan(src, 1)
    ensures WellFormed(toks)
  {
    hide Rest, Scan, Prepend, WordLen, LineLen, QuotedLen;
    toks, comments := [], [];
    var line: nat := 1;
    var i: nat := 0;
    ghost var whole := Scan(src, 1);
    RoundFirst(src);
    while i < |src|
      invariant Rest(src, i, line, toks, comments, whole)
      decreases |src| - i
    {
      ghost var s := src[i..];
      var c := src[i];
      if c == '\n' {
        RoundSkip(src, i, line, toks, comments, whole);
        line := line + 1;
        i := i + 1;
      } else if c == ' ' || c == '\t' || c == '\r' {
        RoundSkip(src, i, line, toks, comments, whole);
        i := i + 1;
      } else if c == '#' {
        var j := SkipLine(src, i);
        assert s[..j - i] == src[i..j];
        RoundRemark(src, i, line, toks, comments, whole, CommentText(src[i..j]), j - i);
        comments := comments + [Comment(CommentText(src[i..j]), line)];
        i := j;
      } else if c == '"' {
        var j := SkipQuoted(src, i);
        assert src[i + 1..j] == s[1..j - i];
        RoundEmit(src, i, line, toks, comments, whole, Str, src[i + 1..j], j + 1 - i);
        toks := toks + [Token(Str, src[i + 1..j], line)];
        i := j + 1;
      } else if c == '{' {
        RoundEmit(src, i, line, toks, comments, whole, LBrace, "{", 1);
        toks := toks + [Token(LBrace, "{", line)];
        i := i + 1;
      } else if c == '}' {
        RoundEmit(src, i, line, toks, comments, whole, RBrace, "}", 1);
        toks := toks + [Token(RBrace, "}", line)];
        i := i + 1;
      } else if c == '(' {
        RoundEmit(src, i, line, toks, comments, whole, LParen, "(", 1);
        toks := toks + [Token(LParen, "(", line)];
        i := i + 1;
      } else if c == ')' {
        RoundEmit(src, i, line, toks, comments, whole, RParen, ")", 1);
        toks := toks + [Token(RParen, ")", line)];
        i := i + 1;
      } else if c == '=' {
        if i + 1 < |src| && (src[i + 1] == '=' || src[i + 1] == '~') {
          assert s[..2] == src[i..i + 2];
          RoundEmit(src, i, line, toks, comments, whole, Word, src[i..i + 2], 2);
          toks := toks + [Token(Word, src[i..i + 2], line)];
          i := i + 2;
        } else {
          RoundEmit(src, i, line, toks, comments, whole, Equals, "=", 1);
          toks := toks + [Token(Equals, "=", line)];
          i := i + 1;
        }
      } else if c == '!' && i + 1 < |src| && src[i + 1] == '=' {
        RoundEmit(src, i, line, toks, comments, whole, Word, "!=", 2);
        toks := toks + [Token(Word, "!=", line)];
        i := i + 2;
      } else {
        var j := SkipWord(src, i);
        assert s[..j - i] == src[i..j];
        RoundEmit(src, i, line, toks, comments, whole, Word, src[i..j], j - i);
        toks := toks + [Token(Word, src[i..j], line)];
        i := j;
      }
    }
    RoundLast(src, i, line, toks, comments, whole);
    toks := toks + [Token(EOF, "", line)];
    ScanWellFormed(src, 1);
  }

  /** The inner loop of the comment case. */
  method SkipLine(src: string, i: nat) returns (j: nat)
    requires i < |src|
    ensures i <= j <= |src| && j - i == LineLen(src[i..])
  {
    j := i;
    while j < |src| && src[j] != '\n'
      invariant i <= j <= |src|
      invariant forall k :: i <= k < j ==> src[k] != '\n'
    {
      j := j + 1;
    }
    LineLenAt(src[i..], j - i);
    assert src[i..][j - i..] == src[j..];
  }

  /** The inner loop of the bare-word case. */
  method SkipWord(src: string, i: nat) returns (j: nat)
    requires i < |src|
    ensures i <= j <= |src| && j - i == WordLen(src[i..])
  {
    j := i;
    while j < |src| && !IsDelim(src[j])
      invariant i <= j <= |src|
      invariant forall k :: i <= k < j ==> !IsDelim(src[k])
    {
      j := j + 1;
    }
    WordLenAt(src[i..], j - i);
    assert src[i..][j - i..] == src[j..];
  }

  /** The inner loop of the quoted-string case: a backslash takes the next character with it. */
  method SkipQuoted(src: string, i: nat) returns (j: nat)
    requires i < |src|
    ensures i < j <= |src| && j - i - 1 == QuotedLen(src[i..][1..])
  {
    j := i + 1;
    assert src[i..][1..] == src[j..];
    while j < |src| && src[j] != '"'
      invariant i < j <= |src|
      invariant QuotedLen(src[i + 1..]) == j - i - 1 + QuotedLen(src[j..])
    {
      if src[j] == '\\' && j + 1 < |src| {
        j := j + 1;
      }
      j := j + 1;
    }
  }
}
