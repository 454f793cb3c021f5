/** LaTeX tables written out and read back: their columns, rules, rows and cells. */
module TexTableLaws {
  import opened Text
  import opened TexEnvironments
  import opened TexStrings
  import opened TexTables
  import opened TexBlocks
  import opened TexContents
  import opened TexRoundTrip

  // ---------------------------------------------------------------- tables written out

  /** What may stand in front of a row: rules and additional space, the latter with an option or none. */
  datatype Deco = TopRule | MidRule | BottomRule | Line | Space(opt: string)

  /** Each on a line of its own. */
  function DecoText(d: Deco): string {
    match d
    case TopRule => "\\toprule\n"
    case MidRule => "\\midrule\n"
    case BottomRule => "\\bottomrule\n"
    case Line => "\\hline\n"
    case Space(opt) => "\\addlinespace" + opt + "\n"
  }

  function DecosText(ds: seq<Deco>): string {
    if ds == [] then "" else DecoText(ds[0]) + DecosText(ds[1..])
  }

  datatype Row = Row(decos: seq<Deco>, cells: seq<string>)

  function RowText(r: Row): string {
    "\n" + DecosText(r.decos) + Join(r.cells, " & ") + " "
  }

  /** The rows of a table, each ended by two backslashes, and what stands behind the last. */
  function RowsText(rows: seq<Row>, tail: seq<Deco>): string {
    if rows == [] then "\n" + DecosText(tail) else RowText(rows[0]) + "\\\\" + RowsText(rows[1..], tail)
  }

  predicate PlainDeco(d: Deco) {
    d.Space? ==> '\\' !in d.opt && (d.opt == "" || Bracketed(d.opt))
  }

  predicate PlainDecos(ds: seq<Deco>) {
    forall d :: d in ds ==> PlainDeco(d)
  }

  /** No two backslashes, no rule and no additional space. */
  predicate PlainText(s: string) {
    && Nowhere(s, "\\\\") && Nowhere(s, "\\toprule") && Nowhere(s, "\\midrule") && Nowhere(s, "\\bottomrule")
    && Nowhere(s, "\\hline") && Nowhere(s, "\\addlinespace")
  }

  /** A cell has no white space around it, and every ampersand in it stands behind a backslash. */
  predicate PlainCell(c: string) {
    && PlainText(c) && NoBlankEnds(c) && EndsPlain(c)
    && forall i :: 0 <= i < |c| && c[i] == '&' ==> i > 0 && c[i - 1] == '\\'
  }

  predicate PlainRow(r: Row) {
    && PlainDecos(r.decos) && r.cells != [] && r.cells != [""]
    && forall c :: c in r.cells ==> PlainCell(c)
  }

  function CellsOf(rows: seq<Row>): seq<seq<string>> {
    if rows == [] then [] else [rows[0].cells] + CellsOf(rows[1..])
  }

  // ---------------------------------------------------------------- columns

  function Letter(c: char): string {
    if c == 'l' || c == 'c' || c == 'r' || c == 'p' then [c] else ""
  }

  lemma LettersStep(c: char, b: string)
    ensures Letters([c] + b) == Letter(c) + Letters(b)
  {
    assert ([c] + b)[1..] == b;
    assert c in "lcrp" <==> c == 'l' || c == 'c' || c == 'r' || c == 'p';
  }

  /** The column letters are the characters l, c, r and p of the specification, in order. */
  lemma {:induction false} LettersAre(a: string, c: char, b: string)
    ensures Letters(a + [c] + b) == Letters(a) + Letter(c) + Letters(b)
    ensures Letters("") == ""
  {
    hide Letters, Letter;
    NoLetters();
    LettersStep(c, b);
    if a == "" {
      assert a + [c] + b == [c] + b;
      assert "" + Letter(c) + Letters(b) == Letter(c) + Letters(b);
    } else {
      LettersAre(a[1..], c, b);
      LettersStep(a[0], a[1..]);
      LettersStep(a[0], a[1..] + [c] + b);
      assert a == [a[0]] + a[1..];
      assert a + [c] + b == [a[0]] + (a[1..] + [c] + b);
      Assoc(Letter(a[0]), Letters(a[1..]), Letter(c) + Letters(b));
      assert Letters(a[1..]) + (Letter(c) + Letters(b)) == Letters(a[1..]) + Letter(c) + Letters(b);
      assert Letters(a) + (Letter(c) + Letters(b)) == Letters(a) + Letter(c) + Letters(b);
    }
  }

  lemma NoLetters()
    ensures Letters("") == ""
  {}

  // ---------------------------------------------------------------- rows

  /** Two backslashes behind a text without any end a row. */
  lemma SplitRow(x: string, rest: string)
    requires Nowhere(x, "\\\\") && EndsPlain(x)
    ensures SplitRows(x + "\\\\" + rest) == [x] + SplitRows(rest)
  {
    hide SplitRows, Find, Nowhere;
    var s := x + "\\\\" + rest;
    AtBehind(x, "\\\\", rest);
    forall k: nat | k < |x| ensures !At(s, "\\\\", k) {
      if k + 2 <= |x| {
        AtInside(x, "\\\\" + rest, "\\\\", k);
        assert x + ("\\\\" + rest) == s;
        NowhereAt(x, "\\\\", k);
      } else {
        assert s[k] == x[k];
        AtChar(s, "\\\\", k, 0);
      }
    }
    OneFirst(s, "\\\\", 0, |x|);
    SplitRowsIs(s);
    assert s[..|x|] == x && s[|x| + 2..] == rest;
  }

  lemma NowhereAt(x: string, pat: string, k: nat)
    requires Nowhere(x, pat)
    ensures !At(x, pat, k)
  {}

  lemma SplitRowsIs(s: string)
    ensures var k := Find(s, "\\\\", 0);
      SplitRows(s) == if k.None? then [s] else [s[..k.value]] + SplitRows(s[k.value + 2..])
  {
    hide Find;
  }

  lemma LastRow(x: string)
    requires Nowhere(x, "\\\\")
    ensures SplitRows(x) == [x]
  {
    FirstFound(x, "\\\\", 0);
  }

  /** A text without a pattern stays so behind another one when a character of none of its kind stands between. */
  lemma NowhereBehind(x: string, c: char, y: string, pat: string)
    requires Nowhere(x, pat) && Nowhere(y, pat) && c !in pat && pat != ""
    ensures Nowhere(x + [c] + y, pat)
  {
    var s := x + [c] + y;
    assert s[|x|] == c;
    forall p | 0 <= p <= |s| ensures !At(s, pat, p) {
      if p + |pat| <= |x| {
        AtInside(x, [c] + y, pat, p);
        assert x + ([c] + y) == s;
      } else if p <= |x| {
        AtChar(s, pat, p, |x| - p);
      } else {
        assert s == x + [c] + y;
        AtTail(x + [c], y, pat, p - |x| - 1);
      }
    }
  }

  lemma AtTail(a: string, b: string, pat: string, p: nat)
    ensures At(a + b, pat, |a| + p) == At(b, pat, p)
  {
    if p + |pat| <= |b| {
      assert (a + b)[|a| + p..|a| + p + |pat|] == b[p..p + |pat|];
    }
  }

  // ---------------------------------------------------------------- cells

  /** An ampersand behind no backslash, at i. */
  predicate Divides(r: string, i: nat)
    requires i < |r|
  {
    r[i] == '&' && (i > 0 ==> r[i - 1] != '\\')
  }

  lemma {:induction false} CellEndIs(r: string, i: nat)
    requires i <= |r|
    ensures var k := CellEnd(r, i); (k < |r| ==> Divides(r, k)) && forall j :: i <= j < k ==> !Divides(r, j)
    decreases |r| - i
  {
    if i < |r| && !(r[i] == '&' && !Escaped(r, i)) {
      CellEndIs(r, i + 1);
    }
  }

  lemma CellEndAt(r: string, k: nat)
    requires k <= |r| && (k < |r| ==> Divides(r, k)) && forall j :: 0 <= j < k ==> !Divides(r, j)
    ensures CellEnd(r, 0) == k
  {
    CellEndIs(r, 0);
  }

  lemma {:induction false} LStripPieces(s: string) returns (a: string)
    ensures s == a + LStrip(s) && AllBlank(a) && (LStrip(s) != "" ==> !IsPySpace(LStrip(s)[0]))
  {
    a := s[..RunLen(s, IsPySpace)];
  }

  lemma {:induction false} RStripPieces(s: string) returns (b: string)
    ensures s == RStrip(s) + b && AllBlank(b)
    ensures RStrip(s) != "" ==> !IsPySpace(RStrip(s)[|RStrip(s)| - 1]) && RStrip(s)[0] == s[0]
  {
    b := "";
    if s != "" && IsPySpace(s[|s| - 1]) {
      var c := RStripPieces(s[..|s| - 1]);
      b := c + [s[|s| - 1]];
    }
  }

  lemma StripPieces(s: string) returns (a: string, b: string)
    ensures s == a + Strip(s) + b && AllBlank(a) && AllBlank(b) && NoBlankEnds(Strip(s))
  {
    hide LStrip, RStrip, IsPySpace;
    a := LStripPieces(s);
    b := RStripPieces(LStrip(s));
    Assoc(a, Strip(s), b);
  }

  /** White space around a text does not matter to what is left of it. */
  lemma StripAround(a: string, s: string, b: string)
    requires AllBlank(a) && AllBlank(b)
    ensures Strip(a + s + b) == Strip(s)
  {
    hide *;
    var x, y := StripPieces(s);
    var t := Strip(s);
    assert a + s + b == (a + x) + t + (y + b);
    BlankBoth(a, x);
    BlankBoth(y, b);
    StripIs(a + x, t, y + b);
  }

  lemma BlankBoth(a: string, b: string)
    requires AllBlank(a) && AllBlank(b)
    ensures AllBlank(a + b)
  {
    hide IsPySpace;
  }

  lemma CellsIs(r: string)
    ensures var k := CellEnd(r, 0);
      Cells(r) == if k == |r| then [Strip(r)] else [Strip(r[..k])] + Cells(r[k + 1..])
  {
    hide Strip, CellEnd;
  }

  lemma NoBlankAmp()
    ensures !IsPySpace('&') && !IsPySpace('\\')
  {}

  /** Nor does white space in front of a row or behind it to its cells. */
  lemma {:induction false} CellsAround(a: string, r: string, b: string)
    requires AllBlank(a) && AllBlank(b)
    ensures Cells(a + r + b) == Cells(r)
    decreases |r|
  {
    hide *;
    NoBlankAmp();
    var s := a + r + b;
    var k := CellEnd(r, 0);
    CellEndIs(r, 0);
    CellsIs(r);
    CellsIs(s);
    if k == |r| {
      NoDivision(a, r, b);
      CellEndAt(s, |s|);
      StripAround(a, r, b);
    } else {
      FirstDivision(a, r, b, k);
      CellEndAt(s, |a| + k);
      CutAround(a, r, b, k);
      StripAround(a, r[..k], "") by {
        BlankNothing();
      }
      assert a + r[..k] + "" == a + r[..k];
      CellsAround("", r[k + 1..], b) by {
        BlankNothing();
      }
      assert "" + r[k + 1..] + b == r[k + 1..] + b;
    }
  }

  lemma BlankNothing()
    ensures AllBlank("")
  {}

  lemma CutAround(a: string, r: string, b: string, k: nat)
    requires k < |r|
    ensures var s := a + r + b; s[..|a| + k] == a + r[..k] && s[|a| + k + 1..] == r[k + 1..] + b
  {}

  lemma DividesInside(a: string, r: string, b: string, j: nat)
    requires AllBlank(a) && AllBlank(b) && j < |a + r + b|
    ensures Divides(a + r + b, j) <==> |a| <= j < |a + r| && Divides(r, j - |a|)
  {
    hide IsPySpace;
    NoBlankAmp();
    var s := a + r + b;
    if j < |a| {
      assert s[j] == a[j];
    } else if j < |a + r| {
      assert s[j] == r[j - |a|] && (j > 0 ==> s[j - 1] == if j > |a| then r[j - 1 - |a|] else a[j - 1]);
    } else {
      assert s[j] == b[j - |a + r|];
    }
  }

  lemma NoDivision(a: string, r: string, b: string)
    requires AllBlank(a) && AllBlank(b) && forall j :: 0 <= j < |r| ==> !Divides(r, j)
    ensures forall j :: 0 <= j < |a + r + b| ==> !Divides(a + r + b, j)
  {
    hide AllBlank, Divides;
    forall j | 0 <= j < |a + r + b| ensures !Divides(a + r + b, j) {
      DividesInside(a, r, b, j);
    }
  }

  lemma FirstDivision(a: string, r: string, b: string, k: nat)
    requires AllBlank(a) && AllBlank(b) && k < |r| && Divides(r, k) && forall j :: 0 <= j < k ==> !Divides(r, j)
    ensures Divides(a + r + b, |a| + k) && forall j :: 0 <= j < |a| + k ==> !Divides(a + r + b, j)
  {
    hide AllBlank, Divides;
    DividesInside(a, r, b, |a| + k);
    forall j | 0 <= j < |a| + k ensures !Divides(a + r + b, j) {
      DividesInside(a, r, b, j);
    }
  }

  /** The cells of a row are read back. */
  lemma {:induction false} CellsRead(cells: seq<string>)
    requires cells != [] && forall c :: c in cells ==> PlainCell(c)
    ensures Cells(Join(cells, " & ")) == cells
  {
    hide *;
    var c := cells[0];
    PlainCellParts(c);
    StripKeeps(c);
    JoinIs(cells);
    if |cells| == 1 {
      CellEndAt(c, |c|);
      CellsIs(c);
      assert cells == [c];
    } else {
      var rest := Join(cells[1..], " & ");
      CellsRead(cells[1..]);
      var s := c + " & " + rest;
      CellBefore(c, rest);
      CellEndAt(s, |c| + 1);
      CellsIs(s);
      SpaceBlank();
      StripAround("", c, " ");
      assert "" + c + " " == c + " ";
      CellsAround(" ", rest, "");
      assert " " + rest + "" == " " + rest;
      assert [c] + cells[1..] == cells;
    }
  }

  lemma SpaceBlank()
    ensures AllBlank("") && AllBlank(" ") && AllBlank("\n")
  {}

  lemma JoinIs(cells: seq<string>)
    requires cells != []
    ensures Join(cells, " & ") == if |cells| == 1 then cells[0] else cells[0] + " & " + Join(cells[1..], " & ")
  {}

  lemma PlainCellParts(c: string)
    requires PlainCell(c)
    ensures PlainText(c) && NoBlankEnds(c) && EndsPlain(c) && forall j :: 0 <= j < |c| ==> !Divides(c, j)
  {
    hide PlainText, NoBlankEnds;
  }

  lemma CellBefore(c: string, rest: string)
    requires forall j :: 0 <= j < |c| ==> !Divides(c, j)
    ensures var s := c + " & " + rest;
      && Divides(s, |c| + 1) && (forall j :: 0 <= j < |c| + 1 ==> !Divides(s, j))
      && s[..|c| + 1] == c + " " && s[|c| + 2..] == " " + rest
  {
    var s := c + " & " + rest;
    assert s[|c|] == ' ' && s[|c| + 1] == '&';
    forall j | 0 <= j < |c| ensures !Divides(s, j) {
      assert s[j] == c[j] && (j > 0 ==> s[j - 1] == c[j - 1]);
      assert !Divides(c, j);
    }
  }

  // ---------------------------------------------------------------- rules and additional space

  predicate NoRules(s: string) {
    Nowhere(s, "\\toprule") && Nowhere(s, "\\midrule") && Nowhere(s, "\\bottomrule") && Nowhere(s, "\\hline")
  }

  lemma PrefixIsAt(s: string, pat: string)
    ensures HasPrefix(s, pat) <==> At(s, pat, 0)
  {
    assert |pat| <= |s| ==> s[0..|pat|] == s[..|pat|];
  }

  lemma NoPrefix(s: string, pat: string)
    requires Nowhere(s, pat)
    ensures !HasPrefix(s, pat)
  {
    PrefixIsAt(s, pat);
  }

  lemma NowhereTail(s: string, pat: string)
    requires s != "" && Nowhere(s, pat)
    ensures Nowhere(s[1..], pat)
  {
    hide At;
    assert s == s[..1] + s[1..];
    forall p | 0 <= p <= |s[1..]| ensures !At(s[1..], pat, p) {
      AtTail(s[..1], s[1..], pat, p);
      assert |s[..1]| + p == 1 + p;
      assert !At(s, pat, 1 + p);
    }
  }

  /** A text without rules stays as it is. */
  lemma {:induction false} NothingDropped(s: string)
    requires NoRules(s)
    ensures DropRules(s) == s
  {
    hide Nowhere;
    if s != "" {
      NoPrefix(s, "\\toprule");
      NoPrefix(s, "\\midrule");
      NoPrefix(s, "\\bottomrule");
      NoPrefix(s, "\\hline");
      NowhereTail(s, "\\toprule");
      NowhereTail(s, "\\midrule");
      NowhereTail(s, "\\bottomrule");
      NowhereTail(s, "\\hline");
      NothingDropped(s[1..]);
    }
  }

  lemma {:induction false} NoSpaceDropped(s: string)
    requires Nowhere(s, "\\addlinespace")
    ensures DropSpacing(s) == s
  {
    hide Nowhere;
    if s != "" {
      NoPrefix(s, "\\addlinespace");
      NowhereTail(s, "\\addlinespace");
      NoSpaceDropped(s[1..]);
    }
  }

  lemma DropRulesIs(s: string)
    requires s != ""
    ensures RuleLen(s) > 0 ==> DropRules(s) == DropRules(s[RuleLen(s)..])
    ensures RuleLen(s) == 0 ==> DropRules(s) == [s[0]] + DropRules(s[1..])
  {
    hide RuleLen;
  }

  lemma DropSpacingIs(s: string)
    requires s != ""
    ensures SpacingLen(s) > 0 ==> DropSpacing(s) == DropSpacing(s[SpacingLen(s)..])
    ensures SpacingLen(s) == 0 ==> DropSpacing(s) == [s[0]] + DropSpacing(s[1..])
  {
    hide SpacingLen;
  }

  /** Text before the first backslash is kept. */
  lemma {:induction false} KeptBefore(x: string, y: string)
    requires '\\' !in x
    ensures DropRules(x + y) == x + DropRules(y) && DropSpacing(x + y) == x + DropSpacing(y)
  {
    hide *;
    var s := x + y;
    if x == "" {
      assert s == y;
      assert "" + DropRules(y) == DropRules(y) && "" + DropSpacing(y) == DropSpacing(y);
    } else {
      assert s[0] == x[0] && s[1..] == x[1..] + y;
      NoCommand(s);
      KeptBefore(x[1..], y);
      DropRulesIs(s);
      DropSpacingIs(s);
      Assoc([x[0]], x[1..], DropRules(y));
      Assoc([x[0]], x[1..], DropSpacing(y));
      assert [x[0]] + x[1..] == x;
    }
  }

  lemma NoCommand(s: string)
    requires s != "" && s[0] != '\\'
    ensures RuleLen(s) == 0 && SpacingLen(s) == 0
  {
    PrefixChar(s, "\\toprule", 0);
    PrefixChar(s, "\\midrule", 0);
    PrefixChar(s, "\\bottomrule", 0);
    PrefixChar(s, "\\hline", 0);
    PrefixChar(s, "\\addlinespace", 0);
  }

  lemma PrefixChar(s: string, pat: string, i: nat)
    requires i < |pat|
    ensures HasPrefix(s, pat) ==> i < |s| && s[i] == pat[i]
  {
    if HasPrefix(s, pat) {
      assert s[..|pat|][i] == s[i];
    }
  }

  predicate NoBlanks(pat: string) {
    forall i :: 0 <= i < |pat| ==> !IsPySpace(pat[i])
  }

  lemma PrefixAround(s: string, b: string, pat: string)
    requires AllBlank(b) && NoBlanks(pat)
    ensures HasPrefix(s + b, pat) <==> HasPrefix(s, pat)
  {
    hide IsPySpace;
    if |pat| <= |s| {
      assert (s + b)[..|pat|] == s[..|pat|];
    } else if b != "" {
      assert (s + b)[|s|] == b[0];
      PrefixChar(s + b, pat, |s|);
    }
  }

  lemma NoBlankCommands()
    ensures NoBlanks("\\toprule") && NoBlanks("\\midrule") && NoBlanks("\\bottomrule") && NoBlanks("\\hline")
    ensures NoBlanks("\\addlinespace")
    ensures !IsPySpace('[') && !IsPySpace(']') && !IsPySpace('\\')
  {}

  lemma RuleAround(s: string, b: string)
    requires AllBlank(b)
    ensures RuleLen(s + b) == RuleLen(s)
  {
    hide IsPySpace, AllBlank, HasPrefix, NoBlanks;
    NoBlankCommands();
    PrefixAround(s, b, "\\toprule");
    PrefixAround(s, b, "\\midrule");
    PrefixAround(s, b, "\\bottomrule");
    PrefixAround(s, b, "\\hline");
  }

  lemma BracketAround(s: string, b: string, pos: nat)
    requires AllBlank(b) && pos <= |s|
    ensures Find(s + b, "]", pos) == Find(s, "]", pos)
  {
    hide IsPySpace, At, Find;
    NoBlankCommands();
    var r := Find(s, "]", pos);
    FirstFound(s, "]", pos);
    forall q: nat | pos <= q ensures At(s + b, "]", q) == At(s, "]", q) {
      CharAt(s + b, ']', q);
      CharAt(s, ']', q);
      if |s| <= q < |s + b| {
        assert (s + b)[q] == b[q - |s|];
      }
    }
    FindDecided(s + b, "]", pos, r);
  }

  lemma FindDecided(s: string, pat: string, i: nat, r: Option<nat>)
    requires r.Some? ==> i <= r.value && At(s, pat, r.value)
    requires forall q: nat :: i <= q && (r.Some? ==> q < r.value) ==> !At(s, pat, q)
    ensures Find(s, pat, i) == r
  {
    hide At;
    var t := Find(s, pat, i);
    assert t.Some? ==> At(s, pat, t.value);
  }

  lemma SpacingAround(s: string, b: string)
    requires AllBlank(b)
    ensures SpacingLen(s + b) == SpacingLen(s)
  {
    hide IsPySpace, HasPrefix, NoBlanks, Find;
    NoBlankCommands();
    PrefixAround(s, b, "\\addlinespace");
    if HasPrefix(s, "\\addlinespace") {
      PrefixLength(s);
      if |s| > 13 {
        assert (s + b)[13] == s[13];
        BracketAround(s, b, 14);
      } else if b != "" {
        assert (s + b)[13] == b[0];
      }
    }
  }

  lemma PrefixLength(s: string)
    requires HasPrefix(s, "\\addlinespace")
    ensures |s| >= 13
  {}

  /** White space behind a text is kept, too. */
  lemma {:induction false} KeptBehind(s: string, b: string)
    requires AllBlank(b)
    ensures DropRules(s + b) == DropRules(s) + b
  {
    hide *;
    if s == "" {
      BlankPlain(b);
      KeptBefore(b, "");
      NothingLeft();
      assert s + b == b && b + "" == b && "" + b == b;
    } else {
      RuleAround(s, b);
      DropRulesIs(s);
      DropRulesIs(s + b);
      var n := if RuleLen(s) > 0 then RuleLen(s) else 1;
      KeptBehind(s[n..], b);
      assert (s + b)[n..] == s[n..] + b && (s + b)[0] == s[0];
      Assoc([s[0]], DropRules(s[1..]), b);
    }
  }

  lemma {:induction false} SpaceKeptBehind(s: string, b: string)
    requires AllBlank(b)
    ensures DropSpacing(s + b) == DropSpacing(s) + b
  {
    hide *;
    if s == "" {
      BlankPlain(b);
      KeptBefore(b, "");
      NothingLeft();
      assert s + b == b && b + "" == b && "" + b == b;
    } else {
      SpacingAround(s, b);
      DropSpacingIs(s);
      DropSpacingIs(s + b);
      var n := if SpacingLen(s) > 0 then SpacingLen(s) else 1;
      SpaceKeptBehind(s[n..], b);
      assert (s + b)[n..] == s[n..] + b && (s + b)[0] == s[0];
      Assoc([s[0]], DropSpacing(s[1..]), b);
    }
  }

  lemma NothingLeft()
    ensures DropRules("") == "" && DropSpacing("") == ""
  {}

  lemma BlankPlain(b: string)
    requires AllBlank(b)
    ensures '\\' !in b
  {}

  function Dropped(s: string): string {
    DropSpacing(DropRules(s))
  }

  lemma DroppedAround(a: string, s: string, b: string)
    requires AllBlank(a) && AllBlank(b)
    ensures Dropped(a + s + b) == a + Dropped(s) + b
  {
    hide *;
    BlankPlain(a);
    assert a + s + b == a + (s + b);
    KeptBefore(a, s + b);
    KeptBehind(s, b);
    KeptBefore(a, DropRules(s) + b);
    SpaceKeptBehind(DropRules(s), b);
    DroppedIs(s);
    DroppedIs(a + s + b);
    assert a + (Dropped(s) + b) == a + Dropped(s) + b;
  }

  lemma DroppedIs(s: string)
    ensures Dropped(s) == DropSpacing(DropRules(s))
  {}

  lemma CleanRowIs(raw: string)
    ensures CleanRow(raw) == Strip(Dropped(Strip(raw)))
  {}

  /** A row's text without its rules and additional space, and without white space around it. */
  lemma CleanIs(raw: string)
    ensures CleanRow(raw) == Strip(Dropped(raw))
  {
    hide *;
    CleanRowIs(raw);
    var a, b := StripPieces(raw);
    DroppedAround(a, Strip(raw), b);
    StripAround(a, Dropped(Strip(raw)), b);
  }

  // ---------------------------------------------------------------- the decorations of a row

  function Newlines(n: nat): (s: string)
    ensures AllBlank(s)
  {
    if n == 0 then "" else "\n" + Newlines(n - 1)
  }

  /** Decorations without their rules. */
  function SpacesText(ds: seq<Deco>): string {
    if ds == [] then ""
    else SpaceText(ds[0]) + "\n" + SpacesText(ds[1..])
  }

  lemma RuleDropped(cmd: string, y: string)
    requires cmd in ["\\toprule", "\\midrule", "\\bottomrule", "\\hline"]
    ensures DropRules(cmd + y) == DropRules(y)
  {
    hide DropRules;
    var s := cmd + y;
    assert s[..|cmd|] == cmd && s[|cmd|..] == y;
    RulePrefix(s, cmd);
    DropRulesIs(s);
  }

  lemma RulePrefix(s: string, cmd: string)
    requires cmd in ["\\toprule", "\\midrule", "\\bottomrule", "\\hline"] && HasPrefix(s, cmd)
    ensures s != "" && RuleLen(s) == |cmd|
  {
    assert s[..|cmd|][1] == s[1];
    if cmd == "\\bottomrule" {
      PrefixChar(s, "\\toprule", 1);
      PrefixChar(s, "\\midrule", 1);
    } else if cmd == "\\hline" {
      PrefixChar(s, "\\toprule", 1);
      PrefixChar(s, "\\midrule", 1);
      PrefixChar(s, "\\bottomrule", 1);
    }
  }

  lemma SpaceIsNoRule(opt: string, y: string)
    requires '\\' !in opt
    ensures DropRules("\\addlinespace" + opt + y) == "\\addlinespace" + opt + DropRules(y)
  {
    hide *;
    var x := "addlinespace" + opt;
    var s := "\\addlinespace" + opt + y;
    assert s == "\\" + (x + y);
    SpaceStarts(x, y, opt);
    KeptBefore(x, y);
    DropRulesIs(s);
    assert ['\\'] + (x + DropRules(y)) == "\\addlinespace" + opt + DropRules(y);
  }

  lemma SpaceStarts(x: string, y: string, opt: string)
    requires x == "addlinespace" + opt && '\\' !in opt
    ensures var s := "\\" + (x + y);
      '\\' !in x && s != "" && s[0] == '\\' && s[1..] == x + y && RuleLen(s) == 0
  {
    var s := "\\" + (x + y);
    assert s[1] == x[0] == 'a';
    PrefixChar(s, "\\toprule", 1);
    PrefixChar(s, "\\midrule", 1);
    PrefixChar(s, "\\bottomrule", 1);
    PrefixChar(s, "\\hline", 1);
  }

  lemma {:induction false} RulesOut(ds: seq<Deco>, y: string)
    requires PlainDecos(ds)
    ensures DropRules(DecosText(ds) + y) == SpacesText(ds) + DropRules(y)
  {
    hide DropRules, DecoText, SpaceText, PlainDeco;
    if ds == [] {
      assert DecosText(ds) + y == y && SpacesText(ds) + DropRules(y) == DropRules(y);
    } else {
      RulesOut(ds[1..], y);
      assert PlainDeco(ds[0]);
      RuleOut(ds[0], DecosText(ds[1..]) + y);
      Assoc(DecoText(ds[0]), DecosText(ds[1..]), y);
      Assoc(SpaceText(ds[0]) + "\n", SpacesText(ds[1..]), DropRules(y));
    }
  }

  lemma RuleOut(d: Deco, rest: string)
    requires PlainDeco(d)
    ensures DropRules(DecoText(d) + rest) == SpaceText(d) + "\n" + DropRules(rest)
  {
    hide *;
    NewlinePlain();
    KeptBefore("\n", rest);
    var cmd := CommandOf(d);
    DecoIs(d);
    assert cmd + "\n" + rest == cmd + ("\n" + rest);
    if d.Space? {
      PlainSpace(d);
      SpaceIsNoRule(d.opt, "\n" + rest);
      Assoc(cmd, "\n", DropRules(rest));
    } else {
      RuleDropped(cmd, "\n" + rest);
      assert "" + "\n" + DropRules(rest) == "\n" + DropRules(rest);
    }
  }

  function CommandOf(d: Deco): string {
    match d
    case TopRule => "\\toprule"
    case MidRule => "\\midrule"
    case BottomRule => "\\bottomrule"
    case Line => "\\hline"
    case Space(opt) => "\\addlinespace" + opt
  }

  function SpaceText(d: Deco): string {
    if d.Space? then "\\addlinespace" + d.opt else ""
  }

  lemma DecoIs(d: Deco)
    ensures DecoText(d) == CommandOf(d) + "\n"
    ensures SpaceText(d) == if d.Space? then "\\addlinespace" + d.opt else ""
    ensures if d.Space? then CommandOf(d) == "\\addlinespace" + d.opt
            else CommandOf(d) in ["\\toprule", "\\midrule", "\\bottomrule", "\\hline"]
  {}

  lemma PlainSpace(d: Deco)
    requires PlainDeco(d) && d.Space?
    ensures '\\' !in d.opt && (d.opt == "" || Bracketed(d.opt))
  {
    hide Bracketed;
  }

  lemma SpaceDropped(opt: string, rest: string)
    requires opt == "" || Bracketed(opt)
    ensures DropSpacing("\\addlinespace" + opt + "\n" + rest) == DropSpacing("\n" + rest)
  {
    hide DropSpacing, Find;
    var cmd := "\\addlinespace";
    var s := cmd + opt + "\n" + rest;
    assert s[..13] == cmd;
    if opt == "" {
      assert s[13] == '\n';
    } else {
      assert s == cmd + opt + ("\n" + rest);
      AtBehind(cmd, opt, "\n" + rest);
      OptionsEnd(s, opt, 13);
      BehindOpening(s, 13);
    }
    assert SpacingLen(s) == 13 + |opt|;
    assert s[13 + |opt|..] == "\n" + rest;
    DropSpacingIs(s);
  }

  /** An option that never ends is no option: only the command is dropped. */
  lemma OpenSpaceDropped(rest: string)
    requires ']' !in rest
    ensures DropSpacing("\\addlinespace[" + rest) == "[" + DropSpacing(rest)
  {
    hide DropSpacing, Find;
    var cmd := "\\addlinespace";
    var s := cmd + ("[" + rest);
    assert "\\addlinespace[" == cmd + "[";
    assert "\\addlinespace[" + rest == s;
    assert s[..13] == cmd && s[13..] == "[" + rest && s[13] == '[';
    FirstFound(s, "]", 14);
    forall p: nat | 14 <= p ensures !At(s, "]", p) {
      CharAt(s, ']', p);
      assert p < |s| ==> s[p] == rest[p - 14];
    }
    assert SpacingLen(s) == 13;
    DropSpacingIs(s);
    KeptBefore("[", rest) by {
      assert '\\' !in "[";
    }
  }

  lemma BehindOpening(s: string, j: nat)
    requires j < |s| && s[j] == '['
    ensures Find(s, "]", j) == Find(s, "]", j + 1)
  {
    CharAt(s, ']', j);
  }

  lemma {:induction false} SpacesOut(ds: seq<Deco>, y: string)
    requires PlainDecos(ds)
    ensures DropSpacing(SpacesText(ds) + y) == Newlines(|ds|) + DropSpacing(y)
  {
    hide DropSpacing, SpaceText, PlainDeco, AllBlank;
    if ds == [] {
      assert SpacesText(ds) + y == y && Newlines(|ds|) + DropSpacing(y) == DropSpacing(y);
    } else {
      SpacesOut(ds[1..], y);
      assert PlainDeco(ds[0]);
      SpaceOut(ds[0], SpacesText(ds[1..]) + y);
      Assoc(SpaceText(ds[0]) + "\n", SpacesText(ds[1..]), y);
      Assoc("\n", Newlines(|ds| - 1), DropSpacing(y));
    }
  }

  lemma SpaceOut(d: Deco, rest: string)
    requires PlainDeco(d)
    ensures DropSpacing(SpaceText(d) + "\n" + rest) == "\n" + DropSpacing(rest)
  {
    hide *;
    NewlinePlain();
    KeptBefore("\n", rest);
    DecoIs(d);
    if d.Space? {
      PlainSpace(d);
      SpaceDropped(d.opt, rest);
    } else {
      assert "" + "\n" + rest == "\n" + rest;
    }
  }

  /** Decorations in front of a plain text are dropped. */
  lemma DecosOut(ds: seq<Deco>, y: string)
    requires PlainDecos(ds) && PlainText(y)
    ensures Dropped("\n" + DecosText(ds) + y) == "\n" + (Newlines(|ds|) + y)
  {
    hide *;
    PlainTextParts(y);
    assert "\n" + DecosText(ds) + y == "\n" + (DecosText(ds) + y);
    NewlinePlain();
    KeptBefore("\n", DecosText(ds) + y);
    RulesOut(ds, y);
    NothingDropped(y);
    KeptBefore("\n", SpacesText(ds) + y);
    SpacesOut(ds, y);
    NoSpaceDropped(y);
    DroppedIs("\n" + DecosText(ds) + y);
  }

  lemma NewlinePlain()
    ensures '\\' !in "\n"
  {}

  lemma PlainTextParts(y: string)
    requires PlainText(y)
    ensures NoRules(y) && Nowhere(y, "\\addlinespace") && Nowhere(y, "\\\\") && Nowhere(y, "\\midrule")
  {
    hide Nowhere;
  }

  // ---------------------------------------------------------------- the rows of a table

  lemma {:induction false} JoinNowhere(cells: seq<string>, pat: string)
    requires cells != [] && |pat| > 1 && ' ' !in pat && forall c :: c in cells ==> Nowhere(c, pat)
    ensures Nowhere(Join(cells, " & "), pat)
  {
    hide Join, Nowhere;
    JoinIs(cells);
    assert Nowhere(cells[0], pat);
    if |cells| > 1 {
      JoinNowhere(cells[1..], pat);
      var rest := Join(cells[1..], " & ");
      ShortNowhere("&", pat);
      NowhereBehind("&", ' ', rest, pat);
      NowhereBehind(cells[0], ' ', "&" + " " + rest, pat);
      assert cells[0] + " " + ("&" + " " + rest) == cells[0] + " & " + rest;
    }
  }

  lemma ShortNowhere(s: string, pat: string)
    requires |s| < |pat|
    ensures Nowhere(s, pat)
  {}

  lemma JoinPlain(cells: seq<string>)
    requires cells != [] && forall c :: c in cells ==> PlainCell(c)
    ensures PlainText(Join(cells, " & ") + " ")
  {
    hide *;
    forall c | c in cells ensures PlainText(c) {
      PlainCellParts(c);
    }
    PatternsPlain();
    JoinSpaced(cells, "\\\\") by { CellsWithout(cells); }
    JoinSpaced(cells, "\\toprule") by { CellsWithout(cells); }
    JoinSpaced(cells, "\\midrule") by { CellsWithout(cells); }
    JoinSpaced(cells, "\\bottomrule") by { CellsWithout(cells); }
    JoinSpaced(cells, "\\hline") by { CellsWithout(cells); }
    JoinSpaced(cells, "\\addlinespace") by { CellsWithout(cells); }
    PlainTextIs(Join(cells, " & ") + " ");
  }

  lemma PatternsPlain()
    ensures |"\\\\"| > 1 && ' ' !in "\\\\" && |"\\toprule"| > 1 && ' ' !in "\\toprule"
    ensures |"\\midrule"| > 1 && ' ' !in "\\midrule" && |"\\bottomrule"| > 1 && ' ' !in "\\bottomrule"
    ensures |"\\hline"| > 1 && ' ' !in "\\hline" && |"\\addlinespace"| > 1 && ' ' !in "\\addlinespace"
  {}

  lemma CellsWithout(cells: seq<string>)
    requires forall c :: c in cells ==> PlainText(c)
    ensures forall c :: c in cells ==> Nowhere(c, "\\\\") && Nowhere(c, "\\toprule") && Nowhere(c, "\\midrule")
    ensures forall c :: c in cells ==>
              Nowhere(c, "\\bottomrule") && Nowhere(c, "\\hline") && Nowhere(c, "\\addlinespace")
  {
    hide Nowhere;
  }

  lemma PlainTextIs(s: string)
    requires Nowhere(s, "\\\\") && Nowhere(s, "\\toprule") && Nowhere(s, "\\midrule") && Nowhere(s, "\\bottomrule")
    requires Nowhere(s, "\\hline") && Nowhere(s, "\\addlinespace")
    ensures PlainText(s)
  {
    hide Nowhere;
  }

  lemma JoinSpaced(cells: seq<string>, pat: string)
    requires cells != [] && |pat| > 1 && ' ' !in pat && forall c :: c in cells ==> Nowhere(c, pat)
    ensures Nowhere(Join(cells, " & ") + " ", pat)
  {
    hide *;
    JoinNowhere(cells, pat);
    ShortNowhere("", pat);
    NowhereBehind(Join(cells, " & "), ' ', "", pat);
    assert Join(cells, " & ") + " " + "" == Join(cells, " & ") + " ";
  }

  lemma RowTextIs(r: Row)
    ensures RowText(r) == "\n" + DecosText(r.decos) + (Join(r.cells, " & ") + " ")
  {
    hide Join, DecosText;
  }

  /** A row's own cells come out of its text. */
  lemma RowCells(r: Row)
    requires PlainRow(r)
    ensures CleanRow(RowText(r)) != "" && Cells(CleanRow(RowText(r))) == r.cells
  {
    hide *;
    var j := Join(r.cells, " & ");
    PlainRowParts(r);
    JoinPlain(r.cells);
    RowTextIs(r);
    DecosOut(r.decos, j + " ");
    CleanIs(RowText(r));
    var front := "\n" + Newlines(|r.decos|);
    BlankFront(|r.decos|);
    assert "\n" + (Newlines(|r.decos|) + (j + " ")) == front + j + " ";
    SpaceBlank();
    StripAround(front, j, " ");
    var a, b := StripPieces(j);
    CellsAround(a, Strip(j), b);
    CellsRead(r.cells);
    EmptyCells();
  }

  lemma BlankFront(n: nat)
    ensures AllBlank("\n" + Newlines(n))
  {}

  lemma EmptyCells()
    ensures Cells("") == [""]
  {
    assert Strip("") == "";
  }

  lemma PlainRowParts(r: Row)
    requires PlainRow(r)
    ensures PlainDecos(r.decos) && r.cells != [] && r.cells != [""] && forall c :: c in r.cells ==> PlainCell(c)
  {
    hide PlainCell, PlainDecos;
  }

  lemma TailCells(tail: seq<Deco>)
    requires PlainDecos(tail)
    ensures CleanRow("\n" + DecosText(tail)) == ""
  {
    hide *;
    NothingPlain();
    DecosOut(tail, "");
    assert "\n" + DecosText(tail) + "" == "\n" + DecosText(tail);
    CleanIs("\n" + DecosText(tail));
    BlankFront(|tail|);
    assert "\n" + (Newlines(|tail|) + "") == "\n" + Newlines(|tail|);
    StripBlank("\n" + Newlines(|tail|));
  }

  lemma NothingPlain()
    ensures PlainText("")
  {}

  // ---------------------------------------------------------------- what a row holds

  /** A text whose only backslash is in front holds no other command. */
  lemma OtherCommand(text: string, pat: string)
    requires |text| > 1 && text[0] == '\\' && (forall i :: 0 < i < |text| ==> text[i] != '\\')
    requires |pat| > 1 && pat[0] == '\\' && text[1] != pat[1]
    ensures Nowhere(text, pat)
  {
    forall p | 0 <= p <= |text| ensures !At(text, pat, p) {
      AtChar(text, pat, p, 0);
      AtChar(text, pat, p, 1);
    }
  }

  lemma CommandShape(d: Deco)
    requires PlainDeco(d)
    ensures var c := CommandOf(d);
      && |c| > 1 && c[0] == '\\' && (forall i :: 0 < i < |c| ==> c[i] != '\\')
      && c[1] == (match d
                  case TopRule => 't'
                  case MidRule => 'm'
                  case BottomRule => 'b'
                  case Line => 'h'
                  case Space(_) => 'a')
  {
    hide Bracketed;
  }

  lemma DecoPlain(d: Deco)
    requires PlainDeco(d)
    ensures Nowhere(CommandOf(d), "\\\\") && (!d.MidRule? ==> Nowhere(CommandOf(d), "\\midrule"))
  {
    hide Nowhere, CommandOf;
    CommandShape(d);
    OtherCommand(CommandOf(d), "\\\\");
    if !d.MidRule? {
      OtherCommand(CommandOf(d), "\\midrule");
    }
  }

  /** Decorations and a text behind them hold a pattern only where one of them does. */
  lemma {:induction false} DecosNowhere(ds: seq<Deco>, y: string, pat: string)
    requires Nowhere(y, pat) && '\n' !in pat && pat != "" && forall d :: d in ds ==> Nowhere(CommandOf(d), pat)
    ensures Nowhere(DecosText(ds) + y, pat)
  {
    hide Nowhere, DecoText, CommandOf;
    if ds == [] {
      assert DecosText(ds) + y == y;
    } else {
      DecosNowhere(ds[1..], y, pat);
      DecoIs(ds[0]);
      NowhereBehind(CommandOf(ds[0]), '\n', DecosText(ds[1..]) + y, pat);
      assert CommandOf(ds[0]) + ['\n'] + (DecosText(ds[1..]) + y) == DecosText(ds) + y;
    }
  }

  lemma MarksWithoutNewline()
    ensures '\n' !in "\\\\" && "\\\\" != "" && '\n' !in "\\midrule" && "\\midrule" != ""
  {}

  /** So do they behind a newline. */
  lemma LineNowhere(ds: seq<Deco>, y: string, pat: string)
    requires Nowhere(y, pat) && '\n' !in pat && pat != "" && forall d :: d in ds ==> Nowhere(CommandOf(d), pat)
    ensures Nowhere("\n" + DecosText(ds) + y, pat)
  {
    hide *;
    DecosNowhere(ds, y, pat);
    ShortNowhere("", pat);
    NowhereBehind("", '\n', DecosText(ds) + y, pat);
    assert "" + ['\n'] + (DecosText(ds) + y) == "\n" + DecosText(ds) + y;
  }

  lemma PlainCommands(ds: seq<Deco>)
    requires PlainDecos(ds)
    ensures forall d :: d in ds ==> Nowhere(CommandOf(d), "\\\\")
    ensures MidRule !in ds ==> forall d :: d in ds ==> Nowhere(CommandOf(d), "\\midrule")
  {
    hide Nowhere, CommandOf, PlainDeco;
    forall d | d in ds ensures Nowhere(CommandOf(d), "\\\\") && (!d.MidRule? ==> Nowhere(CommandOf(d), "\\midrule")) {
      assert PlainDeco(d);
      DecoPlain(d);
    }
  }

  lemma {:induction false} RuleInDecos(ds: seq<Deco>, y: string) returns (p: nat)
    requires MidRule in ds
    ensures At(DecosText(ds) + y, "\\midrule", p)
  {
    hide At;
    if ds[0] == MidRule {
      p := 0;
      var more := "\n" + (DecosText(ds[1..]) + y);
      assert DecosText(ds) + y == "" + "\\midrule" + more;
      AtBehind("", "\\midrule", more);
    } else {
      var q := RuleInDecos(ds[1..], y);
      p := |DecoText(ds[0])| + q;
      AtTail(DecoText(ds[0]), DecosText(ds[1..]) + y, "\\midrule", q);
      Assoc(DecoText(ds[0]), DecosText(ds[1..]), y);
    }
  }

  lemma SomewhereAt(s: string, pat: string, p: nat)
    requires At(s, pat, p)
    ensures !Nowhere(s, pat)
  {}

  lemma NowhereInside(a: string, s: string, b: string, pat: string)
    requires AllBlank(a) && AllBlank(b) && NoBlanks(pat) && pat != ""
    ensures Nowhere(a + s + b, pat) <==> Nowhere(s, pat)
  {
    hide IsPySpace, At;
    var t := a + s + b;
    assert t == a + (s + b);
    forall p: nat ensures At(s, pat, p) ==> At(t, pat, |a| + p) {
      AtTail(a, s + b, pat, p);
      AtKept(s, b, pat, p);
    }
    forall p: nat ensures At(t, pat, p) ==> |a| <= p && At(s, pat, p - |a|) {
      if p < |a| {
        AtChar(t, pat, p, 0);
        assert t[p] == a[p];
      } else {
        AtTail(a, s + b, pat, p - |a|);
        AtShort(s, b, pat, p - |a|);
      }
    }
    if !Nowhere(s, pat) {
      var p :| 0 <= p <= |s| && At(s, pat, p);
      assert At(t, pat, |a| + p);
    }
    if !Nowhere(t, pat) {
      var p :| 0 <= p <= |t| && At(t, pat, p);
      AtFits(s, pat, p - |a|);
    }
  }

  lemma AtFits(s: string, pat: string, p: nat)
    ensures At(s, pat, p) ==> p <= |s|
  {}

  lemma AtKept(s: string, b: string, pat: string, p: nat)
    ensures At(s, pat, p) ==> At(s + b, pat, p)
  {
    if p + |pat| <= |s| {
      AtInside(s, b, pat, p);
    }
  }

  lemma AtShort(s: string, b: string, pat: string, p: nat)
    requires AllBlank(b) && NoBlanks(pat) && pat != ""
    ensures At(s + b, pat, p) ==> At(s, pat, p)
  {
    hide IsPySpace;
    if p + |pat| <= |s| {
      AtInside(s, b, pat, p);
    } else if p < |s| {
      AtChar(s + b, pat, p, |s| - p);
      assert b != "" ==> (s + b)[|s|] == b[0];
    } else {
      AtChar(s + b, pat, p, 0);
      assert p < |s + b| ==> (s + b)[p] == b[p - |s|];
    }
  }

  lemma MidruleIs(raw: string)
    ensures HasMidrule(raw) <==> !Nowhere(raw, "\\midrule")
  {
    hide *;
    var a, b := StripPieces(raw);
    NoBlankCommands();
    MarksWithoutNewline();
    NowhereInside(a, Strip(raw), b, "\\midrule");
    FirstFound(Strip(raw), "\\midrule", 0);
    HasMidruleIs(raw);
  }

  lemma HasMidruleIs(raw: string)
    ensures HasMidrule(raw) <==> Find(Strip(raw), "\\midrule", 0).Some?
  {}

  /** A line of decorations has a middle rule exactly when there is one among them. */
  lemma LineMidrule(ds: seq<Deco>, y: string)
    requires PlainDecos(ds) && Nowhere(y, "\\midrule")
    ensures HasMidrule("\n" + DecosText(ds) + y) <==> MidRule in ds
  {
    hide *;
    var raw := "\n" + DecosText(ds) + y;
    MidruleIs(raw);
    MarksWithoutNewline();
    if MidRule in ds {
      var p := RuleInDecos(ds, y);
      AtTail("\n", DecosText(ds) + y, "\\midrule", p);
      assert "\n" + (DecosText(ds) + y) == raw;
      SomewhereAt(raw, "\\midrule", 1 + p);
    } else {
      PlainCommands(ds);
      LineNowhere(ds, y, "\\midrule");
    }
  }

  lemma RowHolds(r: Row)
    requires PlainRow(r)
    ensures HasMidrule(RowText(r)) <==> MidRule in r.decos
    ensures Nowhere(RowText(r), "\\\\") && EndsPlain(RowText(r))
  {
    hide *;
    var y := Join(r.cells, " & ") + " ";
    PlainRowParts(r);
    RowTextIs(r);
    JoinPlain(r.cells);
    PlainTextParts(y);
    LineMidrule(r.decos, y);
    PlainCommands(r.decos);
    MarksWithoutNewline();
    LineNowhere(r.decos, y, "\\\\");
    SpaceEnds("\n" + DecosText(r.decos) + Join(r.cells, " & "));
    Assoc("\n" + DecosText(r.decos), Join(r.cells, " & "), " ");
  }

  lemma SpaceEnds(x: string)
    ensures EndsPlain(x + " ")
  {}

  // ---------------------------------------------------------------- whole tables

  function RowTexts(rows: seq<Row>): seq<string> {
    if rows == [] then [] else [RowText(rows[0])] + RowTexts(rows[1..])
  }

  predicate PlainRows(rows: seq<Row>) {
    forall r :: r in rows ==> PlainRow(r)
  }

  lemma {:induction false} RowsSplit(rows: seq<Row>, tail: seq<Deco>)
    requires PlainRows(rows) && PlainDecos(tail)
    ensures SplitRows(RowsText(rows, tail)) == RowTexts(rows) + ["\n" + DecosText(tail)]
  {
    hide SplitRows, RowText, DecosText, PlainRow, PlainDecos, Nowhere, CommandOf;
    if rows == [] {
      PlainCommands(tail);
      MarksWithoutNewline();
      ShortNowhere("", "\\\\");
      LineNowhere(tail, "", "\\\\");
      assert "\n" + DecosText(tail) + "" == "\n" + DecosText(tail);
      LastRow("\n" + DecosText(tail));
    } else {
      RowsSplit(rows[1..], tail);
      assert PlainRow(rows[0]);
      RowHolds(rows[0]);
      SplitRow(RowText(rows[0]), RowsText(rows[1..], tail));
      Assoc([RowText(rows[0])], RowTexts(rows[1..]), ["\n" + DecosText(tail)]);
    }
  }

  lemma {:induction false} RowsCells(rows: seq<Row>)
    requires PlainRows(rows)
    ensures AllRows(RowTexts(rows)) == CellsOf(rows)
  {
    hide CleanRow, Cells, RowText, PlainRow;
    if rows != [] {
      assert PlainRow(rows[0]);
      RowCells(rows[0]);
      RowsCells(rows[1..]);
      assert RowTexts(rows)[1..] == RowTexts(rows[1..]);
    }
  }

  lemma {:induction false} AllRowsAppend(a: seq<string>, b: seq<string>)
    ensures AllRows(a + b) == AllRows(a) + AllRows(b)
  {
    hide CleanRow, Cells;
    if a == [] {
      assert a + b == b;
    } else {
      AllRowsAppend(a[1..], b);
      assert (a + b)[1..] == a[1..] + b;
      Assoc(if CleanRow(a[0]) == "" then [] else [Cells(CleanRow(a[0]))], AllRows(a[1..]), AllRows(b));
    }
  }

  lemma {:induction false} RowTextsMember(rows: seq<Row>, raw: string)
    requires PlainRows(rows) && raw in RowTexts(rows)
    ensures HasMidrule(raw) ==> exists r :: r in rows && MidRule in r.decos
  {
    hide HasMidrule, RowText, PlainRow;
    assert PlainRow(rows[0]);
    RowHolds(rows[0]);
    if raw != RowText(rows[0]) {
      RowTextsMember(rows[1..], raw);
    }
  }

  lemma {:induction false} RowTextsAppend(a: seq<Row>, b: seq<Row>)
    ensures RowTexts(a + b) == RowTexts(a) + RowTexts(b)
  {
    hide RowText;
    if a == [] {
      assert a + b == b;
    } else {
      RowTextsAppend(a[1..], b);
      assert (a + b)[1..] == a[1..] + b;
    }
  }

  lemma OneTail(tail: seq<Deco>)
    requires PlainDecos(tail)
    ensures AllRows(["\n" + DecosText(tail)]) == []
    ensures HasMidrule("\n" + DecosText(tail)) <==> MidRule in tail
  {
    hide *;
    var raw := "\n" + DecosText(tail);
    TailCells(tail);
    AllRowsOne(raw);
    NothingPlain();
    PlainTextParts("");
    LineMidrule(tail, "");
    assert "\n" + DecosText(tail) + "" == raw;
  }

  lemma AllRowsOne(raw: string)
    ensures CleanRow(raw) == "" ==> AllRows([raw]) == []
  {
    hide CleanRow, Cells;
    assert AllRows([raw][1..]) == [];
  }

  /** Whatever table is written, reading gives back the cells of every row in order, apart in those before the first
      middle rule and the others; where nothing follows such a rule, all rows are the table's body. */
  lemma TableRoundTrip(spec: string, head: seq<Row>, rows: seq<Row>, tail: seq<Deco>)
    requires PlainRows(head) && PlainRows(rows) && PlainDecos(tail)
    requires (forall r :: r in head ==> MidRule !in r.decos) && (rows != [] ==> MidRule in rows[0].decos)
    ensures PartsOf(spec, RowsText(head + rows, tail)) ==
            if rows == [] then Parts(Letters(spec), [], CellsOf(head))
            else Parts(Letters(spec), CellsOf(head), CellsOf(rows))
  {
    hide SplitRows, RowText, RowsText, RowTexts, DecosText, PlainRow, PlainDecos, HasMidrule, AllRows, Letters, PartsOf,
      CellsOf;
    var last := ["\n" + DecosText(tail)];
    var t := RowsText(head + rows, tail);
    RowsSplit(head + rows, tail);
    RowTextsAppend(head, rows);
    RowsCells(head);
    RowsCells(rows);
    OneTail(tail);
    forall raw | raw in RowTexts(head) ensures !HasMidrule(raw) {
      RowTextsMember(head, raw);
    }
    AllRowsAppend(RowTexts(head), last);
    AllRowsAppend(RowTexts(rows), last);
    SomeCells(rows);
    Assoc(RowTexts(head), RowTexts(rows), last);
    if rows != [] {
      assert PlainRow(rows[0]);
      RowHolds(rows[0]);
      FirstText(rows);
      assert (RowTexts(rows) + last)[0] == RowText(rows[0]);
      HeadAndBody(spec, t, RowTexts(head), RowTexts(rows) + last);
      assert CellsOf(rows) + [] == CellsOf(rows);
    } else {
      NoTexts();
      assert RowTexts(head) + ([] + last) == RowTexts(head) + last;
      if MidRule in tail {
        HeadAndBody(spec, t, RowTexts(head), last);
      } else {
        HeadAndBody(spec, t, RowTexts(head) + last, []);
        assert RowTexts(head) + last + [] == RowTexts(head) + last;
        assert CellsOf(head) + [] == CellsOf(head);
      }
      NoRows();
    }
    PartsSpec(spec, t);
  }

  lemma FirstText(rows: seq<Row>)
    requires rows != []
    ensures RowTexts(rows) != [] && RowTexts(rows)[0] == RowText(rows[0])
  {
    hide RowText;
  }

  lemma NoTexts()
    ensures RowTexts([]) == []
  {}

  lemma NoRows()
    ensures AllRows([]) == []
  {}

  lemma SomeCells(rows: seq<Row>)
    ensures CellsOf(rows) == [] <==> rows == []
  {}

  lemma PartsSpec(spec: string, tbody: string)
    ensures PartsOf(spec, tbody).spec == Letters(spec)
  {
    hide Letters, SplitRows, Gather;
  }

  /** The parts of a table's first tabular with its columns in braces; a table without a tabular has none. */
  lemma TabularRead(x: string, spec: string, tbody: string, z: string)
    requires Nowhere(x, "\\begin{tabular}") && Balanced(spec)
    requires Nowhere("{" + spec + "}" + tbody, "\\begin{tabular}")
    requires Nowhere("{" + spec + "}" + tbody, "\\end{tabular}")
    ensures TableOf(x + "\\begin{tabular}{" + spec + "}" + tbody + "\\end{tabular}" + z) == Some(PartsOf(spec, tbody))
    ensures TableOf(x) == Some(Parts("", [], []))
  {
    hide *;
    var inner := "{" + spec + "}" + tbody;
    TabularMarks();
    EnvPieces(x, "tabular", inner, z);
    TabularText(x, spec, tbody, z);
    BracedPieces("", "", spec, tbody) by {
      NoEnd();
    }
    assert "" + "" + "{" + spec + "}" + tbody == inner;
    BracedIs(inner, 0, spec, tbody);
    TableOfIs(x + Begin("tabular") + inner + End("tabular") + z, spec, tbody);
    NoTabular(x);
  }

  lemma TabularMarks()
    ensures EnvName("tabular") && Begin("tabular") == "\\begin{tabular}" && End("tabular") == "\\end{tabular}"
  {}

  lemma TabularText(x: string, spec: string, tbody: string, z: string)
    ensures x + "\\begin{tabular}{" + spec + "}" + tbody + "\\end{tabular}" + z ==
            x + "\\begin{tabular}" + ("{" + spec + "}" + tbody) + "\\end{tabular}" + z
  {
    hide *;
    assert "\\begin{tabular}{" == "\\begin{tabular}" + "{";
    var b := "\\begin{tabular}";
    assert x + (b + "{") + spec + "}" + tbody == x + b + ("{" + spec + "}" + tbody);
  }

  lemma TableOfIs(body: string, spec: string, tbody: string)
    requires var h := EnvAt(body, "tabular", 0); h.Found? && h.body == "{" + spec + "}" + tbody
    requires var r := BracedFrom("{" + spec + "}" + tbody, 0);
      r.Some? && r.value.0 == spec && r.value.1 < |"{" + spec + "}" + tbody| &&
      ("{" + spec + "}" + tbody)[r.value.1 + 1..] == tbody
    ensures TableOf(body) == Some(PartsOf(spec, tbody))
  {
    hide EnvAt, BracedFrom, PartsOf, LStrip;
    BraceFirst(spec, tbody);
  }

  lemma BraceFirst(spec: string, tbody: string)
    ensures HasPrefix(LStrip("{" + spec + "}" + tbody), "{")
  {
    hide RunLen;
    NoSpaceHere();
    LStripNone("{" + spec + "}" + tbody);
  }

  lemma NoTabular(x: string)
    requires Nowhere(x, "\\begin{tabular}")
    ensures TableOf(x) == Some(Parts("", [], []))
  {
    hide *;
    TabularMarks();
    EnvAtIs(x, "tabular", 0);
    FirstFound(x, Begin("tabular"), 0) by {
      MarkLengths(x, "tabular");
    }
    NoTable(x);
  }

  lemma NoTable(body: string)
    requires EnvAt(body, "tabular", 0).Miss?
    ensures TableOf(body) == Some(Parts("", [], []))
  {
    hide EnvAt;
  }

  /** Without a brace in front of the rows there are no column letters. */
  lemma TabularBare(x: string, c: char, rows: string, z: string)
    requires Nowhere(x, "\\begin{tabular}") && c != '{' && c != '[' && !IsPySpace(c)
    requires Nowhere([c] + rows, "\\begin{tabular}") && Nowhere([c] + rows, "\\end{tabular}")
    ensures TableOf(x + "\\begin{tabular}" + ([c] + rows) + "\\end{tabular}" + z) == Some(PartsOf("", [c] + rows))
  {
    hide *;
    TabularMarks();
    EnvPieces(x, "tabular", [c] + rows, z);
    LStripNone([c] + rows);
    TableWithout(x + Begin("tabular") + ([c] + rows) + End("tabular") + z, c, rows);
  }

  lemma TableWithout(body: string, c: char, rows: string)
    requires c != '{' && LStrip([c] + rows) == [c] + rows
    requires var h := EnvAt(body, "tabular", 0); h.Found? && h.body == [c] + rows
    ensures TableOf(body) == Some(PartsOf("", [c] + rows))
  {
    hide EnvAt, BracedFrom, PartsOf, LStrip;
    PrefixChar([c] + rows, "{", 0);
  }
}
