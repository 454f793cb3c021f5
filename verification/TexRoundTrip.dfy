/** LaTeX written out and read back: environments, tabs and tables. */
module TexRoundTrip {
  import opened Text
  import opened Decimal
  import opened TexEnvironments
  import opened TexStrings
  import opened TexTables
  import opened TexBlocks
  import opened TexContents
  import opened TexExtraction
  import opened TexPreprocess

  // ---------------------------------------------------------------- white space

  predicate AllBlank(s: string) {
    forall i :: 0 <= i < |s| ==> IsPySpace(s[i])
  }

  predicate NoBlankEnds(s: string) {
    s != "" ==> !IsPySpace(s[0]) && !IsPySpace(s[|s| - 1])
  }

  lemma {:induction false} RStripBehind(t: string, b: string)
    requires AllBlank(b)
    ensures RStrip(t + b) == RStrip(t)
  {
    if b == "" {
      assert t + b == t;
    } else {
      var n := |b| - 1;
      RStripBehind(t, b[..n]);
      assert (t + b)[|t + b| - 1] == b[n] && (t + b)[..|t + b| - 1] == t + b[..n];
    }
  }

  lemma LStripBefore(a: string, t: string)
    requires AllBlank(a)
    ensures LStrip(a + t) == LStrip(t)
  {
    hide IsPySpace;
    var n := RunLen(t, IsPySpace);
    var s := a + t[..n];
    assert a + t == s + t[n..];
    forall i | 0 <= i < |s| ensures IsPySpace(s[i]) {
      if i < |a| {
        assert s[i] == a[i];
      } else {
        assert s[i] == t[i - |a|];
      }
    }
    RunOf(s, t[n..], IsPySpace);
  }

  lemma StripKeeps(t: string)
    requires NoBlankEnds(t)
    ensures Strip(t) == t
  {
    NoRun(t, IsPySpace);
  }

  /** Stripping takes the white space around a text off, and nothing else. */
  lemma StripIs(a: string, t: string, b: string)
    requires AllBlank(a) && AllBlank(b) && NoBlankEnds(t)
    ensures Strip(a + t + b) == t
  {
    hide IsPySpace, RStrip, RunLen, LStrip;
    assert a + t + b == a + (t + b);
    LStripBefore(a, t + b);
    if t == "" {
      assert t + b == b;
      StripBlank(b);
    } else {
      assert (t + b)[0] == t[0];
      LStripNone(t + b);
      RStripBehind(t, b);
      RStripNone(t);
    }
  }

  lemma LStripNone(s: string)
    requires s != "" && !IsPySpace(s[0])
    ensures LStrip(s) == s
  {
    NoRun(s, IsPySpace);
  }

  lemma RStripNone(s: string)
    requires s != "" && !IsPySpace(s[|s| - 1])
    ensures RStrip(s) == s
  {}

  lemma StripBlank(b: string)
    requires AllBlank(b)
    ensures Strip(b) == ""
  {
    hide IsPySpace;
    RunOf(b, "", IsPySpace);
    assert b + "" == b;
  }

  // ---------------------------------------------------------------- brackets

  /** Opening braces less closing ones from lo up to hi, whatever stands in front of them. */
  function Nested(text: string, lo: nat, hi: nat): int
    requires hi <= |text|
    decreases hi
  {
    if hi <= lo then 0
    else Nested(text, lo, hi - 1) + if text[hi - 1] == '{' then 1 else if text[hi - 1] == '}' then -1 else 0
  }

  /** The first closing bracket at or behind i that is in no braces opened since i. */
  predicate ClosesBracket(text: string, i: nat, e: nat) {
    && i <= e < |text| && text[e] == ']' && Nested(text, i, e) == 0
    && forall k :: i <= k < e && text[k] == ']' ==> Nested(text, i, k) != 0
  }

  lemma {:induction false} BracketFrom(text: string, i: nat, k: nat, depth: int, e: nat)
    requires i <= k <= |text| && depth == Nested(text, i, k)
    requires forall m :: i <= m < k && text[m] == ']' ==> Nested(text, i, m) != 0
    ensures Bracket(text, k, depth) == Some(e) <==> ClosesBracket(text, i, e)
    decreases |text| - k
  {
    if k < |text| && !(text[k] == ']' && depth == 0) {
      assert Nested(text, i, k + 1) == BraceDepth(text[k], depth);
      BracketFrom(text, i, k + 1, BraceDepth(text[k], depth), e);
    }
  }

  /** The scan for the closing bracket finds the one that closes, and none when none does. */
  lemma BracketIsClosing(text: string, i: nat, e: nat)
    requires i <= |text|
    ensures Bracket(text, i, 0) == Some(e) <==> ClosesBracket(text, i, e)
  {
    BracketFrom(text, i, i, 0, e);
  }

  // ---------------------------------------------------------------- environments written out

  /** The search from a position sees nothing of the text before it. */
  lemma EnvBehind(p: string, s: string, env: string, k: nat)
    ensures var h := EnvAt(s, env, k);
      EnvAt(p + s, env, |p| + k) == if h.Found? then Found(|p| + h.start, |p| + h.stop, h.opts, h.body) else h
  {
    hide *;
    EnvAtIs(s, env, k);
    EnvAtIs(p + s, env, |p| + k);
    FindShift(p, s, Begin(env), k);
    var i := Find(s, Begin(env), k);
    if i.Some? {
      var j := i.value + |Begin(env)|;
      BodyStartShift(p, s, j);
      if BodyStart(s, j).Some? {
        var j' := BodyStart(s, j).value;
        MatchShift(p, s, env, j', 1);
        EndFits(s, env, j');
        if MatchEnd(s, env, j', 1).Some? {
          SliceShift(p, s, j', MatchEnd(s, env, j', 1).value);
        }
      }
    }
  }

  lemma MarksAreCommands(env: string)
    requires EnvName(env)
    ensures Command(Begin(env)) && Command(End(env))
  {
    OneBackslash(env, 0);
    forall i | 0 < i < |Begin(env)| ensures Begin(env)[i] != '\\' {
      OneBackslash(env, i);
    }
    forall i | 0 < i < |End(env)| ensures End(env)[i] != '\\' {
      OneBackslash(env, i);
    }
  }

  lemma CommandStarts(pat: string)
    requires Command(pat)
    ensures pat != "" && pat[0] == '\\'
  {}

  /** A body without marks ends where the first end is. */
  lemma PlainBody(front: string, inner: string, z: string, env: string)
    requires EnvName(env) && Nowhere(inner, Begin(env)) && Nowhere(inner, End(env))
    ensures var text := front + inner + End(env) + z; MatchEnd(text, env, |front|, 1) == Some(|front + inner|)
  {
    hide *;
    var s := inner + End(env) + z;
    var text := front + inner + End(env) + z;
    assert text == front + s;
    assert s == inner + (End(env) + z);
    MarksAreCommands(env);
    CommandStarts(End(env));
    forall k: nat | k < |inner| ensures !At(s, Begin(env), k) && !At(s, End(env), k) {
      NotInside(inner, End(env) + z, Begin(env), k);
      NotInside(inner, End(env) + z, End(env), k);
    }
    AtBehind(inner, End(env), z);
    EndFirst(s, env, |inner|);
    MatchEndIs(s, env, 0, 1);
    MatchShift(front, s, env, 0, 1);
  }

  lemma NotInside(x: string, y: string, pat: string, p: nat)
    requires Command(pat) && Nowhere(x, pat) && p < |x| && (y == "" || y[0] == '\\')
    ensures !At(x + y, pat, p)
  {
    hide *;
    TexContents.NotAcross(x, y, pat, p);
  }

  lemma EndFirst(s: string, env: string, e: nat)
    requires At(s, End(env), e) && forall k: nat :: k < e ==> !At(s, Begin(env), k) && !At(s, End(env), k)
    ensures Find(s, End(env), 0) == Some(e)
    ensures var nb := Find(s, Begin(env), 0); !(nb.Some? && nb.value < e)
  {
    hide At, Find, Begin, End;
    FindDecides(s, End(env), 0, Some(e));
    FindFirst(s, Begin(env), 0);
  }

  /** An environment without marks of its own name in front or inside is found as it was written. */
  lemma EnvPieces(x: string, env: string, inner: string, z: string)
    requires EnvName(env) && (inner == "" || inner[0] != '[')
    requires Nowhere(x, Begin(env)) && Nowhere(inner, Begin(env)) && Nowhere(inner, End(env))
    ensures var text := x + Begin(env) + inner + End(env) + z;
      EnvAt(text, env, 0) == Found(|x|, |x + Begin(env) + inner + End(env)|, "", inner)
  {
    hide *;
    var text := x + Begin(env) + inner + End(env) + z;
    var j := |x + Begin(env)|;
    MarksAreCommands(env);
    CommandStarts(End(env));
    BeginFirst(x, env, inner + End(env) + z);
    assert text == x + Begin(env) + (inner + End(env) + z);
    BodyStartIs(text, j);
    assert text[j] == if inner == "" then End(env)[0] else inner[0];
    PlainBody(x + Begin(env), inner, z, env);
    EnvAtIs(text, env, 0);
    assert text[j..j + |inner|] == inner;
  }

  lemma BeginFirst(x: string, env: string, rest: string)
    requires EnvName(env) && Nowhere(x, Begin(env))
    ensures Find(x + Begin(env) + rest, Begin(env), 0) == Some(|x|)
  {
    hide *;
    MarksAreCommands(env);
    FirstBehind(x, Begin(env), rest);
    OneFirst(x + Begin(env) + rest, Begin(env), 0, |x|);
  }

  /** And one with options in brackets. */
  lemma EnvWithOptions(x: string, env: string, o: string, inner: string, z: string)
    requires EnvName(env) && ClosesBracket("[" + o + "]", 1, 1 + |o|)
    requires Nowhere(x, Begin(env)) && Nowhere(inner, Begin(env)) && Nowhere(inner, End(env))
    ensures var text := x + Begin(env) + "[" + o + "]" + inner + End(env) + z;
      EnvAt(text, env, 0) == Found(|x|, |x + Begin(env) + "[" + o + "]" + inner + End(env)|, o, inner)
  {
    hide *;
    var b := "[" + o + "]";
    OptionsBehind(x + Begin(env), o, inner, End(env), z);
    EnvBracketed(x, env, o, b, inner, z);
  }

  lemma OptionsBehind(p: string, o: string, inner: string, e: string, z: string)
    ensures p + "[" + o + "]" + inner + e == p + ("[" + o + "]") + inner + e
    ensures p + "[" + o + "]" + inner + e + z == p + ("[" + o + "]") + inner + e + z
  {}

  lemma EnvBracketed(x: string, env: string, o: string, b: string, inner: string, z: string)
    requires EnvName(env) && b == "[" + o + "]" && ClosesBracket(b, 1, 1 + |o|)
    requires Nowhere(x, Begin(env)) && Nowhere(inner, Begin(env)) && Nowhere(inner, End(env))
    ensures var text := x + Begin(env) + b + inner + End(env) + z;
      EnvAt(text, env, 0) == Found(|x|, |x + Begin(env) + b + inner + End(env)|, o, inner)
  {
    hide *;
    var rest := inner + End(env) + z;
    var text := x + Begin(env) + b + inner + End(env) + z;
    var j := |x + Begin(env)|;
    Regroup(x + Begin(env), b, inner, End(env), z);
    BeginFirst(x, env, b + rest);
    BodyStartIs(text, j);
    OptionsClose(x + Begin(env), o, b, rest);
    PlainBody(x + Begin(env) + b, inner, z, env);
    EnvAtIs(text, env, 0);
    Inner(x + Begin(env), o, b, inner, End(env) + z);
  }

  lemma Regroup(p: string, b: string, inner: string, e: string, z: string)
    ensures p + b + inner + e + z == p + (b + (inner + e + z))
    ensures p + b + inner + e + z == p + b + inner + (e + z)
  {}

  lemma Inner(p: string, o: string, b: string, inner: string, z: string)
    requires b == "[" + o + "]"
    ensures var text, j := p + b + inner + z, |p|;
      text[j] == '[' && text[j + 1..j + 1 + |o|] == o && text[|p + b|..|p + b + inner|] == inner
  {}

  lemma OptionsClose(p: string, o: string, b: string, rest: string)
    requires b == "[" + o + "]" && ClosesBracket(b, 1, 1 + |o|)
    ensures Bracket(p + (b + rest), |p|, 0) == Some(|p| + 1 + |o|)
  {
    hide *;
    var t := b + rest;
    BracketShift(p, t, 0, 0);
    BracketSkips(t);
    ClosesLonger(b, rest, 1, 1 + |o|);
    BracketIsClosing(t, 1, 1 + |o|);
  }

  lemma BracketSkips(t: string)
    requires t != "" && t[0] == '['
    ensures Bracket(t, 0, 0) == Bracket(t, 1, 0)
  {}

  lemma {:induction false} NestedLonger(s: string, z: string, lo: nat, hi: nat)
    requires hi <= |s|
    ensures Nested(s + z, lo, hi) == Nested(s, lo, hi)
    decreases hi
  {
    if lo < hi {
      NestedLonger(s, z, lo, hi - 1);
      assert (s + z)[hi - 1] == s[hi - 1];
    }
  }

  lemma ClosesLonger(s: string, z: string, i: nat, e: nat)
    requires ClosesBracket(s, i, e)
    ensures ClosesBracket(s + z, i, e)
  {
    hide Nested;
    assert (s + z)[e] == s[e];
    NestedLonger(s, z, i, e);
    forall k | i <= k < e && (s + z)[k] == ']' ensures Nested(s + z, i, k) != 0 {
      NestedLonger(s, z, i, k);
      assert s[k] == ']';
    }
  }

  // ---------------------------------------------------------------- one environment taken out

  predicate Called(kind: Float, env: string) {
    match kind
    case Code => env == "lstlisting"
    case Cisco => env == "cisco"
    case Figures => env == "figure"
    case Tables => env == "table"
    case TabGroups => env == "vendortabs"
  }

  lemma CalledIs(kind: Float, env: string)
    requires Called(kind, env)
    ensures env == EnvOf(kind) && EnvName(env)
    ensures Begin(env) == "\\begin{" + env + "}" && End(env) == "\\end{" + env + "}"
  {}

  lemma TakenHit(x: string, env: string, inner: string, z: string) returns (front: string)
    requires EnvName(env) && (inner == "" || inner[0] != '[')
    requires Begin(env) == "\\begin{" + env + "}" && End(env) == "\\end{" + env + "}"
    requires Nowhere(x, Begin(env)) && Nowhere(inner, Begin(env)) && Nowhere(inner, End(env))
    ensures x + "\\begin{" + env + "}" + inner + "\\end{" + env + "}" + z == front + z
    ensures EnvAt(front + z, env, 0) == Found(|x|, |front|, "", inner) && |x| <= |front| && front[..|x|] == x
  {
    hide *;
    front := x + Begin(env) + inner + End(env);
    EnvPieces(x, env, inner, z);
    TakenText(x, env, inner, z);
    PiecesCut(x, Begin(env) + inner + End(env));
    assert x + (Begin(env) + inner + End(env)) == front;
  }

  /** The first environment of a loop leaves its numbered line in its place, and the rest is dealt with in the same way:
      an error if it cannot be read, else its block in front of the other ones. */
  lemma OneTaken(x: string, kind: Float, env: string, inner: string, z: string, n: nat)
    requires Called(kind, env) && (inner == "" || inner[0] != '[')
    requires Nowhere(x, Begin(env)) && Nowhere(inner, Begin(env)) && Nowhere(inner, End(env))
    ensures var b, more := BlockOf(kind, "", inner), Extract(z, kind, n + 1);
      Extract(x + "\\begin{" + env + "}" + inner + "\\end{" + env + "}" + z, kind, n) ==
      if b.None? || more.Broken? then Broken
      else Done(x + "\n@@BLK" + Itoa(n) + "@@\n" + more.text, [b.value] + more.blocks)
  {
    hide *;
    CalledIs(kind, env);
    var front := TakenHit(x, env, inner, z);
    var text := front + z;
    ExtractIs(text, kind, n);
    var h := EnvAt(text, env, 0);
    HitFits(text, env);
    CutIs(text, kind, n, h);
    PiecesCut(front, z);
    assert text[..|x|] == front[..|x|];
    PlaceholderText(x, n);
    if BlockOf(kind, "", inner).Some? {
      Prepended(x + Placeholder(n), [BlockOf(kind, "", inner).value], Extract(z, kind, n + 1));
    }
  }

  lemma TakenText(x: string, env: string, inner: string, z: string)
    requires Begin(env) == "\\begin{" + env + "}" && End(env) == "\\end{" + env + "}"
    ensures x + "\\begin{" + env + "}" + inner + "\\end{" + env + "}" + z == x + Begin(env) + inner + End(env) + z
  {
    hide *;
    var b, e := "\\begin{", "\\end{";
    assert x + b + env + "}" == x + (b + env + "}");
    var front := x + Begin(env) + inner;
    assert front + e + env + "}" == front + (e + env + "}");
  }

  lemma PiecesCut(a: string, b: string)
    ensures (a + b)[..|a|] == a && (a + b)[|a|..] == b
  {}

  lemma PlaceholderText(x: string, n: nat)
    ensures x + Placeholder(n) == x + "\n@@BLK" + Itoa(n) + "@@\n"
  {
    hide Itoa;
  }

  lemma Prepended(done: string, blocks: seq<Block>, r: Extracted)
    ensures Prepend(done, blocks, r) == if r.Broken? then Broken else Done(done + r.text, blocks + r.blocks)
  {}

  // ---------------------------------------------------------------- tabs

  /** Tabs written one after the other with texts in front, between and behind. */
  function TabsText(gaps: seq<string>, tabs: seq<Tab>): string
    requires |gaps| == |tabs| + 1
  {
    if tabs == [] then gaps[0]
    else
      gaps[0] + "\\begin{vendortab}{" + tabs[0].title + "}" + tabs[0].text + "\\end{vendortab}" +
      TabsText(gaps[1..], tabs[1..])
  }

  predicate Unmarked(text: string) {
    Nowhere(text, "\\begin{vendortab}") && Nowhere(text, "\\end{vendortab}")
  }

  predicate PlainTab(t: Tab) {
    Balanced(t.title) && Unmarked("{" + t.title + "}" + t.text)
  }

  predicate PlainTabs(gaps: seq<string>, tabs: seq<Tab>) {
    (forall g :: g in gaps ==> Nowhere(g, "\\begin{vendortab}")) && forall t :: t in tabs ==> PlainTab(t)
  }

  lemma {:induction false} TabsBehind(p: string, s: string, k: nat)
    ensures TabsFrom(p + s, |p| + k) == TabsFrom(s, k)
    decreases |s| - k
  {
    hide *;
    EnvBehind(p, s, "vendortab", k);
    TabsStep(s, k);
    TabsStep(p + s, |p| + k);
    var h := EnvAt(s, "vendortab", k);
    if h.Found? {
      TabsBehind(p, s, h.stop);
    }
  }

  lemma TabMarks()
    ensures EnvName("vendortab")
    ensures Begin("vendortab") == "\\begin{vendortab}" && End("vendortab") == "\\end{vendortab}"
  {}

  function TabBody(t: Tab): string {
    "{" + t.title + "}" + t.text
  }

  lemma TabBodyIs(t: Tab)
    ensures TabBody(t) == "{" + t.title + "}" + t.text
  {}

  lemma TabFound(gap: string, t: Tab, more: string) returns (front: string)
    requires Nowhere(gap, "\\begin{vendortab}") && PlainTab(t)
    ensures gap + "\\begin{vendortab}{" + t.title + "}" + t.text + "\\end{vendortab}" + more == front + more
    ensures EnvAt(front + more, "vendortab", 0) == Found(|gap|, |front|, "", TabBody(t))
  {
    hide *;
    var inner := TabBody(t);
    TabBodyIs(t);
    front := gap + Begin("vendortab") + inner + End("vendortab");
    TabMarks();
    PlainTabParts(t);
    EnvPieces(gap, "vendortab", inner, more);
    TabText(gap, t, more);
  }

  lemma TabInside(t: Tab)
    requires PlainTab(t)
    ensures var r := BracedFrom(TabBody(t), 0);
      && r.Some? && r.value.0 == t.title && r.value.1 < |TabBody(t)| && TabBody(t)[r.value.1 + 1..] == t.text
  {
    hide *;
    PlainTabParts(t);
    BracedPieces("", "", t.title, t.text) by {
      NoEnd();
    }
    TabBodyIs(t);
    assert "" + "" + "{" + t.title + "}" + t.text == TabBody(t);
    BracedIs(TabBody(t), 0, t.title, t.text);
  }

  /** The first tab as it was written, and then the others. */
  lemma FirstTab(gap: string, t: Tab, more: string)
    requires Nowhere(gap, "\\begin{vendortab}") && PlainTab(t)
    ensures var text := gap + "\\begin{vendortab}{" + t.title + "}" + t.text + "\\end{vendortab}" + more;
            var rest := TabsFrom(more, 0);
      TabsFrom(text, 0) == if rest.None? then None else Some([Tab(Strip(t.title), t.text)] + rest.value)
  {
    hide *;
    var front := TabFound(gap, t, more);
    TabInside(t);
    TabsStep(front + more, 0);
    TabsBehind(front, more, 0);
    JoinedParts([Tab(Strip(t.title), t.text)], TabsFrom(more, 0));
  }

  lemma NoEnd()
    ensures EndsPlain("" + "")
  {}

  lemma PlainTabParts(t: Tab)
    requires PlainTab(t)
    ensures Balanced(t.title)
    ensures var inner := "{" + t.title + "}" + t.text;
      inner[0] == '{' && Nowhere(inner, "\\begin{vendortab}") && Nowhere(inner, "\\end{vendortab}")
  {
    hide Balanced, Nowhere;
  }

  lemma TabText(gap: string, t: Tab, more: string)
    ensures gap + "\\begin{vendortab}{" + t.title + "}" + t.text + "\\end{vendortab}" + more ==
            gap + "\\begin{vendortab}" + ("{" + t.title + "}" + t.text) + "\\end{vendortab}" + more
  {
    hide *;
    assert "\\begin{vendortab}{" == "\\begin{vendortab}" + "{";
    var b := "\\begin{vendortab}";
    assert gap + (b + "{") + t.title + "}" + t.text == gap + b + ("{" + t.title + "}" + t.text);
  }

  /** Titles without the white space around them. */
  function Titled(tabs: seq<Tab>): seq<Tab> {
    if tabs == [] then [] else [Tab(Strip(tabs[0].title), tabs[0].text)] + Titled(tabs[1..])
  }

  /** Whatever tabs are written, reading gives back their titles, without white space around them, and their texts in
      order. */
  lemma {:induction false} TabsRoundTrip(gaps: seq<string>, tabs: seq<Tab>)
    requires |gaps| == |tabs| + 1 && PlainTabs(gaps, tabs)
    ensures TabsFrom(TabsText(gaps, tabs), 0) == Some(Titled(tabs))
  {
    hide TabsFrom, PlainTab, Nowhere, Strip;
    if tabs == [] {
      NoTabThere(gaps[0]);
    } else {
      TabsRoundTrip(gaps[1..], tabs[1..]);
      FirstTab(gaps[0], tabs[0], TabsText(gaps[1..], tabs[1..]));
    }
  }

  lemma NoTabThere(gap: string)
    requires Nowhere(gap, "\\begin{vendortab}")
    ensures TabsFrom(gap, 0) == Some([])
  {
    hide *;
    TabMarks();
    TabsStep(gap, 0);
    EnvAtIs(gap, "vendortab", 0);
    FirstFound(gap, Begin("vendortab"), 0) by {
      MarkLengths(gap, "vendortab");
    }
  }

  /** So does the block of a tab group. */
  lemma TabGroupReads(opts: string, gaps: seq<string>, tabs: seq<Tab>)
    requires |gaps| == |tabs| + 1 && PlainTabs(gaps, tabs)
    ensures BlockOf(TabGroups, opts, TabsText(gaps, tabs)) == Some(VendorTabs(Titled(tabs)))
  {
    hide TabsFrom, TabsText, PlainTabs, Titled;
    TabsRoundTrip(gaps, tabs);
  }

  // ---------------------------------------------------------------- comments

  /** A percent sign behind no backslash, at i. */
  predicate StartsComment(line: string, i: nat)
    requires i < |line|
  {
    line[i] == '%' && (i > 0 ==> line[i - 1] != '\\')
  }

  lemma {:induction false} CommentIs(line: string, i: nat)
    requires i <= |line|
    ensures var k := CommentAt(line, i);
      (k < |line| ==> StartsComment(line, k)) && forall j :: i <= j < k ==> !StartsComment(line, j)
    decreases |line| - i
  {
    if i < |line| && !(line[i] == '%' && !Escaped(line, i)) {
      CommentIs(line, i + 1);
    }
  }

  /** A line is cut in front of its first comment sign; what is left, or the whole line when there is none, loses the
      white space at its end. */
  lemma LineCleaned(line: string, a: string, b: string)
    requires line == a + b && forall i :: 0 <= i < |a| ==> !StartsComment(line, i)
    requires b != "" ==> StartsComment(line, |a|)
    ensures CleanLine(line) == RStrip(a)
  {
    hide RStrip;
    CommentIs(line, 0);
    var k := CommentAt(line, 0);
    assert k == |a|;
    assert line[..|a|] == a;
  }

  lemma {:induction false} CleanAt(lines: seq<string>)
    ensures |CleanLines(lines)| == |lines|
    ensures forall i :: 0 <= i < |lines| ==> CleanLines(lines)[i] == CleanLine(lines[i])
  {
    hide CleanLine;
    if lines != [] {
      CleanAt(lines[1..]);
    }
  }

  /** Every line of a text is cleaned on its own. */
  lemma TextCleaned(lines: seq<string>)
    requires lines != [] && NoneHas(lines, '\n')
    ensures var cleaned := CleanLines(lines);
      && WithoutComments(Join(lines, "\n")) == Join(cleaned, "\n") && |cleaned| == |lines|
      && forall i :: 0 <= i < |lines| ==> cleaned[i] == CleanLine(lines[i])
  {
    hide CleanLines, CleanLine, Join, Split;
    JoinSplits(lines, '\n');
    CleanAt(lines);
  }
}
