/** What the blocks of a LaTeX source hold: captions, labels, images and options, told by where they stand in it. */
module TexContents {
  import opened Text
  import opened TexEnvironments
  import opened TexStrings
  import opened TexBlocks

  // ---------------------------------------------------------------- places

  /** The first place at or behind a position at which a text stands. */
  predicate FirstAt(text: string, pat: string, pos: nat, p: nat) {
    pos <= p && At(text, pat, p) && forall k: nat :: pos <= k < p ==> !At(text, pat, k)
  }

  predicate Nowhere(text: string, pat: string) {
    forall p :: 0 <= p <= |text| ==> !At(text, pat, p)
  }

  lemma FirstFound(text: string, pat: string, pos: nat)
    requires pat != ""
    ensures var r := Find(text, pat, pos);
      if r.Some? then FirstAt(text, pat, pos, r.value) && r.value + |pat| <= |text|
      else forall p: nat :: pos <= p ==> !At(text, pat, p)
    ensures Find(text, pat, 0).None? <==> Nowhere(text, pat)
  {
    hide Find;
    forall p: nat | p > |text| ensures !At(text, pat, p) {}
  }

  lemma OneFirst(text: string, pat: string, pos: nat, p: nat)
    requires FirstAt(text, pat, pos, p)
    ensures Find(text, pat, pos) == Some(p)
  {
    hide At;
    assert forall k: nat :: pos <= k < p ==> !At(text, pat, k);
  }

  /** A pattern has a backslash in front and nowhere else, so that it cannot overlap with another one. */
  predicate Command(pat: string) {
    pat != "" && pat[0] == '\\' && forall i :: 0 < i < |pat| ==> pat[i] != '\\'
  }

  lemma AtBehind(x: string, pat: string, rest: string)
    ensures At(x + pat + rest, pat, |x|)
  {
    assert (x + pat + rest)[|x|..|x| + |pat|] == pat;
  }

  lemma AtInside(a: string, b: string, pat: string, p: nat)
    requires p + |pat| <= |a|
    ensures At(a + b, pat, p) == At(a, pat, p)
  {
    assert (a + b)[p..p + |pat|] == a[p..p + |pat|];
  }

  /** No command begins in a text without it, whatever command or word without a backslash stands behind. */
  lemma NotAcross(x: string, y: string, pat: string, p: nat)
    requires Command(pat) && Nowhere(x, pat) && p < |x| && (y == "" || y[0] == '\\')
    ensures !At(x + y, pat, p)
  {
    if p + |pat| <= |x| {
      AtInside(x, y, pat, p);
    } else if y != "" {
      assert (x + y)[|x|] == '\\';
      AtChar(x + y, pat, p, |x| - p);
    }
  }

  lemma FirstBehind(x: string, pat: string, rest: string)
    requires Command(pat) && Nowhere(x, pat)
    ensures FirstAt(x + pat + rest, pat, 0, |x|)
  {
    hide At, Nowhere;
    AtBehind(x, pat, rest);
    assert x + pat + rest == x + (pat + rest);
    forall k: nat | k < |x| ensures !At(x + pat + rest, pat, k) {
      NotAcross(x, pat + rest, pat, k);
    }
  }

  // ---------------------------------------------------------------- braces

  /** A brace that is not behind a backslash opens or closes; any other character does nothing. */
  function Opens(text: string, i: nat): int
    requires i < |text|
  {
    if i > 0 && text[i - 1] == '\\' then 0 else if text[i] == '{' then 1 else if text[i] == '}' then -1 else 0
  }

  /** Opening braces less closing ones from lo up to hi. */
  function Opened(text: string, lo: nat, hi: nat): int
    requires hi <= |text|
    decreases hi
  {
    if hi <= lo then 0 else Opened(text, lo, hi - 1) + Opens(text, hi - 1)
  }

  /** The first closing brace with as many closing as opening ones from q up to it. */
  predicate ClosesBrace(text: string, q: nat, e: nat) {
    && q <= e < |text| && Opens(text, e) == -1 && Opened(text, q, e + 1) == 0
    && forall k :: q <= k < e && Opens(text, k) == -1 ==> Opened(text, q, k + 1) != 0
  }

  lemma {:induction false} BraceFrom(text: string, q: nat, i: nat, depth: int, e: nat)
    requires q <= i <= |text| && depth == Opened(text, q, i)
    requires forall k :: q <= k < i && Opens(text, k) == -1 ==> Opened(text, q, k + 1) != 0
    ensures Brace(text, i, depth) == Some(e) <==> ClosesBrace(text, q, e)
    decreases |text| - i
  {
    if i < |text| {
      assert Opened(text, q, i + 1) == depth + Opens(text, i);
      if Opens(text, i) == -1 && depth == 1 {
        assert ClosesBrace(text, q, i);
      } else {
        BraceFrom(text, q, i + 1, depth + Opens(text, i), e);
      }
    }
  }

  /** The scan for the closing brace finds the one that closes, and none when none does. */
  lemma BraceIsClosing(text: string, q: nat, e: nat)
    requires q <= |text|
    ensures Brace(text, q, 0) == Some(e) <==> ClosesBrace(text, q, e)
  {
    BraceFrom(text, q, q, 0, e);
  }

  /** Every brace has its partner, and no backslash stands at the end. */
  predicate Balanced(c: string) {
    && (forall k :: 0 <= k <= |c| ==> Opened(c, 0, k) >= 0) && Opened(c, 0, |c|) == 0
    && (c != "" ==> c[|c| - 1] != '\\')
  }

  predicate EndsPlain(x: string) {
    x != "" ==> x[|x| - 1] != '\\'
  }

  lemma {:induction false} OpenedInside(a: string, c: string, z: string, k: nat)
    requires k <= |c| && a != "" && EndsPlain(a)
    ensures Opened(a + c + z, |a|, |a| + k) == Opened(c, 0, k)
  {
    if k > 0 {
      OpenedInside(a, c, z, k - 1);
      assert (a + c + z)[|a| + k - 1] == c[k - 1];
      assert (a + c + z)[|a| + k - 2] == if k > 1 then c[k - 2] else a[|a| - 1];
    }
  }

  lemma {:induction false} OpenedFrom(text: string, lo: nat, mid: nat, hi: nat)
    requires lo <= mid <= hi <= |text|
    ensures Opened(text, lo, hi) == Opened(text, lo, mid) + Opened(text, mid, hi)
    decreases hi
  {
    if mid < hi {
      OpenedFrom(text, lo, mid, hi - 1);
    }
  }

  /** A balanced text between braces is what they enclose. */
  lemma BalancedCloses(a: string, c: string, z: string)
    requires Balanced(c) && EndsPlain(a)
    ensures ClosesBrace(a + "{" + c + "}" + z, |a|, |a| + 1 + |c|)
  {
    hide Opened;
    var text := a + "{" + c + "}" + z;
    var open := a + "{";
    var q, e := |a|, |a| + 1 + |c|;
    assert text == open + c + ("}" + z);
    assert Opened(text, q, q + 1) == 1 by {
      OneOpened(a, c + "}" + z);
      assert text == a + "{" + (c + "}" + z);
    }
    forall k | 0 <= k <= |c| ensures Opened(text, q, q + 1 + k) == 1 + Opened(c, 0, k) {
      OpenedInside(open, c, "}" + z, k);
      OpenedFrom(text, q, q + 1, q + 1 + k);
    }
    assert text[e] == '}';
    assert text[e - 1] == if c == "" then '{' else c[|c| - 1];
    OpenedNext(text, q, e);
    forall k | q <= k < e && Opens(text, k) == -1 ensures Opened(text, q, k + 1) != 0 {
      assert k != q;
      assert Opened(text, q, q + 1 + (k - q)) == 1 + Opened(c, 0, k - q);
    }
  }

  lemma OneOpened(a: string, rest: string)
    requires EndsPlain(a)
    ensures Opened(a + "{" + rest, |a|, |a| + 1) == 1
  {
    var text := a + "{" + rest;
    assert text[|a|] == '{' && (a != "" ==> text[|a| - 1] == a[|a| - 1]);
    assert Opened(text, |a|, |a|) == 0;
  }

  lemma OpenedNext(text: string, q: nat, e: nat)
    requires q <= e < |text|
    ensures Opened(text, q, e + 1) == Opened(text, q, e) + Opens(text, e)
  {}

  /** The text between the first brace at or behind a position and the one that closes it. */
  ghost predicate InBraces(text: string, pos: nat, c: string, rest: string) {
    exists q: nat, e: nat ::
      FirstAt(text, "{", pos, q) && ClosesBrace(text, q, e) && q < e && c == text[q + 1..e] && rest == text[e + 1..]
  }

  lemma BracedIs(text: string, pos: nat, c: string, rest: string)
    ensures var r := BracedFrom(text, pos);
      InBraces(text, pos, c, rest) <==> r.Some? && r.value.0 == c && r.value.1 < |text| && text[r.value.1 + 1..] == rest
  {
    hide At, Find, Brace, ClosesBrace, FirstAt;
    FirstFound(text, "{", pos);
    var open := Find(text, "{", pos);
    if InBraces(text, pos, c, rest) {
      InBracesFound(text, pos, c, rest);
    }
    if open.Some? {
      var close := Brace(text, open.value, 0);
      BraceHere(text, open.value) by {
        FirstIs(text, "{", pos, open.value);
      }
      if close.Some? {
        BraceIsClosing(text, open.value, close.value);
        if close.value > open.value && c == text[open.value + 1..close.value] && rest == text[close.value + 1..] {
          assert InBraces(text, pos, c, rest);
        }
      }
    }
  }

  lemma FirstIs(text: string, pat: string, pos: nat, p: nat)
    ensures FirstAt(text, pat, pos, p) ==> At(text, pat, p) && pos <= p
  {}

  lemma InBracesFound(text: string, pos: nat, c: string, rest: string)
    requires InBraces(text, pos, c, rest)
    ensures var r := BracedFrom(text, pos);
      r.Some? && r.value.0 == c && r.value.1 < |text| && text[r.value.1 + 1..] == rest
  {
    hide At, Find, Brace, Opens, Opened, FirstAt;
    var q: nat, e: nat :|
      FirstAt(text, "{", pos, q) && ClosesBrace(text, q, e) && q < e && c == text[q + 1..e] && rest == text[e + 1..];
    OneFirst(text, "{", pos, q);
    FirstIs(text, "{", pos, q);
    BraceHere(text, q);
    BraceIsClosing(text, q, e);
  }

  /** Written out: anything without a brace, the text in braces, and the rest. */
  lemma BracedPieces(x: string, o: string, c: string, z: string)
    requires '{' !in o && EndsPlain(x + o) && Balanced(c)
    ensures InBraces(x + o + "{" + c + "}" + z, |x|, c, z)
  {
    hide ClosesBrace, At, Balanced;
    var text := x + o + "{" + c + "}" + z;
    var q, e := |x + o|, |x + o| + 1 + |c|;
    BalancedCloses(x + o, c, z);
    assert FirstAt(text, "{", |x|, q) by {
      AtBehind(x + o, "{", c + "}" + z);
      assert text == x + o + "{" + (c + "}" + z);
      forall k: nat | |x| <= k < q ensures !At(text, "{", k) {
        assert text[k] == o[k - |x|];
        AtChar(text, "{", k, 0);
      }
    }
    assert text[q + 1..e] == c && text[e + 1..] == z;
  }

  // ---------------------------------------------------------------- captions

  ghost predicate Braced(text: string, pos: nat, c: string) {
    exists rest: string :: InBraces(text, pos, c, rest)
  }

  lemma BracedText(text: string, pos: nat, c: string)
    ensures var r := BracedFrom(text, pos); Braced(text, pos, c) <==> r.Some? && r.value.0 == c
  {
    hide BracedFrom, InBraces;
    if Braced(text, pos, c) {
      var rest :| InBraces(text, pos, c, rest);
      BracedIs(text, pos, c, rest);
    }
    var r := BracedFrom(text, pos);
    if r.Some? {
      BracedIs(text, pos, r.value.0, text[r.value.1 + 1..]);
    }
  }

  /** The text in braces behind the first caption command. */
  ghost predicate HasCaption(body: string, c: string) {
    exists p: nat :: FirstAt(body, "\\caption", 0, p) && Braced(body, p + 8, c)
  }

  /** A caption as it is read: none without the command, an error when the braces behind it do not close. */
  ghost predicate ReadsCaption(r: Reading, body: string) {
    && (r == Absent <==> Nowhere(body, "\\caption"))
    && (forall c :: r == Value(c) <==> HasCaption(body, c))
  }

  lemma CaptionRead(body: string)
    ensures ReadsCaption(CaptionOf(body), body)
  {
    hide At, Find, BracedFrom, Braced, FirstAt, Nowhere;
    FirstFound(body, "\\caption", 0);
    var p := Find(body, "\\caption", 0);
    forall c ensures CaptionOf(body) == Value(c) <==> HasCaption(body, c) {
      if HasCaption(body, c) {
        var q: nat :| FirstAt(body, "\\caption", 0, q) && Braced(body, q + 8, c);
        OneFirst(body, "\\caption", 0, q);
        BracedText(body, q + 8, c);
      }
      if p.Some? {
        BracedText(body, p.value + 8, c);
      }
    }
  }

  // ---------------------------------------------------------------- labels

  ghost predicate HasLabel(body: string, l: string) {
    '}' !in l && exists p: nat :: FirstAt(body, "\\label{", 0, p) && At(body, "\\label{" + l + "}", p)
  }

  ghost predicate ReadsLabel(r: Reading, body: string) {
    r != Raised && forall l :: r == Value(l) <==> HasLabel(body, l)
  }

  lemma AtPieces(text: string, a: string, b: string, p: nat)
    ensures At(text, a + b, p) <==> At(text, a, p) && At(text, b, p + |a|)
  {
    if p + |a| + |b| <= |text| {
      var m := p + |a|;
      var s, t, whole := text[p..m], text[m..m + |b|], text[p..m + |b|];
      assert whole == s + t;
      assert whole[..|a|] == s && whole[|a|..] == t;
      assert (a + b)[..|a|] == a && (a + b)[|a|..] == b;
    }
  }

  lemma CharAt(text: string, c: char, p: nat)
    ensures At(text, [c], p) <==> p < |text| && text[p] == c
  {
    if p < |text| {
      assert text[p..p + 1] == [text[p]];
    }
  }

  /** A name at s and the closing brace behind it. */
  lemma UpToBrace(text: string, s: nat, name: string)
    ensures var q := Find(text, "}", s);
      (At(text, name + "}", s) && '}' !in name) <==> (q.Some? && s <= q.value <= |text| && name == text[s..q.value])
  {
    hide Find;
    FirstFound(text, "}", s);
    AtPieces(text, name, "}", s);
    var q := Find(text, "}", s);
    if At(text, name + "}", s) && '}' !in name {
      forall k: nat | s <= k < s + |name| ensures !At(text, "}", k) {
        AtChar(text, name, s, k - s);
        CharAt(text, '}', k);
        assert name[k - s] in name;
      }
      OneFirst(text, "}", s, s + |name|);
    }
    if q.Some? && name == text[s..q.value] {
      forall i | 0 <= i < |name| ensures name[i] != '}' {
        assert text[s + i] == name[i];
        CharAt(text, '}', s + i);
      }
    }
  }

  lemma LabelAt(body: string, p: nat, l: string)
    requires Find(body, "\\label{", 0) == Some(p)
    ensures LabelOf(body) == Value(l) <==> '}' !in l && At(body, "\\label{" + l + "}", p)
  {
    hide At, Find;
    var mark := "\\label{";
    assert |mark| == 7 && At(body, mark, p);
    assert mark + l + "}" == mark + (l + "}");
    AtPieces(body, mark, l + "}", p);
    UpToBrace(body, p + 7, l);
    FirstFound(body, "}", p + 7);
  }

  lemma LabelRead(body: string)
    ensures ReadsLabel(LabelOf(body), body)
  {
    hide At, Find, FirstAt;
    FirstFound(body, "\\label{", 0);
    var p := Find(body, "\\label{", 0);
    forall l ensures LabelOf(body) == Value(l) <==> HasLabel(body, l) {
      if HasLabel(body, l) {
        var q: nat :| FirstAt(body, "\\label{", 0, q) && At(body, "\\label{" + l + "}", q);
        OneFirst(body, "\\label{", 0, q);
        LabelAt(body, q, l);
      }
      if p.Some? {
        LabelAt(body, p.value, l);
      }
    }
  }

  // ---------------------------------------------------------------- images

  /** Options in brackets. */
  predicate Bracketed(o: string) {
    |o| >= 2 && o[0] == '[' && o[|o| - 1] == ']' && forall i :: 0 <= i < |o| - 1 ==> o[i] != ']'
  }

  /** The image command with the name of a file, and options or none, at a place. */
  ghost predicate ImageStands(body: string, p: nat, g: string) {
    exists o :: ImageWith(body, p, o, g)
  }

  predicate ImageWith(body: string, p: nat, o: string, g: string) {
    (o == "" || Bracketed(o)) && '}' !in g && At(body, "\\includegraphics" + (o + ("{" + (g + "}"))), p)
  }

  ghost predicate FirstImage(body: string, p: nat, g: string) {
    ImageStands(body, p, g) && forall q: nat, h :: q < p ==> !ImageStands(body, q, h)
  }

  /** An image as it is read: the file of the first such command, and none when there is none. */
  ghost predicate ReadsImage(r: Reading, body: string) {
    && r != Raised && (r == Absent <==> forall p: nat, g :: !ImageStands(body, p, g))
    && forall g :: r == Value(g) <==> exists p: nat :: FirstImage(body, p, g)
  }

  lemma NameIs(body: string, j: nat, g: string)
    ensures BracedName(body, j) == Value(g) <==> '}' !in g && At(body, "{" + (g + "}"), j)
  {
    hide At, Find;
    AtPieces(body, "{", g + "}", j);
    CharAt(body, '{', j);
    UpToBrace(body, j + 1, g);
    FirstFound(body, "}", j + 1);
  }

  lemma OptionsEnd(body: string, o: string, j: nat)
    requires Bracketed(o) && At(body, o, j)
    ensures j < |body| && body[j] == '[' && Find(body, "]", j) == Some(j + |o| - 1)
  {
    hide Find;
    AtChar(body, o, j, 0);
    AtChar(body, o, j, |o| - 1);
    CharAt(body, ']', j + |o| - 1);
    forall k: nat | j <= k < j + |o| - 1 ensures !At(body, "]", k) {
      AtChar(body, o, j, k - j);
      CharAt(body, ']', k);
    }
    OneFirst(body, "]", j, j + |o| - 1);
  }

  lemma OptionsHere(body: string, j: nat) returns (o: string)
    requires j < |body| && body[j] == '[' && Find(body, "]", j).Some?
    ensures Bracketed(o) && At(body, o, j) && Find(body, "]", j) == Some(j + |o| - 1)
  {
    hide Find;
    FirstFound(body, "]", j);
    var e := Find(body, "]", j).value;
    CharAt(body, ']', e);
    o := body[j..e + 1];
    forall i | 0 <= i < |o| - 1 ensures o[i] != ']' {
      CharAt(body, ']', j + i);
      assert !At(body, "]", j + i);
    }
  }

  lemma ImageWithout(body: string, p: nat, g: string)
    requires At(body, "\\includegraphics", p) && !(p + 16 < |body| && body[p + 16] == '[')
    ensures ImageAt(body, p) == Value(g) <==> ImageStands(body, p, g)
  {
    hide At, Find, BracedName, Bracketed;
    var cmd := "\\includegraphics";
    assert |cmd| == 16;
    NameIs(body, p + 16, g);
    forall o | ImageWith(body, p, o, g) ensures ImageAt(body, p) == Value(g) {
      AtPieces(body, cmd, o + ("{" + (g + "}")), p);
      AtPieces(body, o, "{" + (g + "}"), p + 16);
      if o != "" {
        OptionsEnd(body, o, p + 16);
      }
    }
    if ImageAt(body, p) == Value(g) {
      AtPieces(body, cmd, "" + ("{" + (g + "}")), p);
      assert "" + ("{" + (g + "}")) == "{" + (g + "}");
      assert ImageWith(body, p, "", g);
    }
  }

  lemma ImageWithOptions(body: string, p: nat, g: string)
    requires At(body, "\\includegraphics", p) && p + 16 < |body| && body[p + 16] == '['
    ensures ImageAt(body, p) == Value(g) <==> ImageStands(body, p, g)
  {
    hide At, Find, BracedName, Bracketed;
    var cmd := "\\includegraphics";
    assert |cmd| == 16;
    forall o | ImageWith(body, p, o, g) ensures ImageAt(body, p) == Value(g) {
      AtPieces(body, cmd, o + ("{" + (g + "}")), p);
      AtPieces(body, o, "{" + (g + "}"), p + 16);
      if o == "" {
        AtPieces(body, "{", g + "}", p + 16);
        CharAt(body, '{', p + 16);
      } else {
        OptionsEnd(body, o, p + 16);
        NameIs(body, p + 16 + |o|, g);
      }
    }
    if ImageAt(body, p) == Value(g) {
      var o := OptionsHere(body, p + 16);
      NameIs(body, p + 16 + |o|, g);
      AtPieces(body, o, "{" + (g + "}"), p + 16);
      AtPieces(body, cmd, o + ("{" + (g + "}")), p);
      assert ImageWith(body, p, o, g);
    }
  }

  lemma ImageAtIs(body: string, p: nat, g: string)
    ensures ImageAt(body, p) == Value(g) <==> ImageStands(body, p, g)
    ensures ImageAt(body, p) != Raised
  {
    hide At, Find, Bracketed;
    if At(body, "\\includegraphics", p) {
      if p + 16 < |body| && body[p + 16] == '[' {
        ImageWithOptions(body, p, g);
      } else {
        ImageWithout(body, p, g);
      }
    } else {
      forall o | ImageWith(body, p, o, g) ensures false {
        AtPieces(body, "\\includegraphics", o + ("{" + (g + "}")), p);
      }
    }
  }

  lemma {:induction false} ImageFromIs(body: string, p: nat)
    ensures var r := ImageFrom(body, p);
      if r == Absent then forall q: nat :: p <= q ==> ImageAt(body, q) == Absent
      else
        exists q: nat ::
          p <= q && ImageAt(body, q) == r && forall k: nat :: p <= k < q ==> ImageAt(body, k) == Absent
    decreases |body| - p
  {
    hide ImageAt;
    if p < |body| && ImageAt(body, p) == Absent {
      ImageFromIs(body, p + 1);
    } else {
      NoImageBehind(body);
    }
  }

  lemma NoImageBehind(body: string)
    ensures forall q: nat :: q >= |body| ==> ImageAt(body, q) == Absent
  {}

  lemma ImageRead(body: string)
    ensures ReadsImage(ImageFrom(body, 0), body)
  {
    hide ImageAt, ImageFrom, ImageStands;
    var r := ImageFrom(body, 0);
    ImageFromIs(body, 0);
    forall p: nat, g ensures ImageAt(body, p) == Value(g) <==> ImageStands(body, p, g) {
      ImageAtIs(body, p, g);
    }
    if r != Absent {
      var q: nat :| ImageAt(body, q) == r && forall k: nat :: k < q ==> ImageAt(body, k) == Absent;
      ImageAtIs(body, q, "");
      assert ImageAt(body, q) == Value(r.text);
      forall g, p: nat | FirstImage(body, p, g) ensures r == Value(g) {
        assert ImageAt(body, p) == Value(g) && ImageStands(body, q, r.text);
      }
      assert FirstImage(body, q, r.text);
    }
  }

  // ---------------------------------------------------------------- options

  predicate Blank(text: string, i: nat, j: nat) {
    j <= |text| && forall k :: i <= k < j ==> IsPySpace(text[k])
  }

  /** A key at p, an equal sign at j and the value at i, with nothing but white space between. */
  predicate KeyedAt(opts: string, key: string, p: nat, j: nat, i: nat) {
    && At(opts, key, p) && p + |key| <= j < i <= |opts| && opts[j] == '='
    && Blank(opts, p + |key|, j) && Blank(opts, j + 1, i) && (i < |opts| ==> !IsPySpace(opts[i]))
  }

  ghost predicate Keyed(opts: string, key: string, p: nat, i: nat) {
    exists j: nat :: KeyedAt(opts, key, p, j, i)
  }

  /** The first key that an equal sign follows, and where its value starts. */
  ghost predicate FirstKey(opts: string, key: string, i: nat) {
    exists p: nat :: Keyed(opts, key, p, i) && forall q: nat, k: nat :: q < p ==> !Keyed(opts, key, q, k)
  }

  /** The value that starts at a place: the text in braces, or that up to a comma, a closing bracket or the end. */
  ghost predicate ReadsValue(r: Reading, opts: string, i: nat)
    requires i <= |opts|
  {
    if i < |opts| && opts[i] == '{' then
      && r != Absent
      && forall c :: r == Value(c) <==> exists e: nat :: ClosesBrace(opts, i, e) && c == opts[i + 1..e]
    else
      exists n :: i <= n <= |opts| && r == Value(Strip(opts[i..n])) && (forall k :: i <= k < n ==> opts[k] !in ",]") &&
                  (n < |opts| ==> opts[n] in ",]")
  }

  /** An option as it is read: none without the key, else the value of the first. */
  ghost predicate ReadsOption(r: Reading, opts: string, key: string) {
    && ((forall p: nat, i: nat :: !Keyed(opts, key, p, i)) <==> r == Absent)
    && forall i: nat :: FirstKey(opts, key, i) ==> i <= |opts| && ReadsValue(r, opts, i)
  }

  lemma RunBlank(s: string, i: nat)
    requires i <= |s|
    ensures var n := i + RunLen(s[i..], IsPySpace); i <= n && Blank(s, i, n) && (n < |s| ==> !IsPySpace(s[n]))
  {
    var t := s[i..];
    var n := RunLen(t, IsPySpace);
    forall k | i <= k < i + n ensures IsPySpace(s[k]) {
      assert s[k] == t[k - i];
    }
  }

  lemma OneRun(s: string, i: nat, n: nat)
    requires i <= n <= |s| && Blank(s, i, n) && (n < |s| ==> !IsPySpace(s[n]))
    ensures i + RunLen(s[i..], IsPySpace) == n
  {
    RunBlank(s, i);
  }

  lemma NoSpace()
    ensures !IsPySpace('=')
  {}

  lemma KeyedStarts(opts: string, key: string, p: nat, j: nat, i: nat)
    requires KeyedAt(opts, key, p, j, i)
    ensures ValueStart(opts, key, p) == Some(i)
  {
    hide At, IsPySpace, RunLen, Blank;
    NoSpace();
    OneRun(opts, p + |key|, j);
    OneRun(opts, j + 1, i);
  }

  lemma StartIsKeyed(opts: string, key: string, p: nat, i: nat)
    requires ValueStart(opts, key, p) == Some(i)
    ensures Keyed(opts, key, p, i)
  {
    hide IsPySpace, RunLen, Blank;
    RunBlank(opts, p + |key|);
    var j := p + |key| + RunLen(opts[p + |key|..], IsPySpace);
    RunBlank(opts, j + 1);
    assert KeyedAt(opts, key, p, j, i);
  }

  lemma ValueStartIs(opts: string, key: string, p: nat, i: nat)
    ensures ValueStart(opts, key, p) == Some(i) <==> Keyed(opts, key, p, i)
  {
    hide ValueStart, KeyedAt;
    if Keyed(opts, key, p, i) {
      var j: nat :| KeyedAt(opts, key, p, j, i);
      KeyedStarts(opts, key, p, j, i);
    }
    if ValueStart(opts, key, p) == Some(i) {
      StartIsKeyed(opts, key, p, i);
    }
  }

  lemma {:induction false} FindValueIs(opts: string, key: string, p: nat)
    requires key != ""
    ensures var r := FindValue(opts, key, p);
      if r.None? then forall q: nat :: p <= q ==> ValueStart(opts, key, q).None?
      else exists q: nat :: p <= q && ValueStart(opts, key, q) == r &&
                            forall k: nat :: p <= k < q ==> ValueStart(opts, key, k).None?
    decreases |opts| - p
  {
    hide ValueStart;
    if p < |opts| && ValueStart(opts, key, p).None? {
      FindValueIs(opts, key, p + 1);
    } else {
      NoKeyBehind(opts, key);
    }
  }

  lemma NoKeyBehind(opts: string, key: string)
    requires key != ""
    ensures forall q: nat :: q >= |opts| ==> ValueStart(opts, key, q).None?
  {}

  lemma FirstKeyIs(opts: string, key: string)
    requires key != ""
    ensures var r := FindValue(opts, key, 0);
      && (r.None? <==> forall p: nat, i: nat :: !Keyed(opts, key, p, i))
      && forall i: nat :: FirstKey(opts, key, i) <==> r == Some(i)
  {
    hide ValueStart, FindValue, Keyed;
    var r := FindValue(opts, key, 0);
    FindValueIs(opts, key, 0);
    forall p: nat, i: nat ensures ValueStart(opts, key, p) == Some(i) <==> Keyed(opts, key, p, i) {
      ValueStartIs(opts, key, p, i);
    }
    if r.Some? {
      var q: nat :| ValueStart(opts, key, q) == r && forall k: nat :: k < q ==> ValueStart(opts, key, k).None?;
      assert FirstKey(opts, key, r.value) by {
        assert Keyed(opts, key, q, r.value);
      }
      forall i: nat | FirstKey(opts, key, i) ensures r == Some(i) {
        var p: nat :| Keyed(opts, key, p, i) && forall q: nat, k: nat :: q < p ==> !Keyed(opts, key, q, k);
        assert ValueStart(opts, key, p) == Some(i) && Keyed(opts, key, q, r.value);
      }
    }
  }

  lemma PlainValue(opts: string, i: nat)
    requires i <= |opts| && !(i < |opts| && opts[i] == '{')
    ensures ReadsValue(Value(Strip(opts[i..][..RunLen(opts[i..], InValue)])), opts, i)
  {
    hide Strip;
    var t := opts[i..];
    var m := RunLen(t, InValue);
    var n := i + m;
    assert t[..m] == opts[i..n];
    forall k | i <= k < n ensures opts[k] !in ",]" {
      assert opts[k] == t[k - i];
    }
    assert n < |opts| ==> opts[n] == t[m];
  }

  lemma BracedValue(opts: string, i: nat)
    requires i < |opts| && opts[i] == '{'
    ensures var close := Brace(opts, i, 0);
      ReadsValue(if close.None? || close.value <= i then Raised else Value(opts[i + 1..close.value]), opts, i)
  {
    hide Brace, ClosesBrace;
    var close := Brace(opts, i, 0);
    BraceBehind(opts, i);
    forall e: nat ensures ClosesBrace(opts, i, e) <==> close == Some(e) {
      BraceIsClosing(opts, i, e);
    }
  }

  lemma OptionRead(opts: string, key: string)
    requires key != ""
    ensures ReadsOption(OptValue(opts, key), opts, key)
  {
    hide FindValue, Keyed, FirstKey, ReadsValue, Strip, Brace;
    FirstKeyIs(opts, key);
    var i := FindValue(opts, key, 0);
    if i.Some? {
      if i.value < |opts| && opts[i.value] == '{' {
        BracedValue(opts, i.value);
      } else {
        PlainValue(opts, i.value);
      }
    }
  }

  /** Written out: a key, an equal sign, and a balanced text in braces. */
  lemma OptionPieces(x: string, key: string, a: string, b: string, c: string, z: string)
    requires key != "" && Balanced(c) && Blank(a, 0, |a|) && Blank(b, 0, |b|)
    requires FirstAt(x + key + a + "=" + b + "{" + c + "}" + z, key, 0, |x|)
    ensures OptValue(x + key + a + "=" + b + "{" + c + "}" + z, key) == Value(c)
  {
    hide *;
    var front := x + key + a + "=" + b;
    var opts := front + "{" + c + "}" + z;
    var i := |front|;
    assert opts == x + key + a + "=" + b + "{" + c + "}" + z;
    NoSpaceHere();
    KeyPieces(x, key, a, b, "{" + c + "}" + z);
    assert front + ("{" + c + "}" + z) == opts;
    assert EndsPlain(front) by {
      FrontPlain(x + key + a, b);
    }
    BalancedCloses(front, c, z);
    assert opts[i] == '{';
    assert opts[i + 1..i + 1 + |c|] == c;
    FirstKeyHere(opts, key, |x|, i);
    OptionRead(opts, key);
    OptionIs(opts, key, i, i + 1 + |c|);
  }

  lemma NoSpaceHere()
    ensures !IsPySpace('{')
  {}

  lemma FrontPlain(x: string, b: string)
    requires Blank(b, 0, |b|)
    ensures EndsPlain(x + "=" + b)
  {
    if b != "" {
      assert IsPySpace(b[|b| - 1]);
    }
  }

  lemma KeyPieces(x: string, key: string, a: string, b: string, rest: string)
    requires Blank(a, 0, |a|) && Blank(b, 0, |b|) && rest != "" && !IsPySpace(rest[0])
    ensures Keyed(x + key + a + "=" + b + rest, key, |x|, |x + key + a + "=" + b|)
  {
    hide IsPySpace;
    var opts := x + key + a + "=" + b + rest;
    var j := |x + key + a|;
    assert opts == x + key + (a + "=" + b + rest);
    AtBehind(x, key, a + "=" + b + rest);
    assert opts[j] == '=';
    forall k | |x + key| <= k < j ensures IsPySpace(opts[k]) {
      assert opts[k] == a[k - |x + key|];
    }
    forall k | j + 1 <= k < j + 1 + |b| ensures IsPySpace(opts[k]) {
      assert opts[k] == b[k - j - 1];
    }
    assert opts[j + 1 + |b|] == rest[0];
    assert KeyedAt(opts, key, |x|, j, j + 1 + |b|);
  }

  lemma FirstKeyHere(opts: string, key: string, p: nat, i: nat)
    requires FirstAt(opts, key, 0, p) && Keyed(opts, key, p, i)
    ensures FirstKey(opts, key, i)
  {
    hide At, Blank;
    forall q: nat, k: nat | q < p ensures !Keyed(opts, key, q, k) {
      assert !At(opts, key, q);
    }
  }

  lemma OptionIs(opts: string, key: string, i: nat, e: nat)
    requires ReadsOption(OptValue(opts, key), opts, key) && FirstKey(opts, key, i)
    requires i < |opts| && opts[i] == '{' && i < e && ClosesBrace(opts, i, e)
    ensures OptValue(opts, key) == Value(opts[i + 1..e])
  {
    hide OptValue, FirstKey, ClosesBrace, Keyed;
    assert ReadsValue(OptValue(opts, key), opts, i);
    ClosesFits(opts, i, e);
  }

  lemma ClosesFits(text: string, q: nat, e: nat)
    requires ClosesBrace(text, q, e)
    ensures q <= e < |text|
  {}

  // ---------------------------------------------------------------- blocks

  /** A caption command whose braces do not close. */
  ghost predicate CaptionFails(body: string) {
    !Nowhere(body, "\\caption") && forall c :: !HasCaption(body, c)
  }

  lemma CaptionRaised(body: string)
    ensures CaptionOf(body) == Raised <==> CaptionFails(body)
  {
    hide CaptionOf, HasCaption, Nowhere;
    CaptionRead(body);
    var r := CaptionOf(body);
    if r.Value? {
      assert HasCaption(body, r.text);
    }
  }

  /** A figure's block: its image, its caption and its label. */
  lemma FigureBlock(opts: string, body: string)
    ensures var r := BlockOf(Figures, opts, body);
      && (r.None? <==> CaptionFails(body))
      && (r.Some? ==>
            && r.value.Figure? && ReadsImage(r.value.image, body) && ReadsCaption(r.value.caption, body)
            && ReadsLabel(r.value.name, body))
  {
    hide CaptionOf, LabelOf, ImageFrom, CaptionFails, ReadsImage, ReadsCaption, ReadsLabel;
    CaptionRaised(body);
    CaptionRead(body);
    ImageRead(body);
    LabelRead(body);
  }

  /** A table's block: its caption, its label and its parts. */
  lemma TableBlock(opts: string, body: string)
    ensures var r := BlockOf(Tables, opts, body);
      && (r.None? <==> CaptionFails(body) || TableOf(body).None?)
      && (r.Some? ==>
            && r.value.Table? && ReadsCaption(r.value.caption, body) && ReadsLabel(r.value.name, body)
            && TableOf(body) == Some(r.value.parts))
  {
    hide CaptionOf, LabelOf, TableOf, CaptionFails, ReadsCaption, ReadsLabel;
    CaptionRaised(body);
    CaptionRead(body);
    LabelRead(body);
  }

  /** An option in braces that do not close. */
  ghost predicate OptionFails(opts: string, key: string) {
    exists i: nat :: FirstKey(opts, key, i) && i < |opts| && opts[i] == '{' && forall e: nat :: !ClosesBrace(opts, i, e)
  }

  lemma OptionRaised(opts: string, key: string)
    requires key != ""
    ensures OptValue(opts, key) == Raised <==> OptionFails(opts, key)
  {
    hide FindValue, FirstKey, Keyed, ClosesBrace, Brace, Strip;
    FirstKeyIs(opts, key);
    var i := FindValue(opts, key, 0);
    if i.Some? && i.value < |opts| && opts[i.value] == '{' {
      BraceBehind(opts, i.value);
      forall e: nat ensures ClosesBrace(opts, i.value, e) <==> Brace(opts, i.value, 0) == Some(e) {
        BraceIsClosing(opts, i.value, e);
      }
    }
  }

  /** A text without the newlines around it. */
  ghost predicate WithoutNewlines(body: string, code: string) {
    && (code != "" ==> code[0] != '\n' && code[|code| - 1] != '\n')
    && exists a: string, b: string :: body == a + code + b && AllNewlines(a) && AllNewlines(b)
  }

  predicate AllNewlines(s: string) {
    forall i :: 0 <= i < |s| ==> s[i] == '\n'
  }

  lemma {:induction false} LeftStripped(s: string) returns (a: string)
    ensures s == a + StripLeft(s) && AllNewlines(a) && (StripLeft(s) != "" ==> StripLeft(s)[0] != '\n')
  {
    a := "";
    if s != "" && s[0] == '\n' {
      var b := LeftStripped(s[1..]);
      a := [s[0]] + b;
    }
  }

  lemma {:induction false} RightStripped(s: string) returns (b: string)
    ensures s == StripRight(s) + b && AllNewlines(b)
    ensures StripRight(s) != "" ==> StripRight(s)[|StripRight(s)| - 1] != '\n' && StripRight(s)[0] == s[0]
  {
    b := "";
    if s != "" && s[|s| - 1] == '\n' {
      var c := RightStripped(s[..|s| - 1]);
      b := c + [s[|s| - 1]];
    }
  }

  lemma NewlinesStripped(body: string)
    ensures WithoutNewlines(body, StripNewlines(body))
  {
    hide StripLeft, StripRight;
    var a := LeftStripped(body);
    var b := RightStripped(StripLeft(body));
    Assoc(a, StripNewlines(body), b);
  }

  /** A listing's block: whether it is one of device commands, its caption and label from the options, and its code. */
  lemma ListingBlockRead(kind: Float, opts: string, body: string)
    requires kind.Code? || kind.Cisco?
    ensures var r := BlockOf(kind, opts, body);
      && (r.None? <==> OptionFails(opts, "caption") || OptionFails(opts, "label"))
      && (r.Some? ==>
            && r.value.Listing? && r.value.cisco == kind.Cisco? && WithoutNewlines(body, r.value.code)
            && ReadsOption(r.value.caption, opts, "caption") && ReadsOption(r.value.name, opts, "label"))
  {
    hide OptValue, OptionFails, StripNewlines, WithoutNewlines, ReadsOption;
    OptionRaised(opts, "caption");
    OptionRaised(opts, "label");
    OptionRead(opts, "caption");
    OptionRead(opts, "label");
    NewlinesStripped(body);
  }

  // ---------------------------------------------------------------- a figure written out

  lemma CaptionPieces(x: string, o: string, c: string, z: string)
    requires Nowhere(x, "\\caption") && '{' !in o && EndsPlain(o) && Balanced(c)
    ensures CaptionOf(x + "\\caption" + o + "{" + c + "}" + z) == Value(c)
  {
    hide *;
    var cmd := "\\caption";
    var body := x + cmd + o + "{" + c + "}" + z;
    CaptionCommand();
    assert body == x + cmd + (o + "{" + c + "}" + z);
    FirstBehind(x, cmd, o + "{" + c + "}" + z);
    BracedPieces(x + cmd, o, c, z) by {
      PlainBehind(x, o);
    }
    CaptionRead(body);
    CaptionHere(body, |x|, c, z);
  }

  lemma CaptionCommand()
    ensures Command("\\caption") && |"\\caption"| == 8
  {}

  lemma PlainBehind(x: string, o: string)
    requires EndsPlain(o)
    ensures EndsPlain(x + "\\caption" + o)
  {}

  lemma CaptionHere(body: string, p: nat, c: string, z: string)
    requires ReadsCaption(CaptionOf(body), body) && FirstAt(body, "\\caption", 0, p) && InBraces(body, p + 8, c, z)
    ensures CaptionOf(body) == Value(c)
  {
    hide CaptionOf, FirstAt, InBraces, Nowhere;
    assert Braced(body, p + 8, c);
    assert HasCaption(body, c);
  }

  lemma LabelPieces(x: string, l: string, z: string)
    requires Nowhere(x, "\\label{") && '}' !in l
    ensures LabelOf(x + "\\label{" + l + "}" + z) == Value(l)
  {
    hide *;
    var cmd := "\\label{";
    var body := x + cmd + l + "}" + z;
    LabelCommand();
    assert body == x + cmd + (l + "}" + z);
    FirstBehind(x, cmd, l + "}" + z);
    OneFirst(body, cmd, 0, |x|);
    assert body == x + (cmd + l + "}") + z;
    AtBehind(x, cmd + l + "}", z);
    LabelAt(body, |x|, l);
  }

  lemma LabelCommand()
    ensures Command("\\label{")
  {}

  lemma ImagePieces(x: string, o: string, g: string, z: string)
    requires Nowhere(x, "\\includegraphics") && (o == "" || Bracketed(o)) && '}' !in g
    ensures ImageFrom(x + "\\includegraphics" + o + "{" + g + "}" + z, 0) == Value(g)
  {
    hide *;
    var cmd := "\\includegraphics";
    var body := x + cmd + o + "{" + g + "}" + z;
    ImageCommand();
    var behind := o + "{" + g + "}" + z;
    assert body == x + cmd + behind;
    FirstBehind(x, cmd, behind);
    var whole := cmd + (o + ("{" + (g + "}")));
    assert body == x + whole + z;
    AtBehind(x, whole, z);
    ImageRead(body);
    ImageHere(body, |x|, o, g);
  }

  lemma ImageCommand()
    ensures Command("\\includegraphics")
  {}

  lemma ImageHere(body: string, p: nat, o: string, g: string)
    requires ReadsImage(ImageFrom(body, 0), body) && FirstAt(body, "\\includegraphics", 0, p)
    requires (o == "" || Bracketed(o)) && '}' !in g && At(body, "\\includegraphics" + (o + ("{" + (g + "}"))), p)
    ensures ImageFrom(body, 0) == Value(g)
  {
    hide At, Bracketed, ImageFrom;
    assert ImageWith(body, p, o, g);
    assert ImageStands(body, p, g);
    forall q: nat, h | q < p ensures !ImageStands(body, q, h) {
      forall r | ImageWith(body, q, r, h) ensures false {
        AtPieces(body, "\\includegraphics", r + ("{" + (h + "}")), q);
      }
    }
    assert FirstImage(body, p, g);
  }

  /** A figure with its image, caption and label in this order, and anything without such commands between them. */
  lemma FigureReads(opts: string, w: string, o: string, g: string, x: string, c: string, y: string, l: string,
                    z: string)
    requires (o == "" || Bracketed(o)) && '}' !in g && Balanced(c) && '}' !in l
    requires var front := w + "\\includegraphics" + o + "{" + g + "}" + x;
      && Nowhere(w, "\\includegraphics") && Nowhere(front, "\\caption")
      && Nowhere(front + "\\caption{" + c + "}" + y, "\\label{")
    ensures var front := w + "\\includegraphics" + o + "{" + g + "}" + x;
            var body := front + "\\caption{" + c + "}" + y + "\\label{" + l + "}" + z;
      BlockOf(Figures, opts, body) == Some(Figure(Value(g), Value(c), Value(l)))
  {
    hide *;
    var front := w + "\\includegraphics" + o + "{" + g + "}" + x;
    var back := y + "\\label{" + l + "}" + z;
    var body := front + "\\caption{" + c + "}" + y + "\\label{" + l + "}" + z;
    LabelPieces(front + "\\caption{" + c + "}" + y, l, z);
    CaptionPieces(front, "", c, back) by {
      PlainEmpty();
    }
    assert "\\caption" + "" + "{" == "\\caption{";
    assert front + "\\caption" + "" + "{" + c + "}" + back == body;
    ImagePieces(w, o, g, x + ("\\caption{" + c + "}" + back));
    assert w + "\\includegraphics" + o + "{" + g + "}" + (x + ("\\caption{" + c + "}" + back)) == body;
    FigureIs(opts, body);
  }

  lemma PlainEmpty()
    ensures EndsPlain("")
  {}

  lemma FigureIs(opts: string, body: string)
    requires CaptionOf(body) != Raised
    ensures BlockOf(Figures, opts, body) == Some(Figure(ImageFrom(body, 0), CaptionOf(body), LabelOf(body)))
  {
    hide CaptionOf, ImageFrom, LabelOf;
  }
}
