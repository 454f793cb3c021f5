/** The placeholders left by preprocess: every one stands on a line of its own, and no number is used twice. */
module TexPlaceholders {
  import opened Text
  import opened Decimal
  import opened TexEnvironments
  import opened TexBlocks
  import opened TexStrings
  import opened TexExtraction
  import opened TexPreprocess

  // ---------------------------------------------------------------- lines

  function Tag(): string {
    "@@BLK"
  }

  function TagLine(n: nat): string {
    "@@BLK" + Itoa(n) + "@@"
  }

  /** How a flow of lines recognises a placeholder: on a line of its own, with its number. */
  function LineId(line: string): Option<nat> {
    var t := Strip(line);
    if !HasPrefix(t, Tag()) || |t| == |Tag()| || !IsDigit(t[|Tag()|]) then None
    else
      var (n, rest) := ReadDigits(t[|Tag()|..], 0);
      if rest == "@@" then Some(n) else None
  }

  function Ids(lines: seq<string>): multiset<nat> {
    if lines == [] then multiset{}
    else (if LineId(lines[0]).Some? then multiset{LineId(lines[0]).value} else multiset{}) + Ids(lines[1..])
  }

  /** The placeholders read back from a text. */
  function IdsOf(text: string): multiset<nat> {
    Ids(Split(text, '\n'))
  }

  ghost predicate Untagged(s: string) {
    forall p: nat :: !At(s, Tag(), p)
  }

  /** No tag, or a whole placeholder. */
  ghost predicate LineTidy(l: string) {
    Untagged(l) || exists n: nat :: l == TagLine(n)
  }

  ghost predicate LinesTidy(lines: seq<string>) {
    forall k :: 0 <= k < |lines| ==> LineTidy(lines[k])
  }

  ghost predicate Tidy(text: string) {
    LinesTidy(Split(text, '\n'))
  }

  /** Characters that placeholders are written with. */
  predicate InTagLine(c: char) {
    c == '@' || c == 'B' || c == 'L' || c == 'K' || IsDigit(c)
  }

  lemma TagLineChars(n: nat)
    ensures forall c :: c in TagLine(n) ==> InTagLine(c)
    ensures |TagLine(n)| > 7 && TagLine(n)[0] == '@' && TagLine(n)[|TagLine(n)| - 1] == '@'
  {
    forall c | c in TagLine(n) ensures InTagLine(c) {
      if c !in Itoa(n) {
        assert c in "@@BLK" || c in "@@";
      }
    }
  }

  lemma UntaggedPart(s: string, i: nat, j: nat)
    requires i <= j <= |s| && Untagged(s)
    ensures Untagged(s[i..j])
  {
    hide At, Tag;
    forall p: nat ensures !At(s[i..j], Tag(), p) {
      SliceAt(s, i, j, Tag(), p);
    }
  }

  lemma {:induction false} RStripSlice(s: string) returns (b: nat)
    ensures b <= |s| && RStrip(s) == s[..b]
  {
    if s != "" && IsPySpace(s[|s| - 1]) {
      b := RStripSlice(s[..|s| - 1]);
    } else {
      b := |s|;
    }
  }

  lemma UntaggedLine(l: string)
    requires Untagged(l)
    ensures LineId(l).None?
  {
    hide IsPySpace, ReadDigits, RunLen;
    var a := RunLen(l, IsPySpace);
    var b := RStripSlice(l[a..]);
    var t := Strip(l);
    assert t == l[a..a + b];
    UntaggedPart(l, a, a + b);
    assert !At(t, Tag(), 0);
  }

  lemma TagLineId(n: nat)
    ensures LineId(TagLine(n)) == Some(n)
  {
    var l := TagLine(n);
    TagLineChars(n);
    assert Strip(l) == l by {
      NoRun(l, IsPySpace);
    }
    ReadPrinted(n, "@@");
    assert l[5..] == Itoa(n) + "@@" && l[..5] == "@@BLK";
    assert Itoa(n)[0] in Itoa(n) && l[5] == Itoa(n)[0];
    assert ReadDigits("@@", n) == (n, "@@");
  }

  lemma {:induction false} IdsAppend(a: seq<string>, b: seq<string>)
    ensures Ids(a + b) == Ids(a) + Ids(b)
  {
    if a == [] {
      assert a + b == b;
    } else {
      hide LineId;
      IdsAppend(a[1..], b);
      assert (a + b)[1..] == a[1..] + b;
    }
  }

  lemma OneId(l: string)
    ensures Ids([l]) == if LineId(l).Some? then multiset{LineId(l).value} else multiset{}
  {
    hide LineId;
    assert [l][1..] == [];
    assert Ids([]) == multiset{};
  }

  // ---------------------------------------------------------------- cutting a text in two

  /** Splitting two texts joined without a separator: the last line of the one continues in the first of the other. */
  lemma {:induction false} SplitAcross(x: string, y: string)
        returns (a: seq<string>, l: string, f: string, b: seq<string>)
    ensures Split(x, '\n') == a + [l] && Split(y, '\n') == [f] + b && Split(x + y, '\n') == a + [l + f] + b
    decreases |x|
  {
    hide Split;
    if '\n' in x {
      var k := IndexOf(x, '\n');
      var a';
      a', l, f, b := SplitAcross(x[k + 1..], y);
      a := [x[..k]] + a';
      assert x == x[..k] + "\n" + x[k + 1..];
      SplitOne(x[..k], x[k + 1..], '\n');
      SplitOne(x[..k], x[k + 1..] + y, '\n');
      assert x + y == x[..k] + "\n" + (x[k + 1..] + y);
      assert [x[..k]] + (a' + [l + f] + b) == a + [l + f] + b;
      assert [x[..k]] + (a' + [l]) == a + [l];
    } else {
      a, l := [], x;
      SplitNone(x);
      f, b := SplitFirst(y, x);
      assert a + [l] == [x];
      assert a + [l + f] + b == [x + f] + b;
    }
  }

  lemma SplitNone(a: string)
    requires '\n' !in a
    ensures Split(a, '\n') == [a]
  {}

  lemma SplitFirst(y: string, x: string) returns (f: string, b: seq<string>)
    requires '\n' !in x
    ensures Split(y, '\n') == [f] + b && Split(x + y, '\n') == [x + f] + b
  {
    hide Split;
    if '\n' in y {
      var k := IndexOf(y, '\n');
      f, b := y[..k], Split(y[k + 1..], '\n');
      assert y == y[..k] + "\n" + y[k + 1..];
      SplitOne(y[..k], y[k + 1..], '\n');
      SplitOne(x + y[..k], y[k + 1..], '\n');
      assert x + y == (x + y[..k]) + "\n" + y[k + 1..];
    } else {
      f, b := y, [];
      SplitNone(y);
      SplitNone(x + y);
    }
  }

  /** A line that holds something no placeholder does has no tag in it, nor has any part of it. */
  lemma MarkedLine(l: string, m: string, f: string, c: char)
    requires c in m && !InTagLine(c) && LineTidy(l + m + f)
    ensures Untagged(l) && Untagged(f) && Untagged(l + m + f)
  {
    hide Untagged, InTagLine, TagLine;
    var s := l + m + f;
    assert c in s;
    forall n: nat ensures s != TagLine(n) {
      TagLineChars(n);
    }
    UntaggedPart(s, 0, |l|);
    UntaggedPart(s, |l + m|, |s|);
    assert s[0..|l|] == l && s[|l + m|..|s|] == f;
  }

  /** Cutting a tidy text at a mark no placeholder can hold: both parts are tidy and share out its placeholders. */
  lemma CutMark(x: string, m: string, y: string, c: char)
    requires '\n' !in m && c in m && !InTagLine(c) && Tidy(x + m + y)
    ensures Tidy(x) && Tidy(y) && IdsOf(x + m + y) == IdsOf(x) + IdsOf(y)
  {
    hide *;
    var f, b := SplitFirst(y, m);
    var a, l, f', b' := SplitAcross(x, m + y);
    Assoc(x, m, y);
    HeadTail(f', b', m + f, b);
    Assoc(l, m, f);
    MiddleLine(x, m, y, a, l, f, b);
    MarkedLine(l, m, f, c);
    TidyParts(x, y, a, l, l + m + f, f, b);
    UntaggedLine(l);
    UntaggedLine(f);
    UntaggedLine(l + m + f);
    ThreeIds(a, l + m + f, b);
    ThreeIds(a, l, []);
    ThreeIds([], f, b);
    IdsShared(x, m, y, a, l, f, b);
  }

  lemma HeadTail<T>(a: T, s: seq<T>, b: T, t: seq<T>)
    requires [a] + s == [b] + t
    ensures a == b && s == t
  {
    assert ([a] + s)[1..] == s && ([b] + t)[1..] == t;
    assert ([a] + s)[0] == a && ([b] + t)[0] == b;
  }

  lemma MiddleLine(x: string, m: string, y: string, a: seq<string>, l: string, f: string, b: seq<string>)
    requires Split(x + m + y, '\n') == a + [l + m + f] + b && Tidy(x + m + y)
    ensures LineTidy(l + m + f) && LinesTidy(a + [l + m + f] + b)
  {
    hide Split, LineTidy;
    assert (a + [l + m + f] + b)[|a|] == l + m + f;
  }

  lemma TidyParts(x: string, y: string, a: seq<string>, l: string, mid: string, f: string, b: seq<string>)
    requires Split(x, '\n') == a + [l] && Split(y, '\n') == [f] + b && Untagged(l) && Untagged(f)
    requires LinesTidy(a + [mid] + b)
    ensures Tidy(x) && Tidy(y)
  {
    hide Split, Untagged;
    var s := a + [mid] + b;
    assert forall k :: 0 <= k < |a| ==> s[k] == a[k];
    forall k | 0 <= k < |b| ensures LineTidy(b[k]) {
      assert s[|a| + 1 + k] == b[k];
    }
  }

  lemma ThreeIds(a: seq<string>, l: string, b: seq<string>)
    requires LineId(l).None?
    ensures Ids(a + [l] + b) == Ids(a) + Ids(b) && Ids(a + [l]) == Ids(a) && Ids([l] + b) == Ids(b)
  {
    hide LineId, Ids;
    OneId(l);
    IdsAppend(a, [l]);
    IdsAppend(a + [l], b);
    IdsAppend([l], b);
  }

  lemma IdsShared(x: string, m: string, y: string, a: seq<string>, l: string, f: string, b: seq<string>)
    requires Split(x, '\n') == a + [l] && Split(y, '\n') == [f] + b && Split(x + m + y, '\n') == a + [l + m + f] + b
    requires Ids(a + [l + m + f] + b) == Ids(a) + Ids(b) && Ids(a + [l]) == Ids(a) && Ids([f] + b) == Ids(b)
    ensures IdsOf(x + m + y) == IdsOf(x) + IdsOf(y)
  {
    hide Split, Ids;
  }

  // ---------------------------------------------------------------- what a hit leaves

  /** The marks of an environment. */
  lemma MarksCut(env: string)
    requires EnvName(env)
    ensures '\n' !in Begin(env) && '\\' in Begin(env) && '\n' !in End(env) && '\\' in End(env)
    ensures !InTagLine('\\') && !InTagLine(']') && !InTagLine('}')
  {
    assert Begin(env)[0] == '\\' && End(env)[0] == '\\';
    assert Begin(env) == "\\begin{" + env + "}" && End(env) == "\\end{" + env + "}";
  }

  /** What stands before an environment, in it and behind it share out the placeholders not in its options. */
  lemma HitCut(text: string, env: string, pos: nat)
    requires EnvName(env) && pos <= |text| && Tidy(text[pos..]) && EnvAt(text, env, pos).Found?
    ensures var h := EnvAt(text, env, pos);
      && pos <= h.start < h.stop <= |text| && Tidy(text[pos..h.start]) && Tidy(h.body) && Tidy(text[h.stop..])
      && IdsOf(text[pos..h.start]) + IdsOf(h.body) + IdsOf(text[h.stop..]) <= IdsOf(text[pos..])
  {
    hide *;
    EnvFits(text, env, pos);
    var h := EnvAt(text, env, pos);
    var j, j', e := HitParts(text, env, pos);
    MarksCut(env);
    Beside(text, pos, h.start, j);
    CutMark(text[pos..h.start], Begin(env), text[j..], '\\');
    OptionsCut(text, j, j', h.opts);
    Beside(text, j', e, h.stop);
    CutMark(h.body, End(env), text[h.stop..], '\\');
  }

  lemma Beside(text: string, i: nat, j: nat, k: nat)
    requires i <= j <= k <= |text|
    ensures text[i..] == text[i..j] + text[j..k] + text[k..]
  {}

  lemma OptionsCut(text: string, j: nat, j': nat, opts: string)
    requires j <= j' <= |text| && Tidy(text[j..]) && (text[j..j'] == "" || text[j..j'] == "[" + opts + "]")
    ensures Tidy(text[j'..]) && IdsOf(text[j'..]) <= IdsOf(text[j..])
  {
    hide *;
    assert text[j..] == text[j..j'] + text[j'..];
    if text[j..j'] == "" {
      assert text[j..] == text[j'..];
    } else {
      assert text[j..] == ("[" + opts) + "]" + text[j'..];
      MarksCut("");
      CutMark("[" + opts, "]", text[j'..], ']');
    }
  }

  // ---------------------------------------------------------------- tabs

  function TabTextIds(tabs: seq<Tab>): multiset<nat> {
    if tabs == [] then multiset{} else IdsOf(tabs[0].text) + TabTextIds(tabs[1..])
  }

  /** The placeholders in the texts of all tabs. */
  function TabIds(blocks: seq<Block>): multiset<nat> {
    if blocks == [] then multiset{}
    else (if blocks[0].VendorTabs? then TabTextIds(blocks[0].tabs) else multiset{}) + TabIds(blocks[1..])
  }

  ghost predicate TabTextsTidy(tabs: seq<Tab>) {
    forall t :: t in tabs ==> Tidy(t.text)
  }

  ghost predicate TabsTidy(blocks: seq<Block>) {
    forall b :: b in blocks ==> b.VendorTabs? ==> TabTextsTidy(b.tabs)
  }

  lemma {:induction false} TabsShare(body: string, pos: nat)
    requires pos <= |body| && Tidy(body[pos..]) && TabsFrom(body, pos).Some?
    ensures var tabs := TabsFrom(body, pos).value; TabTextsTidy(tabs) && TabTextIds(tabs) <= IdsOf(body[pos..])
    decreases |body| - pos
  {
    hide *;
    TabsStep(body, pos);
    var h := EnvAt(body, "vendortab", pos);
    if h.Miss? {
      NoTabs();
    } else {
      VendorTabName();
      HitCut(body, "vendortab", pos);
      var braced := BracedFrom(h.body, 0).value;
      BraceCut(h.body);
      var tab := Tab(Strip(braced.0), h.body[braced.1 + 1..]);
      JoinedParts([tab], TabsFrom(body, h.stop));
      TabsShare(body, h.stop);
      TabsCons(tab, TabsFrom(body, h.stop).value);
    }
  }

  lemma VendorTabName()
    ensures EnvName("vendortab")
  {}

  lemma NoTabs()
    ensures TabTextsTidy([]) && TabTextIds([]) == multiset{}
  {}

  lemma TabsCons(tab: Tab, more: seq<Tab>)
    requires Tidy(tab.text) && TabTextsTidy(more)
    ensures TabTextsTidy([tab] + more) && TabTextIds([tab] + more) == IdsOf(tab.text) + TabTextIds(more)
  {
    hide Tidy, IdsOf;
    assert ([tab] + more)[1..] == more;
  }

  /** The text behind the title of a tab. */
  lemma BraceCut(text: string)
    requires Tidy(text) && BracedFrom(text, 0).Some?
    ensures var close := BracedFrom(text, 0).value.1;
      close < |text| && Tidy(text[close + 1..]) && IdsOf(text[close + 1..]) <= IdsOf(text)
  {
    hide *;
    BracedBehind(text);
    var close := BracedFrom(text, 0).value.1;
    assert text == text[..close] + "}" + text[close + 1..];
    MarksCut("");
    CutMark(text[..close], "}", text[close + 1..], '}');
  }

  lemma BracedBehind(text: string)
    ensures BracedFrom(text, 0).Some? ==>
            BracedFrom(text, 0).value.1 < |text| && text[BracedFrom(text, 0).value.1] == '}'
  {
    hide Find, Brace;
  }

  /** The tabs of a block hold no more placeholders than the environment it is made of. */
  lemma BlockShare(kind: Float, opts: string, body: string)
    requires Tidy(body) && BlockOf(kind, opts, body).Some?
    ensures var b := BlockOf(kind, opts, body).value; TabsTidy([b]) && TabIds([b]) <= IdsOf(body)
  {
    hide *;
    var b := BlockOf(kind, opts, body).value;
    BlockTabs(kind, opts, body);
    if b.VendorTabs? {
      assert body[0..] == body;
      TabsShare(body, 0);
    }
    OneBlock(b);
  }

  lemma BlockTabs(kind: Float, opts: string, body: string)
    ensures var b := BlockOf(kind, opts, body);
      b.Some? && b.value.VendorTabs? ==> TabsFrom(body, 0) == Some(b.value.tabs)
  {
    hide CaptionOf, LabelOf, ImageFrom, TabsFrom, TableOf, OptValue, StripNewlines;
  }

  lemma OneBlock(b: Block)
    ensures TabIds([b]) == if b.VendorTabs? then TabTextIds(b.tabs) else multiset{}
    ensures TabsTidy([b]) <==> (b.VendorTabs? ==> TabTextsTidy(b.tabs))
  {
    hide TabTextIds, TabTextsTidy;
    assert [b][1..] == [];
    assert TabIds([]) == multiset{};
    assert b in [b];
  }

  lemma {:induction false} TabIdsAppend(a: seq<Block>, b: seq<Block>)
    ensures TabIds(a + b) == TabIds(a) + TabIds(b)
    ensures TabsTidy(a) && TabsTidy(b) ==> TabsTidy(a + b)
  {
    hide TabTextIds, TabTextsTidy;
    if a == [] {
      assert a + b == b;
    } else {
      TabIdsAppend(a[1..], b);
      assert (a + b)[1..] == a[1..] + b;
    }
  }

  // ---------------------------------------------------------------- one loop

  function Numbers(n: nat, count: nat): multiset<nat>
    decreases count
  {
    if count == 0 then multiset{} else multiset{n} + Numbers(n + 1, count - 1)
  }

  lemma {:induction false} NumbersOnce(n: nat, count: nat)
    ensures forall id: nat :: Numbers(n, count)[id] == if n <= id < n + count then 1 else 0
    decreases count
  {
    if count > 0 {
      NumbersOnce(n + 1, count - 1);
    }
  }

  lemma NumbersAppend(n: nat, a: nat, b: nat)
    ensures Numbers(n, a) + Numbers(n + a, b) == Numbers(n, a + b)
  {
    hide Numbers;
    NumbersOnce(n, a);
    NumbersOnce(n + a, b);
    NumbersOnce(n, a + b);
  }

  lemma NumbersCons(n: nat, count: nat)
    ensures Numbers(n, 1 + count) == multiset{n} + Numbers(n + 1, count)
  {}

  /** A placeholder between two texts. */
  lemma PlaceholderBetween(a: string, n: nat, b: string)
    requires Tidy(a) && Tidy(b)
    ensures Tidy(a + Placeholder(n) + b) && IdsOf(a + Placeholder(n) + b) == IdsOf(a) + multiset{n} + IdsOf(b)
  {
    hide *;
    var l := TagLine(n);
    PlaceholderIs(a, n, b);
    SplitBoth(a, l + "\n" + b);
    SplitBoth(l, b);
    NoNewlineInTag(n);
    SplitNone(l);
    TidyLines(a);
    TidyLines(b);
    TidyLines(a + Placeholder(n) + b);
    IdsAppend(Split(a, '\n'), [l] + Split(b, '\n'));
    IdsAppend([l], Split(b, '\n'));
    TagLineId(n);
    OneId(l);
    LinesTidyOne(n);
    LinesTidyAppend([l], Split(b, '\n'));
    LinesTidyAppend(Split(a, '\n'), [l] + Split(b, '\n'));
  }

  lemma TidyLines(a: string)
    ensures Tidy(a) <==> LinesTidy(Split(a, '\n'))
    ensures IdsOf(a) == Ids(Split(a, '\n'))
  {}

  lemma LinesTidyOne(n: nat)
    ensures LinesTidy([TagLine(n)])
  {
    hide TagLine, Untagged;
  }

  lemma LinesTidyAppend(a: seq<string>, b: seq<string>)
    requires LinesTidy(a) && LinesTidy(b)
    ensures LinesTidy(a + b)
  {
    hide LineTidy;
  }

  lemma NoNewlineInTag(n: nat)
    ensures '\n' !in TagLine(n)
  {
    hide TagLine;
    TagLineChars(n);
  }

  lemma PlaceholderIs(a: string, n: nat, b: string)
    ensures a + Placeholder(n) + b == a + "\n" + (TagLine(n) + "\n" + b)
  {
    var l := TagLine(n);
    assert Placeholder(n) == "\n" + l + "\n" by {
      assert "\n@@BLK" == "\n" + "@@BLK";
      assert "@@\n" == "@@" + "\n";
    }
    assert a + ("\n" + l + "\n") + b == a + "\n" + (l + "\n" + b);
  }

  lemma {:induction false} SplitBoth(a: string, b: string)
    ensures Split(a + "\n" + b, '\n') == Split(a, '\n') + Split(b, '\n')
    decreases |a|
  {
    hide Split;
    if '\n' in a {
      var k := IndexOf(a, '\n');
      SplitBoth(a[k + 1..], b);
      assert a == a[..k] + "\n" + a[k + 1..];
      SplitOne(a[..k], a[k + 1..], '\n');
      SplitOne(a[..k], a[k + 1..] + "\n" + b, '\n');
      assert a + "\n" + b == a[..k] + "\n" + (a[k + 1..] + "\n" + b);
      Assoc([a[..k]], Split(a[k + 1..], '\n'), Split(b, '\n'));
    } else {
      SplitOne(a, b, '\n');
      SplitNone(a);
    }
  }

  /** A loop keeps every tag on a line of its own, and uses up no placeholder but those it writes. */
  lemma {:induction false} ExtractShares(text: string, kind: Float, n: nat)
    requires Tidy(text) && Extract(text, kind, n).Done?
    ensures var r := Extract(text, kind, n);
      && Tidy(r.text) && TabsTidy(r.blocks)
      && IdsOf(r.text) + TabIds(r.blocks) <= IdsOf(text) + Numbers(n, |r.blocks|)
    decreases |text|
  {
    hide *;
    ExtractIs(text, kind, n);
    var h := EnvAt(text, EnvOf(kind), 0);
    if h.Miss? {
      NoBlocks(n);
    } else {
      EnvNameOf(kind);
      assert text[0..] == text;
      HitCut(text, EnvOf(kind), 0);
      assert text[0..h.start] == text[..h.start];
      CutIs(text, kind, n, h);
      var b := BlockOf(kind, h.opts, h.body).value;
      var rest := Extract(text[h.stop..], kind, n + 1);
      PrependParts(text[..h.start] + Placeholder(n), [b], rest);
      BlockShare(kind, h.opts, h.body);
      ExtractShares(text[h.stop..], kind, n + 1);
      PlaceholderBetween(text[..h.start], n, rest.text);
      TabIdsAppend([b], rest.blocks);
      NumbersCons(n, |rest.blocks|);
      ShareOut(IdsOf(text[..h.start]), IdsOf(h.body), IdsOf(text[h.stop..]), IdsOf(text), multiset{n}, IdsOf(rest.text),
               TabIds([b]), TabIds(rest.blocks), Numbers(n + 1, |rest.blocks|));
    }
  }

  lemma ShareOut(pre: multiset<nat>, body: multiset<nat>, post: multiset<nat>, whole: multiset<nat>, one: multiset<nat>,
                 text: multiset<nat>, tabs: multiset<nat>, more: multiset<nat>, numbers: multiset<nat>)
    requires pre + body + post <= whole && tabs <= body && text + more <= post + numbers
    ensures (pre + one + text) + (tabs + more) <= whole + (one + numbers)
  {
    assert (pre + one + text) + (tabs + more) == pre + one + tabs + (text + more);
    assert pre + one + tabs + (text + more) <= pre + one + body + (post + numbers);
    assert pre + one + body + (post + numbers) == (pre + body + post) + (one + numbers);
  }

  lemma EnvNameOf(kind: Float)
    ensures EnvName(EnvOf(kind))
  {}

  lemma NoBlocks(n: nat)
    ensures TabsTidy([]) && TabIds([]) == multiset{} && Numbers(n, 0) == multiset{}
  {}

  // ---------------------------------------------------------------- comments

  lemma {:induction false} NoComment(l: string, i: nat)
    requires i <= |l| && '%' !in l
    ensures CommentAt(l, i) == |l|
    decreases |l| - i
  {
    if i < |l| {
      assert l[i] in l;
      NoComment(l, i + 1);
    }
  }

  /** Removing the comment of a line leaves its placeholder, and makes none. */
  lemma CleanLineTidy(l: string)
    requires LineTidy(l)
    ensures LineTidy(CleanLine(l)) && LineId(CleanLine(l)) == LineId(l)
  {
    hide *;
    if Untagged(l) {
      var b := CleanSlice(l);
      assert l[0..b] == l[..b];
      UntaggedPart(l, 0, b);
      UntaggedLine(l);
      UntaggedLine(l[..b]);
      UntaggedTidy(l[..b]);
    } else {
      var n := TagOf(l);
      CleanTag(n);
    }
  }

  lemma TagOf(l: string) returns (n: nat)
    requires LineTidy(l) && !Untagged(l)
    ensures l == TagLine(n)
  {
    hide Untagged, TagLine;
    n :| l == TagLine(n);
  }

  lemma UntaggedTidy(l: string)
    requires Untagged(l)
    ensures LineTidy(l)
  {}

  lemma CleanSlice(l: string) returns (b: nat)
    ensures b <= |l| && CleanLine(l) == l[..b]
  {
    var k := CommentAt(l, 0);
    b := RStripSlice(l[..k]);
    assert l[..k][..b] == l[..b];
  }

  lemma CleanTag(n: nat)
    ensures CleanLine(TagLine(n)) == TagLine(n)
  {
    hide TagLine, CommentAt;
    var l := TagLine(n);
    TagLineChars(n);
    NoComment(l, 0);
    assert l[..|l|] == l;
  }

  lemma {:induction false} CleanIds(lines: seq<string>)
    requires LinesTidy(lines) && NoneHas(lines, '\n')
    ensures LinesTidy(CleanLines(lines)) && Ids(CleanLines(lines)) == Ids(lines)
    ensures NoneHas(CleanLines(lines), '\n') && |CleanLines(lines)| == |lines|
  {
    hide LineTidy, LineId, CleanLine;
    if lines != [] {
      var l := lines[0];
      CleanLineTidy(l);
      var b := CleanSlice(l);
      assert l in lines && '\n' !in l[..b];
      CleanIds(lines[1..]);
      assert ([CleanLine(l)] + CleanLines(lines[1..]))[1..] == CleanLines(lines[1..]);
      LinesTidyAppend([CleanLine(l)], CleanLines(lines[1..]));
    }
  }

  lemma CommentsKeepIds(text: string)
    requires Tidy(text)
    ensures Tidy(WithoutComments(text)) && IdsOf(WithoutComments(text)) == IdsOf(text)
  {
    hide Split, Join, CleanLines, LinesTidy, Ids, NoneHas;
    var lines := Split(text, '\n');
    SplitJoins(text, '\n');
    CleanIds(lines);
    JoinSplits(CleanLines(lines), '\n');
  }

  // ---------------------------------------------------------------- the whole

  /** What every step keeps: tags stand on lines of their own, and the placeholders of the text and of the tabs are
      numbers of blocks put in since, each used once at most. */
  ghost predicate Accounted(r: Extracted, n: nat) {
    && r.Done? && n <= |r.blocks| && Tidy(r.text) && TabsTidy(r.blocks[n..])
    && IdsOf(r.text) + TabIds(r.blocks[n..]) <= Numbers(n, |r.blocks| - n)
  }

  lemma AccountedIs(r: Extracted, n: nat)
    requires r.Done? && n <= |r.blocks|
    ensures Accounted(r, n) <==>
            && Tidy(r.text) && TabsTidy(r.blocks[n..])
            && IdsOf(r.text) + TabIds(r.blocks[n..]) <= Numbers(n, |r.blocks| - n)
    ensures Accounted(r, n) ==> n <= |r.blocks|
  {}

  lemma AccountedPhase(r: Extracted, kind: Float, n: nat)
    requires Accounted(r, n) && Phase(r, kind).Done?
    ensures Accounted(Phase(r, kind), n) && r.blocks <= Phase(r, kind).blocks
  {
    hide *;
    AccountedFits(r, n);
    AccountedIs(r, n);
    PhaseIs(r, kind);
    ExtractShares(r.text, kind, |r.blocks|);
    var x := Extract(r.text, kind, |r.blocks|);
    AccountedIs(Phase(r, kind), n);
    assert (r.blocks + x.blocks)[n..] == r.blocks[n..] + x.blocks;
    TabIdsAppend(r.blocks[n..], x.blocks);
    NumbersAppend(n, |r.blocks| - n, |x.blocks|);
    UseUp(IdsOf(r.text), TabIds(r.blocks[n..]), Numbers(n, |r.blocks| - n), IdsOf(x.text), TabIds(x.blocks),
          Numbers(|r.blocks|, |x.blocks|));
  }

  lemma UseUp(text: multiset<nat>, tabs: multiset<nat>, numbers: multiset<nat>,
              text': multiset<nat>, more: multiset<nat>, added: multiset<nat>)
    requires text + tabs <= numbers && text' + more <= text + added
    ensures text' + (tabs + more) <= numbers + added
  {
    assert text' + (tabs + more) == (text' + more) + tabs;
    assert (text + added) + tabs == (text + tabs) + added;
  }

  lemma AccountedFits(r: Extracted, n: nat)
    requires Accounted(r, n)
    ensures r.Done? && n <= |r.blocks|
  {}

  lemma AccountedStart(source: string, before: seq<Block>)
    requires Untagged(source)
    ensures Accounted(Done(source, before), |before|)
  {
    hide *;
    UntaggedText(source);
    NoBlocks(|before|);
    assert before[|before|..] == [];
    AccountedIs(Done(source, before), |before|);
  }

  lemma {:induction false} UntaggedText(s: string)
    requires Untagged(s)
    ensures Tidy(s) && IdsOf(s) == multiset{}
    decreases |s|
  {
    hide LineId, Untagged, Split;
    if '\n' in s {
      var k := IndexOf(s, '\n');
      UntaggedPart(s, 0, k);
      UntaggedPart(s, k + 1, |s|);
      assert s[0..k] == s[..k] && s[k + 1..|s|] == s[k + 1..];
      UntaggedLine(s[..k]);
      UntaggedText(s[k + 1..]);
      assert s == s[..k] + "\n" + s[k + 1..];
      SplitOne(s[..k], s[k + 1..], '\n');
      OneId(s[..k]);
      IdsAppend([s[..k]], Split(s[k + 1..], '\n'));
      LinesTidyAppend([s[..k]], Split(s[k + 1..], '\n'));
    } else {
      UntaggedLine(s);
      SplitNone(s);
      OneId(s);
    }
  }

  lemma AccountedClean(r: Extracted, n: nat)
    requires Accounted(r, n)
    ensures Accounted(Done(WithoutComments(r.text), r.blocks), n)
  {
    hide *;
    AccountedFits(r, n);
    AccountedIs(r, n);
    CommentsKeepIds(r.text);
    AccountedIs(Done(WithoutComments(r.text), r.blocks), n);
  }

  /** For a source that holds no tag of its own: what preprocess leaves of it, and the texts of all vendor tabs, hold
      tags only as whole placeholders; no number appears twice in all of them together, and every one is the number of
      a block made from this source. */
  lemma PlaceholdersOnce(source: string, before: seq<Block>)
    requires Untagged(source) && Preprocessed(source, before).Done?
    ensures var r := Preprocessed(source, before);
      && before <= r.blocks && Tidy(r.text) && TabsTidy(r.blocks[|before|..])
      && (forall id: nat :: var uses := IdsOf(r.text)[id] + TabIds(r.blocks[|before|..])[id];
            uses <= 1 && (uses == 1 ==> |before| <= id < |r.blocks|))
  {
    hide *;
    var n := |before|;
    var r1, r2, r3, r4, r5 := Steps(source, before);
    AccountedStart(source, before);
    AccountedPhase(Done(source, before), Code, n);
    AccountedPhase(r1, Cisco, n);
    AccountedClean(r2, n);
    AccountedPhase(r3, Figures, n);
    AccountedPhase(r4, Tables, n);
    AccountedPhase(r5, TabGroups, n);
    var r := Phase(r5, TabGroups);
    AccountedFits(r, n);
    AccountedIs(r, n);
    NumbersOnce(n, |r.blocks| - n);
    Grown(before, r1.blocks, r2.blocks, r4.blocks, r5.blocks, r.blocks);
    UsedOnce(IdsOf(r.text), TabIds(r.blocks[n..]), n, |r.blocks| - n);
  }

  lemma Grown(a: seq<Block>, b: seq<Block>, c: seq<Block>, d: seq<Block>, e: seq<Block>, f: seq<Block>)
    requires a <= b <= c <= d <= e <= f
    ensures a <= f
  {}

  lemma UsedOnce(a: multiset<nat>, b: multiset<nat>, n: nat, count: nat)
    requires a + b <= Numbers(n, count)
    ensures forall id: nat :: a[id] + b[id] <= 1 && (a[id] + b[id] == 1 ==> n <= id < n + count)
  {
    hide Numbers;
    NumbersOnce(n, count);
    forall id: nat ensures a[id] + b[id] <= 1 && (a[id] + b[id] == 1 ==> n <= id < n + count) {
      assert (a + b)[id] <= Numbers(n, count)[id];
    }
  }
}
