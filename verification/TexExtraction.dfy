/** Moving environments out of a LaTeX source into blocks, each leaving a numbered placeholder line. */
module TexExtraction {
  import opened Text
  import opened Decimal
  import opened TexEnvironments
  import opened TexBlocks
  import opened TexStrings

  datatype Extracted = Broken | Done(text: string, blocks: seq<Block>)

  function Placeholder(n: nat): string {
    "\n@@BLK" + Itoa(n) + "@@\n"
  }

  function Prepend(done: string, blocks: seq<Block>, r: Extracted): Extracted {
    if r.Broken? then Broken else Done(done + r.text, blocks + r.blocks)
  }

  /** A hit replaced, and the rest dealt with. */
  function Cut(text: string, kind: Float, n: nat, h: Hit): Extracted
    requires h.Found? && h.start < h.stop <= |text|
    decreases |text|, 0
  {
    var b := BlockOf(kind, h.opts, h.body);
    if b.None? then Broken
    else Prepend(text[..h.start] + Placeholder(n), [b.value], Extract(text[h.stop..], kind, n + 1))
  }

  /** One pass from left to right. */
  function Extract(text: string, kind: Float, n: nat): Extracted
    decreases |text|, 1
  {
    var h := EnvAt(text, EnvOf(kind), 0);
    if h.Miss? then Done(text, []) else if h.Failed? then Broken else Cut(text, kind, n, h)
  }

  // ---------------------------------------------------------------- searching again from the start

  lemma AtShift(p: string, s: string, pat: string, i: nat)
    ensures At(p + s, pat, |p| + i) == At(s, pat, i)
  {
    if i + |pat| <= |s| {
      assert (p + s)[|p| + i..|p| + i + |pat|] == s[i..i + |pat|];
    }
  }

  lemma FindShift(p: string, s: string, pat: string, i: nat)
    ensures var r := Find(s, pat, i); Find(p + s, pat, |p| + i) == if r.None? then None else Some(|p| + r.value)
  {
    hide At;
    var r := Find(s, pat, i);
    var t := Find(p + s, pat, |p| + i);
    forall q: nat | |p| <= q ensures At(p + s, pat, q) == At(s, pat, q - |p|) {
      AtShift(p, s, pat, q - |p|);
    }
    FindDecides(s, pat, i, r);
    FindDecides(p + s, pat, |p| + i, if r.None? then None else Some(|p| + r.value));
  }

  lemma FindDecides(s: string, pat: string, i: nat, r: Option<nat>)
    requires r.Some? ==> i <= r.value && At(s, pat, r.value)
    requires forall q: nat :: i <= q && (r.Some? ==> q < r.value) ==> !At(s, pat, q)
    ensures Find(s, pat, i) == r
  {
    hide At;
    var t := Find(s, pat, i);
    assert t.Some? ==> At(s, pat, t.value);
  }

  lemma {:induction false} BracketShift(p: string, s: string, i: nat, depth: int)
    ensures var r := Bracket(s, i, depth);
            Bracket(p + s, |p| + i, depth) == if r.None? then None else Some(|p| + r.value)
    decreases |s| - i
  {
    if i < |s| {
      assert (p + s)[|p| + i] == s[i];
      BracketShift(p, s, i + 1, BraceDepth(s[i], depth));
    }
  }

  lemma BodyStartShift(p: string, s: string, j: nat)
    ensures var r := BodyStart(s, j); BodyStart(p + s, |p| + j) == if r.None? then None else Some(|p| + r.value)
    ensures BodyStart(s, j).Some? ==>
            OptsText(p + s, |p| + j, |p| + BodyStart(s, j).value) == OptsText(s, j, BodyStart(s, j).value)
  {
    hide Bracket;
    BracketShift(p, s, j, 0);
    if j < |s| {
      assert (p + s)[|p| + j] == s[j];
    }
    if BodyStart(s, j).Some? {
      var j' := BodyStart(s, j).value;
      if j + 1 < j' <= |s| {
        assert (p + s)[|p| + j + 1..|p| + j' - 1] == s[j + 1..j' - 1];
      }
    }
  }

  lemma {:induction false} MatchShift(p: string, s: string, env: string, k: nat, depth: nat)
    requires depth > 0
    ensures var r := MatchEnd(s, env, k, depth);
            MatchEnd(p + s, env, |p| + k, depth) == if r.None? then None else Some(|p| + r.value)
    decreases |s| - k
  {
    hide *;
    MatchEndIs(s, env, k, depth);
    MatchEndIs(p + s, env, |p| + k, depth);
    FindShift(p, s, Begin(env), k);
    FindShift(p, s, End(env), k);
    MarkLengths(s, env);
    FoundAt(s, Begin(env), k);
    FoundAt(s, End(env), k);
    var nb, ne := Find(s, Begin(env), k), Find(s, End(env), k);
    if ne.Some? {
      if nb.Some? && nb.value < ne.value {
        MatchShift(p, s, env, nb.value + |Begin(env)|, depth + 1);
      } else if depth > 1 {
        MatchShift(p, s, env, ne.value + |End(env)|, depth - 1);
      }
    }
  }

  lemma FoundAt(s: string, pat: string, k: nat)
    ensures Find(s, pat, k).Some? ==> k <= Find(s, pat, k).value && At(s, pat, Find(s, pat, k).value)
  {}

  /** Finished text in front of which no beginning of the environment can be found. */
  ghost predicate Settled(p: string, env: string) {
    && (p == "" || p[|p| - 1] == '\n')
    && forall i: nat :: !At(p, Begin(env), i)
  }

  lemma NoNewlineInMarks(env: string)
    requires EnvName(env)
    ensures '\n' !in Begin(env)
  {
    assert Begin(env) == "\\begin{" + env + "}";
  }

  /** A mark cannot reach over a newline. */
  lemma NotAcross(p: string, s: string, env: string, i: nat)
    requires EnvName(env) && Settled(p, env) && i < |p|
    ensures !At(p + s, Begin(env), i)
  {
    hide Begin;
    NoNewlineInMarks(env);
    var b := Begin(env);
    if i + |b| <= |p| {
      PrefixAt(p, s, b, i);
    } else {
      assert (p + s)[|p| - 1] == '\n';
      NewlineBreaks(p + s, b, i, |p| - 1);
    }
  }

  lemma PrefixAt(p: string, s: string, pat: string, i: nat)
    requires i + |pat| <= |p|
    ensures At(p + s, pat, i) == At(p, pat, i)
  {
    assert (p + s)[i..i + |pat|] == p[i..i + |pat|];
  }

  lemma NewlineBreaks(t: string, pat: string, i: nat, q: nat)
    requires '\n' !in pat && i <= q < i + |pat| && q < |t| && t[q] == '\n'
    ensures !At(t, pat, i)
  {
    AtChar(t, pat, i, q - i);
    assert pat[q - i] in pat;
  }

  lemma EnvShift(p: string, s: string, env: string)
    requires EnvName(env) && Settled(p, env)
    ensures var h := EnvAt(s, env, 0);
      EnvAt(p + s, env, 0) == if h.Found? then Found(|p| + h.start, |p| + h.stop, h.opts, h.body) else h
  {
    hide *;
    EnvAtIs(s, env, 0);
    EnvAtIs(p + s, env, 0);
    FirstShift(p, s, env);
    var i := Find(s, Begin(env), 0);
    if i.Some? {
      var j := i.value + |Begin(env)|;
      BodyStartShift(p, s, j);
      if BodyStart(s, j).Some? {
        var j' := BodyStart(s, j).value;
        MatchShift(p, s, env, j', 1);
        EndFits(s, env, j');
        if MatchEnd(s, env, j', 1).Some? {
          SliceShift(p, s, j', MatchEnd(s, env, j', 1).value);
        }
      }
    }
  }

  lemma SliceShift(p: string, s: string, i: nat, j: nat)
    requires i <= j <= |s|
    ensures (p + s)[|p| + i..|p| + j] == s[i..j]
  {}

  lemma FirstShift(p: string, s: string, env: string)
    requires EnvName(env) && Settled(p, env)
    ensures var r := Find(s, Begin(env), 0); Find(p + s, Begin(env), 0) == if r.None? then None else Some(|p| + r.value)
  {
    hide *;
    FindShift(p, s, Begin(env), 0);
    FindFirst(p + s, Begin(env), |p|);
    forall i: nat | i < |p| ensures !At(p + s, Begin(env), i) {
      NotAcross(p, s, env, i);
    }
    SkipQuiet(p + s, Begin(env), |p|);
  }

  lemma FindFirst(s: string, pat: string, k: nat)
    ensures var r := Find(s, pat, k);
      && (r.Some? ==> k <= r.value && At(s, pat, r.value))
      && forall q: nat :: k <= q && (r.Some? ==> q < r.value) ==> !At(s, pat, q)
  {}

  lemma SkipQuiet(s: string, pat: string, k: nat)
    requires forall i: nat :: i < k ==> !At(s, pat, i)
    ensures Find(s, pat, 0) == Find(s, pat, k)
  {
    FindDecides(s, pat, 0, Find(s, pat, k));
  }

  lemma PlaceholderShape(n: nat)
    ensures |Placeholder(n)| > 0 && '\\' !in Placeholder(n)
    ensures Placeholder(n)[|Placeholder(n)| - 1] == '\n' && Placeholder(n)[0] == '\n'
  {
    assert '\\' !in Itoa(n);
  }

  /** The text before a beginning and the placeholder behind it are settled, too. */
  lemma SettledOn(p: string, s: string, env: string, n: nat)
    requires EnvName(env) && Settled(p, env) && EnvAt(s, env, 0).Found?
    ensures Settled(p + s[..EnvAt(s, env, 0).start] + Placeholder(n), env)
  {
    hide EnvAt, Begin, Placeholder, At;
    var start := EnvAt(s, env, 0).start;
    var ph := Placeholder(n);
    var head := p + s[..start];
    var t := head + ph;
    PlaceholderShape(n);
    NoNewlineInMarks(env);
    FirstOfEnv(s, env);
    MarkLengths(s, env);
    OneBackslash(env, 0);
    assert p + s == head + s[start..];
    assert t[|t| - 1] == ph[|ph| - 1];
    forall i: nat ensures !At(t, Begin(env), i) {
      if i >= |head| {
        NoBackslashThere(head, ph, Begin(env), i);
      } else if i + |Begin(env)| > |head| {
        assert t[|head|] == ph[0];
        NewlineBreaks(t, Begin(env), i, |head|);
      } else {
        PrefixAt(head, ph, Begin(env), i);
        PrefixAt(head, s[start..], Begin(env), i);
        if i < |p| {
          NotAcross(p, s, env, i);
        } else {
          AtShift(p, s, Begin(env), i - |p|);
        }
      }
    }
  }

  lemma NoBackslashThere(head: string, ph: string, pat: string, i: nat)
    requires '\\' !in ph && pat != "" && pat[0] == '\\' && i >= |head|
    ensures !At(head + ph, pat, i)
  {
    AtChar(head + ph, pat, i, 0);
    if i < |head + ph| {
      assert (head + ph)[i] == ph[i - |head|] && ph[i - |head|] in ph;
    }
  }

  lemma FirstOfEnv(s: string, env: string)
    ensures EnvAt(s, env, 0).Found? ==> forall i: nat :: i < EnvAt(s, env, 0).start ==> !At(s, Begin(env), i)
  {
    hide MatchEnd, BodyStart, At, Begin, OptsText;
  }

  /** One loop of preprocess: it searches the whole text again after every replacement, and does what one pass does. */
  method ExtractAll(source: string, kind: Float, before: seq<Block>) returns (r: Extracted)
    ensures r == Prepend("", before, Extract(source, kind, |before|))
  {
    hide *;
    var env := EnvOf(kind);
    var text, blocks := source, before;
    ghost var done, rest := "", source;
    assert "" + source == source;
    NothingSettled(env);
    while true
      invariant text == done + rest && Settled(done, env)
      invariant Prepend("", before, Extract(source, kind, |before|)) ==
                Prepend(done, blocks, Extract(rest, kind, |blocks|))
      decreases |rest|
    {
      var hit := FindEnv(text, env, 0);
      EnvShift(done, rest, env);
      ExtractIs(rest, kind, |blocks|);
      match hit {
        case Miss =>
          PrependDone(done, blocks, rest);
          return Done(text, blocks);
        case Failed =>
          PrependBroken(done, blocks);
          return Broken;
        case Found(start, stop, opts, body) =>
          ghost var h := EnvAt(rest, env, 0);
          HitFits(rest, env);
          CutIs(rest, kind, |blocks|, h);
          var block := MakeBlock(kind, opts, body);
          if block.None? {
            PrependBroken(done, blocks);
            return Broken;
          }
          SettledOn(done, rest, env, |blocks|);
          PrependTwice(done, blocks, rest[..h.start] + Placeholder(|blocks|), block.value,
                       Extract(rest[h.stop..], kind, |blocks| + 1));
          CutText(done, rest, h.start, h.stop, Placeholder(|blocks|));
          text := text[..start] + Placeholder(|blocks|) + text[stop..];
          done := done + rest[..h.start] + Placeholder(|blocks|);
          blocks := blocks + [block.value];
          rest := rest[h.stop..];
      }
    }
  }

  lemma NothingSettled(env: string)
    ensures Settled("", env)
  {}

  lemma PrependDone(done: string, blocks: seq<Block>, rest: string)
    ensures Prepend(done, blocks, Done(rest, [])) == Done(done + rest, blocks)
  {
    assert blocks + [] == blocks;
  }

  lemma PrependBroken(done: string, blocks: seq<Block>)
    ensures Prepend(done, blocks, Broken) == Broken
  {}

  lemma PrependTwice(done: string, blocks: seq<Block>, more: string, b: Block, r: Extracted)
    ensures Prepend(done, blocks, Prepend(more, [b], r)) == Prepend(done + more, blocks + [b], r)
  {
    if r.Done? {
      Assoc(done, more, r.text);
      Assoc(blocks, [b], r.blocks);
    }
  }

  lemma CutText(done: string, rest: string, start: nat, stop: nat, ph: string)
    requires start <= stop <= |rest|
    ensures var t := done + rest;
      t[..|done| + start] + ph + t[|done| + stop..] == (done + rest[..start] + ph) + rest[stop..]
    ensures done + (rest[..start] + ph) == done + rest[..start] + ph
  {
    var t := done + rest;
    assert t[..|done| + start] == done + rest[..start];
    assert t[|done| + stop..] == rest[stop..];
  }

  lemma HitFits(s: string, env: string)
    ensures EnvAt(s, env, 0).Found? ==> EnvAt(s, env, 0).start < EnvAt(s, env, 0).stop <= |s|
  {}

  lemma ExtractIs(text: string, kind: Float, n: nat)
    ensures var h := EnvAt(text, EnvOf(kind), 0);
      && (h.Miss? ==> Extract(text, kind, n) == Done(text, []))
      && (h.Failed? ==> Extract(text, kind, n) == Broken)
      && (h.Found? ==> h.start <= h.stop <= |text|)
      && (h.Found? ==> Extract(text, kind, n) == Cut(text, kind, n, h))
  {
    hide EnvAt, Cut, EnvOf;
  }

  lemma CutIs(text: string, kind: Float, n: nat, h: Hit)
    requires h.Found? && h.start < h.stop <= |text|
    ensures var b := BlockOf(kind, h.opts, h.body);
      && (b.None? ==> Cut(text, kind, n, h) == Broken)
      && (b.Some? ==>
            Cut(text, kind, n, h) ==
            Prepend(text[..h.start] + Placeholder(n), [b.value], Extract(text[h.stop..], kind, n + 1)))
  {
    hide Placeholder, BlockOf, Prepend, Extract;
  }

  // ---------------------------------------------------------------- what is kept

  /** Segments with pieces between them. */
  function Weave(segments: seq<string>, pieces: seq<string>): string
    requires |segments| == |pieces| + 1
  {
    if pieces == [] then segments[0] else segments[0] + pieces[0] + Weave(segments[1..], pieces[1..])
  }

  function Placeholders(n: nat, count: nat): seq<string>
    decreases count
  {
    if count == 0 then [] else [Placeholder(n)] + Placeholders(n + 1, count - 1)
  }

  /** The source of a block, from start to stop: the first environment that the search finds in the text, whose options
      and body make the block. It is a beginning, those options in brackets or none, that body, and an end. */
  ghost predicate SourceOf(text: string, start: nat, stop: nat, kind: Float, b: Block) {
    var h := EnvAt(text, EnvOf(kind), 0);
    && h.Found? && h.start == start && h.stop == stop && start <= stop <= |text|
    && BlockOf(kind, h.opts, h.body) == Some(b) && (b.Listing? ==> b.code == StripNewlines(h.body))
    && exists bracketed: string ::
         && text[start..stop] == Begin(EnvOf(kind)) + bracketed + h.body + End(EnvOf(kind))
         && (bracketed == "" || bracketed == "[" + h.opts + "]")
  }

  /** Each raw piece is the source of its block in what remains of the text from its segment on. */
  ghost predicate Sources(segments: seq<string>, raws: seq<string>, kind: Float, blocks: seq<Block>)
    requires |segments| == |raws| + 1 && |blocks| == |raws|
  {
    raws != [] ==>
      && SourceOf(Weave(segments, raws), |segments[0]|, |segments[0]| + |raws[0]|, kind, blocks[0])
      && Sources(segments[1..], raws[1..], kind, blocks[1..])
  }

  /** A text and what is left of it: the same segments, with the sources of the blocks between them in the one and their
      placeholders in the other. */
  ghost predicate Woven(text: string, kind: Float, out: string, blocks: seq<Block>, n: nat,
                        segments: seq<string>, raws: seq<string>)
  {
    && |segments| == |raws| + 1 && |blocks| == |raws|
    && text == Weave(segments, raws)
    && |Placeholders(n, |raws|)| == |raws| && out == Weave(segments, Placeholders(n, |raws|))
    && Sources(segments, raws, kind, blocks)
    && (forall s :: s in segments ==> forall p: nat :: !At(s, Begin(EnvOf(kind)), p))
  }

  lemma WeaveCons(s: string, p: string, segments: seq<string>, pieces: seq<string>)
    requires |segments| == |pieces| + 1
    ensures Weave([s] + segments, [p] + pieces) == s + p + Weave(segments, pieces)
  {
    assert ([s] + segments)[1..] == segments && ([p] + pieces)[1..] == pieces;
  }

  lemma OnePlaceholder(n: nat, count: nat)
    requires count > 0
    ensures Placeholders(n, count) == [Placeholder(n)] + Placeholders(n + 1, count - 1)
    ensures |Placeholders(n, count)| == count
  {
    PlaceholderCount(n, count);
  }

  lemma {:induction false} PlaceholderCount(n: nat, count: nat)
    ensures |Placeholders(n, count)| == count
    decreases count
  {
    if count > 0 {
      PlaceholderCount(n + 1, count - 1);
    }
  }

  /** What a hit covers is the source of its block. */
  lemma HitIsSource(text: string, kind: Float)
    requires EnvAt(text, EnvOf(kind), 0).Found?
    ensures var h := EnvAt(text, EnvOf(kind), 0); var b := BlockOf(kind, h.opts, h.body);
      h.start <= h.stop <= |text| && (b.Some? ==> SourceOf(text, h.start, h.stop, kind, b.value))
  {
    hide *;
    var env := EnvOf(kind);
    var h := EnvAt(text, env, 0);
    var j, j', e := HitParts(text, env, 0);
    Covered(text, h.start, j, j', e, h.stop);
    if BlockOf(kind, h.opts, h.body).Some? {
      SourceIs(text, kind, text[j..j'], BlockOf(kind, h.opts, h.body).value);
    }
  }

  /** The parts of a hit: its beginning, options in brackets or none, its body, its end. */
  lemma HitParts(text: string, env: string, pos: nat) returns (j: nat, j': nat, e: nat)
    requires EnvAt(text, env, pos).Found?
    ensures var h := EnvAt(text, env, pos);
      && pos <= h.start <= j <= j' <= e <= h.stop <= |text|
      && text[h.start..j] == Begin(env) && text[e..h.stop] == End(env) && text[j'..e] == h.body
      && (text[j..j'] == "" || text[j..j'] == "[" + h.opts + "]")
  {
    hide *;
    EnvFits(text, env, pos);
    EnvAtIs(text, env, pos);
    FoundAt(text, Begin(env), pos);
    var i := Find(text, Begin(env), pos).value;
    j := i + |Begin(env)|;
    j' := BodyStart(text, j).value;
    e := MatchEnd(text, env, j', 1).value;
    EndFits(text, env, j');
    MarkLengths(text, env);
    MatchedEnd(text, env, j');
    BodyBehind(text, j);
    AtText(text, Begin(env), i);
    AtText(text, End(env), e);
    OptsPiece(text, j);
  }

  lemma MatchedEnd(text: string, env: string, k: nat)
    ensures MatchEnd(text, env, k, 1).Some? ==> At(text, End(env), MatchEnd(text, env, k, 1).value)
  {
    hide MatchEnd, At;
  }

  lemma BodyBehind(text: string, j: nat)
    ensures BodyStart(text, j).Some? ==> j <= BodyStart(text, j).value
  {
    hide BodyStart;
  }

  lemma AtText(text: string, pat: string, i: nat)
    ensures At(text, pat, i) ==> i + |pat| <= |text| && text[i..i + |pat|] == pat
  {}

  /** The options stand between brackets, or there are none. */
  lemma OptsPiece(text: string, j: nat)
    requires BodyStart(text, j).Some? && BodyStart(text, j).value <= |text| && j <= BodyStart(text, j).value
    ensures var j' := BodyStart(text, j).value; var opts := OptsText(text, j, j');
            text[j..j'] == "" || text[j..j'] == "[" + opts + "]"
  {
    hide Bracket;
    var j' := BodyStart(text, j).value;
    if j < |text| && text[j] == '[' {
      assert text[j' - 1] == ']';
      assert text[j..j'] == [text[j]] + text[j + 1..j' - 1] + [text[j' - 1]];
    }
  }

  lemma Covered(text: string, i: nat, j: nat, j': nat, e: nat, stop: nat)
    requires i <= j <= j' <= e <= stop <= |text|
    ensures text[i..stop] == text[i..j] + text[j..j'] + text[j'..e] + text[e..stop]
  {
    assert text[i..j] + text[j..j'] == text[i..j'];
    assert text[i..j'] + text[j'..e] == text[i..e];
  }

  lemma SourceIs(text: string, kind: Float, bracketed: string, b: Block)
    requires EnvAt(text, EnvOf(kind), 0).Found?
    requires var h := EnvAt(text, EnvOf(kind), 0);
      && h.start <= h.stop <= |text|
      && text[h.start..h.stop] == Begin(EnvOf(kind)) + bracketed + h.body + End(EnvOf(kind))
      && BlockOf(kind, h.opts, h.body) == Some(b) && (bracketed == "" || bracketed == "[" + h.opts + "]")
    ensures SourceOf(text, EnvAt(text, EnvOf(kind), 0).start, EnvAt(text, EnvOf(kind), 0).stop, kind, b)
  {
    hide EnvAt, EnvOf, Begin, End, BlockOf, StripNewlines;
    ListingCode(kind, EnvAt(text, EnvOf(kind), 0).opts, EnvAt(text, EnvOf(kind), 0).body);
  }

  /** The code of a listing is its body but for newlines at its ends. */
  lemma ListingCode(kind: Float, opts: string, body: string)
    ensures var b := BlockOf(kind, opts, body); b.Some? && b.value.Listing? ==> b.value.code == StripNewlines(body)
    ensures BlockOf(kind, opts, body).Some? ==>
            (BlockOf(kind, opts, body).value.Listing? <==> kind.Code? || kind.Cisco?)
  {
    hide CaptionOf, LabelOf, ImageFrom, TabsFrom, TableOf, OptValue, StripNewlines;
  }

  /** Nothing but the environments is touched, and each leaves the placeholder with its number in its place; putting
      them back for the placeholders gives the source. */
  lemma {:induction false} ExtractWeaves(text: string, kind: Float, n: nat)
        returns (segments: seq<string>, raws: seq<string>)
    requires Extract(text, kind, n).Done?
    ensures var r := Extract(text, kind, n); Woven(text, kind, r.text, r.blocks, n, segments, raws)
    decreases |text|
  {
    hide *;
    ExtractIs(text, kind, n);
    var h := EnvAt(text, EnvOf(kind), 0);
    if h.Miss? {
      segments, raws := [text], [];
      NothingOut(text, kind, n);
    } else {
      HitFits(text, EnvOf(kind));
      CutIs(text, kind, n, h);
      var b := BlockOf(kind, h.opts, h.body).value;
      PrependParts(text[..h.start] + Placeholder(n), [b], Extract(text[h.stop..], kind, n + 1));
      var more, others := ExtractWeaves(text[h.stop..], kind, n + 1);
      segments, raws := [text[..h.start]] + more, [text[h.start..h.stop]] + others;
      HitIsSource(text, kind);
      FirstOfEnv(text, EnvOf(kind));
      QuietPrefix(text, EnvOf(kind), h.start);
      var r := Extract(text[h.stop..], kind, n + 1);
      WovenCons(text, kind, h.start, h.stop, b, n, r.text, r.blocks, more, others);
    }
  }

  lemma PrependParts(done: string, blocks: seq<Block>, r: Extracted)
    ensures Prepend(done, blocks, r).Done? ==>
            r.Done? && Prepend(done, blocks, r) == Done(done + r.text, blocks + r.blocks)
    ensures Prepend(done, blocks, r).Done? <==> r.Done?
  {}

  lemma NothingOut(text: string, kind: Float, n: nat)
    requires EnvAt(text, EnvOf(kind), 0).Miss?
    ensures Woven(text, kind, text, [], n, [text], [])
  {
    hide MatchEnd, BodyStart, At, Begin, OptsText, EnvOf;
  }

  lemma QuietPrefix(text: string, env: string, start: nat)
    requires start <= |text| && forall i: nat :: i < start ==> !At(text, Begin(env), i)
    ensures forall p: nat :: !At(text[..start], Begin(env), p)
  {
    hide At, Begin;
    MarkLengths(text, env);
    assert text[0..start] == text[..start];
    forall p: nat ensures !At(text[..start], Begin(env), p) {
      SliceAt(text, 0, start, Begin(env), p);
      SliceInside(text, 0, start, Begin(env), p);
    }
  }

  lemma SliceAt(s: string, i: nat, j: nat, pat: string, p: nat)
    requires i <= j <= |s|
    ensures At(s[i..j], pat, p) ==> At(s, pat, i + p)
  {
    var t := s[i..j];
    if p + |pat| <= |t| {
      var x, y := t[p..p + |pat|], s[i + p..i + p + |pat|];
      forall q | 0 <= q < |pat| ensures x[q] == y[q] {
        assert t[p + q] == s[i + p + q];
      }
      assert x == y;
    }
  }

  lemma SliceInside(s: string, i: nat, j: nat, pat: string, p: nat)
    requires i <= j <= |s| && pat != ""
    ensures At(s[i..j], pat, p) ==> p < j - i
  {}

  lemma WovenCons(text: string, kind: Float, start: nat, stop: nat, b: Block, n: nat,
                  out: string, blocks: seq<Block>, segments: seq<string>, raws: seq<string>)
    requires start <= stop <= |text| && Woven(text[stop..], kind, out, blocks, n + 1, segments, raws)
    requires SourceOf(text, start, stop, kind, b) && forall p: nat :: !At(text[..start], Begin(EnvOf(kind)), p)
    ensures Woven(text, kind, text[..start] + Placeholder(n) + out, [b] + blocks, n,
                  [text[..start]] + segments, [text[start..stop]] + raws)
  {
    hide Weave, Placeholders, Placeholder, SourceOf, Sources, At, Begin, EnvOf;
    PlaceholderCount(n + 1, |raws|);
    OnePlaceholder(n, |raws| + 1);
    WeaveCons(text[..start], text[start..stop], segments, raws);
    WeaveCons(text[..start], Placeholder(n), segments, Placeholders(n + 1, |raws|));
    assert text == text[..start] + text[start..stop] + text[stop..];
    SourcesCons(text, kind, start, stop, b, blocks, segments, raws);
  }

  lemma SourcesCons(text: string, kind: Float, start: nat, stop: nat, b: Block, blocks: seq<Block>,
                    segments: seq<string>, raws: seq<string>)
    requires start <= stop <= |text| && SourceOf(text, start, stop, kind, b)
    requires |segments| == |raws| + 1 && |blocks| == |raws| && Sources(segments, raws, kind, blocks)
    requires Weave([text[..start]] + segments, [text[start..stop]] + raws) == text
    ensures Sources([text[..start]] + segments, [text[start..stop]] + raws, kind, [b] + blocks)
  {
    hide Weave, SourceOf;
    var ss, rs, bs := [text[..start]] + segments, [text[start..stop]] + raws, [b] + blocks;
    assert ss[1..] == segments && rs[1..] == raws && bs[1..] == blocks;
  }
}
