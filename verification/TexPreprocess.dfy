/** The five extraction loops over a LaTeX source, with its comments removed after the listings are out. */
module TexPreprocess {
  import opened Text
  import opened TexEnvironments
  import opened TexBlocks
  import opened TexStrings
  import opened TexExtraction

  // ---------------------------------------------------------------- comments

  /** Where the comment of a line starts: at its first unescaped percent sign. */
  function CommentAt(line: string, i: nat): (k: nat)
    requires i <= |line|
    ensures i <= k <= |line|
    decreases |line| - i
  {
    if i == |line| || (line[i] == '%' && !Escaped(line, i)) then i else CommentAt(line, i + 1)
  }

  function CleanLine(line: string): string {
    RStrip(line[..CommentAt(line, 0)])
  }

  function CleanLines(lines: seq<string>): seq<string> {
    if lines == [] then [] else [CleanLine(lines[0])] + CleanLines(lines[1..])
  }

  function WithoutComments(text: string): string {
    Join(CleanLines(Split(text, '\n')), "\n")
  }

  /** strip_comments */
  method StripComments(text: string) returns (r: string)
    ensures r == WithoutComments(text)
  {
    var lines := Split(text, '\n');
    var out := [];
    for k := 0 to |lines|
      invariant out + CleanLines(lines[k..]) == CleanLines(lines)
    {
      var line := lines[k];
      var res := "";
      var i := 0;
      while i < |line|
        invariant i <= |line| && res == line[..i] && CommentAt(line, i) == CommentAt(line, 0)
      {
        var c := line[i];
        if c == '%' && (i == 0 || line[i - 1] != '\\') {
          break;
        }
        res := res + [c];
        i := i + 1;
      }
      assert lines[k..][1..] == lines[k + 1..];
      Assoc(out, [CleanLine(line)], CleanLines(lines[k + 1..]));
      out := out + [RStrip(res)];
    }
    assert out + [] == out;
    r := Join(out, "\n");
  }

  // ---------------------------------------------------------------- the whole

  /** One of the loops, on what the ones before it left. */
  function Phase(r: Extracted, kind: Float): Extracted {
    if r.Broken? then Broken else Prepend("", r.blocks, Extract(r.text, kind, |r.blocks|))
  }

  function Uncommented(r: Extracted): Extracted {
    if r.Broken? then Broken else Done(WithoutComments(r.text), r.blocks)
  }

  /** preprocess */
  function Preprocessed(text: string, before: seq<Block>): Extracted {
    Phase(Phase(Phase(Uncommented(Phase(Phase(Done(text, before), Code), Cisco)), Figures), Tables), TabGroups)
  }

  method Preprocess(text: string, before: seq<Block>) returns (r: Extracted)
    ensures r == Preprocessed(text, before)
  {
    hide Extract, Prepend, WithoutComments;
    r := ExtractAll(text, Code, before);
    if r.Broken? {
      return;
    }
    r := ExtractAll(r.text, Cisco, r.blocks);
    if r.Broken? {
      return;
    }
    var stripped := StripComments(r.text);
    r := ExtractAll(stripped, Figures, r.blocks);
    if r.Broken? {
      return;
    }
    r := ExtractAll(r.text, Tables, r.blocks);
    if r.Broken? {
      return;
    }
    r := ExtractAll(r.text, TabGroups, r.blocks);
  }

  // ---------------------------------------------------------------- listings

  predicate NoListings(blocks: seq<Block>) {
    forall b :: b in blocks ==> !b.Listing?
  }

  lemma PhaseIs(r: Extracted, kind: Float)
    requires Phase(r, kind).Done?
    ensures r.Done? && Extract(r.text, kind, |r.blocks|).Done?
    ensures var x := Extract(r.text, kind, |r.blocks|); Phase(r, kind) == Done(x.text, r.blocks + x.blocks)
  {
    hide Extract;
    assert "" + Extract(r.text, kind, |r.blocks|).text == Extract(r.text, kind, |r.blocks|).text;
  }

  /** The blocks that are no listings come from the loops for the other environments. */
  lemma OtherBlocks(text: string, kind: Float, n: nat)
    requires Extract(text, kind, n).Done? && !kind.Code? && !kind.Cisco?
    ensures NoListings(Extract(text, kind, n).blocks)
  {
    hide *;
    var segments, raws := ExtractWeaves(text, kind, n);
    WovenBlocks(text, kind, Extract(text, kind, n).text, Extract(text, kind, n).blocks, n, segments, raws);
  }

  lemma WovenBlocks(text: string, kind: Float, out: string, blocks: seq<Block>, n: nat,
                    segments: seq<string>, raws: seq<string>)
    requires Woven(text, kind, out, blocks, n, segments, raws) && !kind.Code? && !kind.Cisco?
    ensures NoListings(blocks)
  {
    hide Weave, Placeholders, At, Begin, EnvOf, Sources;
    SourcesBlocks(segments, raws, kind, blocks);
  }

  lemma {:induction false} SourcesBlocks(segments: seq<string>, raws: seq<string>, kind: Float, blocks: seq<Block>)
    requires |segments| == |raws| + 1 && |blocks| == |raws| && Sources(segments, raws, kind, blocks)
    requires !kind.Code? && !kind.Cisco?
    ensures NoListings(blocks)
  {
    hide Weave, SourceOf, BlockOf;
    if raws != [] {
      var h := SourceMakes(Weave(segments, raws), |segments[0]|, |segments[0]| + |raws[0]|, kind, blocks[0]);
      ListingCode(kind, h.opts, h.body);
      SourcesBlocks(segments[1..], raws[1..], kind, blocks[1..]);
    }
  }

  lemma SourceMakes(text: string, start: nat, stop: nat, kind: Float, b: Block) returns (h: Hit)
    requires SourceOf(text, start, stop, kind, b)
    ensures h.Found? && BlockOf(kind, h.opts, h.body) == Some(b)
  {
    hide EnvAt, BlockOf, EnvOf, Begin, End, StripNewlines;
    h := EnvAt(text, EnvOf(kind), 0);
  }

  /** What becomes of the listings of a source: the two loops that take them out touch nothing else, every listing block
      holds the body of its environment but for newlines at its ends, and no other loop makes a listing block. */
  lemma ListingsKept(text: string, before: seq<Block>)
      returns (plain: string, bare: string, c: nat, d: nat,
               segments: seq<string>, raws: seq<string>, segments': seq<string>, raws': seq<string>)
    requires Preprocessed(text, before).Done?
    ensures var bs := Preprocessed(text, before).blocks;
      && |before| <= c <= d <= |bs| && bs[..|before|] == before && NoListings(bs[d..])
      && Woven(text, Code, plain, bs[|before|..c], |before|, segments, raws)
      && Woven(plain, Cisco, bare, bs[c..d], c, segments', raws')
  {
    hide *;
    var r1, r2, r3, r4, r5 := Steps(text, before);
    PhaseIs(Done(text, before), Code);
    PhaseIs(r1, Cisco);
    PhaseIs(r3, Figures);
    PhaseIs(r4, Tables);
    PhaseIs(r5, TabGroups);
    plain, bare, c, d := r1.text, r2.text, |r1.blocks|, |r2.blocks|;
    segments, raws := ExtractWeaves(text, Code, |before|);
    segments', raws' := ExtractWeaves(plain, Cisco, c);
    OtherBlocks(r3.text, Figures, |r3.blocks|);
    OtherBlocks(r4.text, Tables, |r4.blocks|);
    OtherBlocks(r5.text, TabGroups, |r5.blocks|);
    var x1, x2 := Extract(text, Code, |before|).blocks, Extract(plain, Cisco, c).blocks;
    var x3, x4, x5 := Extract(r3.text, Figures, |r3.blocks|).blocks, Extract(r4.text, Tables, |r4.blocks|).blocks,
      Extract(r5.text, TabGroups, |r5.blocks|).blocks;
    NoListingsAppend(x3, x4, x5);
    BlockParts(before, x1, x2, x3, x4, x5);
  }

  /** The results of the loops one after the other. */
  lemma Steps(text: string, before: seq<Block>)
        returns (r1: Extracted, r2: Extracted, r3: Extracted, r4: Extracted, r5: Extracted)
    requires Preprocessed(text, before).Done?
    ensures r1 == Phase(Done(text, before), Code) && r2 == Phase(r1, Cisco) && r1.Done? && r2.Done?
    ensures r3 == Done(WithoutComments(r2.text), r2.blocks) && r4 == Phase(r3, Figures) && r5 == Phase(r4, Tables)
    ensures r4.Done? && r5.Done? && Preprocessed(text, before) == Phase(r5, TabGroups)
  {
    hide Extract, Prepend, WithoutComments;
    r1 := Phase(Done(text, before), Code);
    r2 := Phase(r1, Cisco);
    r3 := Uncommented(r2);
    r4 := Phase(r3, Figures);
    r5 := Phase(r4, Tables);
  }

  lemma NoListingsAppend(a: seq<Block>, b: seq<Block>, c: seq<Block>)
    requires NoListings(a) && NoListings(b) && NoListings(c)
    ensures NoListings(a + b + c)
  {}

  lemma BlockParts(a: seq<Block>, b: seq<Block>, c: seq<Block>, x: seq<Block>, y: seq<Block>, z: seq<Block>)
    ensures var s := a + b + c + x + y + z;
      s[..|a|] == a && s[|a|..|a + b|] == b && s[|a + b|..|a + b + c|] == c && s[|a + b + c|..] == x + y + z
  {
    assert a + b + c + x + y + z == a + b + c + (x + y + z);
  }

  // ---------------------------------------------------------------- the loops in their order

  /** One loop: what it leaves of a text, and the blocks it makes of the rest. */
  ghost predicate Takes(text: string, kind: Float, left: string, blocks: seq<Block>, n: nat) {
    exists segments: seq<string>, raws: seq<string> :: Woven(text, kind, left, blocks, n, segments, raws)
  }

  lemma PhaseTakes(r: Extracted, kind: Float)
    requires Phase(r, kind).Done?
    ensures r.Done? && r.blocks <= Phase(r, kind).blocks
    ensures Takes(r.text, kind, Phase(r, kind).text, Phase(r, kind).blocks[|r.blocks|..], |r.blocks|)
  {
    hide *;
    PhaseIs(r, kind);
    var x := Extract(r.text, kind, |r.blocks|);
    var segments, raws := ExtractWeaves(r.text, kind, |r.blocks|);
    assert (r.blocks + x.blocks)[|r.blocks|..] == x.blocks;
    TakesIs(r.text, kind, x.text, x.blocks, |r.blocks|, segments, raws);
  }

  lemma TakesIs(text: string, kind: Float, left: string, blocks: seq<Block>, n: nat,
                segments: seq<string>, raws: seq<string>)
    requires Woven(text, kind, left, blocks, n, segments, raws)
    ensures Takes(text, kind, left, blocks, n)
  {
    hide Woven;
  }

  /** The blocks behind those from before are the listings, the device commands, the figures, the tables and the tab
      groups of the source, in this order; comments are gone from where the figures are looked for, and from no listing;
      and the text that remains is what the last loop leaves. */
  lemma LoopsInOrder(text: string, before: seq<Block>)
        returns (t1: string, t2: string, t3: string, t4: string, c1: nat, c2: nat, c3: nat, c4: nat)
    requires Preprocessed(text, before).Done?
    ensures var r := Preprocessed(text, before);
      && |before| <= c1 <= c2 <= c3 <= c4 <= |r.blocks| && r.blocks[..|before|] == before
      && Takes(text, Code, t1, r.blocks[|before|..c1], |before|)
      && Takes(t1, Cisco, t2, r.blocks[c1..c2], c1)
      && Takes(WithoutComments(t2), Figures, t3, r.blocks[c2..c3], c2)
      && Takes(t3, Tables, t4, r.blocks[c3..c4], c3)
      && Takes(t4, TabGroups, r.text, r.blocks[c4..], c4)
  {
    hide *;
    var r1, r2, r3, r4, r5 := Steps(text, before);
    PhaseTakes(Done(text, before), Code);
    PhaseTakes(r1, Cisco);
    PhaseTakes(r3, Figures);
    PhaseTakes(r4, Tables);
    PhaseTakes(r5, TabGroups);
    t1, t2, t3, t4 := r1.text, r2.text, r4.text, r5.text;
    c1, c2, c3, c4 := |r1.blocks|, |r2.blocks|, |r4.blocks|, |r5.blocks|;
    var bs := Preprocessed(text, before).blocks;
    PrefixPart(before, r1.blocks, bs);
    PrefixPart(r1.blocks, r2.blocks, bs);
    PrefixPart(r2.blocks, r4.blocks, bs);
    PrefixPart(r4.blocks, r5.blocks, bs);
  }

  lemma PrefixPart(a: seq<Block>, b: seq<Block>, c: seq<Block>)
    requires a <= b
    ensures b <= c ==> a <= c && c[..|a|] == a && c[|a|..|b|] == b[|a|..]
  {}
}
