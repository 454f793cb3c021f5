/** Reading a unified diff back and applying it as a patch. */
module Patch {
  import opened Text
  import opened Decimal
  import opened EditScript
  import opened UnifiedDiff
  import opened DiffHunks

  // ---------------------------------------------------------------- reading

  datatype Header = Header(aStart: nat, aCount: nat, bStart: nat, bCount: nat)

  /** The lines of a patch carry no numbers of their own. */
  datatype Hunk = Hunk(header: Header, body: seq<Op>)

  /** A separator and a number behind it, and what follows. */
  function ReadField(s: string, sep: string): Option<(nat, string)> {
    if !HasPrefix(s, sep) || |s| == |sep| || !IsDigit(s[|sep|]) then None else Some(ReadDigits(s[|sep|..], 0))
  }

  function ReadHeader(s: string): Option<Header> {
    var f0 := ReadField(s, "@@ -");
    if f0.None? then None
    else
      var f1 := ReadField(f0.value.1, ",");
      if f1.None? then None
      else
        var f2 := ReadField(f1.value.1, " +");
        if f2.None? then None
        else
          var f3 := ReadField(f2.value.1, ",");
          if f3.None? || f3.value.1 != " @@" then None
          else Some(Header(f0.value.0, f1.value.0, f2.value.0, f3.value.0))
  }

  function ReadKind(c: char): Option<Kind> {
    match c
    case ' ' => Some(Equal)
    case '-' => Some(Removed)
    case '+' => Some(Added)
    case _ => None
  }

  /** Lines until aCount old and bCount new ones have been read. */
  function ReadBody(lines: seq<string>, aCount: nat, bCount: nat): (r: Option<seq<Op>>)
    ensures r.Some? ==> |r.value| <= |lines|
  {
    if aCount == 0 && bCount == 0 then Some([])
    else if lines == [] || lines[0] == "" || ReadKind(lines[0][0]).None? then None
    else
      var kind := ReadKind(lines[0][0]).value;
      if (kind != Added && aCount == 0) || (kind != Removed && bCount == 0) then None
      else
        var more := ReadBody(lines[1..], if kind == Added then aCount else aCount - 1,
                             if kind == Removed then bCount else bCount - 1);
        if more.None? then None else Some([Op(kind, lines[0][1..], 0, 0)] + more.value)
  }

  function ReadHunks(lines: seq<string>): Option<seq<Hunk>> {
    if lines == [] then Some([])
    else
      var header := ReadHeader(lines[0]);
      if header.None? then None
      else
        var body := ReadBody(lines[1..], header.value.aCount, header.value.bCount);
        if body.None? then None
        else
          var more := ReadHunks(lines[1..][|body.value|..]);
          if more.None? then None else Some([Hunk(header.value, body.value)] + more.value)
  }

  // ---------------------------------------------------------------- applying

  /** The lines before the place a header names: a range that is empty names the line before it. */
  function Place(start: nat, count: nat): int {
    if count == 0 then start else start - 1
  }

  /** Strict application: done lines of the old text are used up and made lines of the new one written; every hunk
      must name its exact place on both sides and its old lines must be there. */
  function Apply(hunks: seq<Hunk>, a: seq<string>, done: nat, made: nat): Option<seq<string>>
    requires done <= |a|
  {
    if hunks == [] then Some(a[done..])
    else
      var h := hunks[0];
      var at := Place(h.header.aStart, h.header.aCount);
      var was := Old(h.body);
      if !(done <= at && at + |was| <= |a| && a[at..at + |was|] == was) then None
      else if Place(h.header.bStart, h.header.bCount) != made + (at - done) then None
      else
        var more := Apply(hunks[1..], a, at + |was|, made + (at - done) + |New(h.body)|);
        if more.None? then None else Some(a[done..at] + New(h.body) + more.value)
  }

  function ApplyPatch(patch: string, a: seq<string>): Option<seq<string>> {
    var hunks := ReadHunks(SplitLines(patch));
    if hunks.None? then None else Apply(hunks.value, a, 0, 0)
  }

  // ---------------------------------------------------------------- reading what was printed

  lemma FieldPrinted(sep: string, n: nat, rest: string)
    requires rest == "" || !IsDigit(rest[0])
    ensures ReadField(sep + (Itoa(n) + rest), sep) == Some((n, rest))
  {
    var s := sep + (Itoa(n) + rest);
    assert s[..|sep|] == sep && s[|sep|..] == Itoa(n) + rest;
    assert Itoa(n)[0] in Itoa(n);
    ReadPrinted(n, rest);
  }

  lemma HeaderPrinted(aStart: nat, aCount: nat, bStart: nat, bCount: nat)
    ensures ReadHeader(HeaderLine(aStart, aCount, bStart, bCount)) == Some(Header(aStart, aCount, bStart, bCount))
  {
    hide ReadField, Itoa;
    var r3 := " @@";
    var r2 := "," + (Itoa(bCount) + r3);
    var r1 := " +" + (Itoa(bStart) + r2);
    var r0 := "," + (Itoa(aCount) + r1);
    FieldPrinted(",", bCount, r3);
    FieldPrinted(" +", bStart, r2);
    FieldPrinted(",", aCount, r1);
    FieldPrinted("@@ -", aStart, r0);
  }

  function Plain(ops: seq<Op>): seq<Op> {
    if ops == [] then [] else [Op(ops[0].kind, ops[0].text, 0, 0)] + Plain(ops[1..])
  }

  lemma {:induction false} PlainSides(ops: seq<Op>)
    ensures Old(Plain(ops)) == Old(ops) && New(Plain(ops)) == New(ops) && |Plain(ops)| == |ops|
  {
    if ops != [] {
      PlainSides(ops[1..]);
      assert Plain(ops)[1..] == Plain(ops[1..]);
    }
  }

  lemma ReadBodyNone(lines: seq<string>)
    ensures ReadBody(lines, |Old([])|, |New([])|) == Some([]) && BodyLines([]) == [] && Plain([]) == []
  {}

  lemma ReadBodyStep(op: Op, ops: seq<Op>, more: seq<string>)
    requires ReadBody(more, |Old(ops)|, |New(ops)|).Some?
    ensures ReadBody([[Mark(op.kind)] + op.text] + more, |Old([op] + ops)|, |New([op] + ops)|) ==
            Some([Op(op.kind, op.text, 0, 0)] + ReadBody(more, |Old(ops)|, |New(ops)|).value)
  {
    hide Old, New;
    var line := [Mark(op.kind)] + op.text;
    assert line[0] == Mark(op.kind) && line[1..] == op.text;
    assert ([line] + more)[1..] == more;
    OldCons(op, ops);
  }

  lemma {:induction false} BodyPrinted(ops: seq<Op>, more: seq<string>)
    ensures ReadBody(BodyLines(ops) + more, |Old(ops)|, |New(ops)|) == Some(Plain(ops))
    ensures |BodyLines(ops)| == |ops|
  {
    hide ReadBody, Old, New, Mark;
    if ops == [] {
      ReadBodyNone([] + more);
    } else {
      BodyPrinted(ops[1..], more);
      ReadBodyStep(ops[0], ops[1..], BodyLines(ops[1..]) + more);
      assert [ops[0]] + ops[1..] == ops;
      Assoc([[Mark(ops[0].kind)] + ops[0].text], BodyLines(ops[1..]), more);
    }
  }

  /** The hunks found from i on, as a reader sees them. */
  function HunksFrom(ops: seq<Op>, i: nat): seq<Hunk>
    requires i <= |ops|
    decreases |ops| - i
  {
    var k := NextChange(ops, i);
    if k == |ops| then []
    else
      var s := SpanAt(ops, k);
      [HunkOf(ops[s.start..s.trail])] + HunksFrom(ops, HunkEnd(ops, k, 0).0)
  }

  function HunkOf(h: seq<Op>): Hunk {
    Hunk(Header(FirstOld(h), |Old(h)|, FirstNew(h), |New(h)|), Plain(h))
  }

  lemma HunkPrinted(h: seq<Op>, more: seq<string>)
    requires ReadHunks(more).Some?
    ensures ReadHunks(HunkLines(h) + more) == Some([HunkOf(h)] + ReadHunks(more).value)
  {
    hide ReadHeader, ReadBody, HeaderLine, BodyLines, Old, New, FirstOld, FirstNew, Plain;
    HeaderPrinted(FirstOld(h), |Old(h)|, FirstNew(h), |New(h)|);
    BodyPrinted(h, more);
    PlainSides(h);
    var lines := HunkLines(h) + more;
    assert lines[1..] == BodyLines(h) + more;
    assert lines[1..][|h|..] == more;
  }

  lemma {:induction false} HunksPrinted(ops: seq<Op>, i: nat)
    requires i <= |ops|
    ensures ReadHunks(DiffLines(ops, i)) == Some(HunksFrom(ops, i))
    decreases |ops| - i
  {
    hide HunkLines, ReadHunks, SpanAt, HunkEnd, HunkOf;
    var k := NextChange(ops, i);
    if k < |ops| {
      var s := SpanAt(ops, k);
      var end := HunkEnd(ops, k, 0).0;
      HunksPrinted(ops, end);
      HunkPrinted(ops[s.start..s.trail], DiffLines(ops, end));
    } else {
      NoHunks();
    }
  }

  lemma NoHunks()
    ensures ReadHunks([]) == Some([])
  {}

  // The printed lines are lines, and none is empty.

  predicate Printable(lines: seq<string>) {
    OneLineEach(lines) && forall l :: l in lines ==> l != ""
  }

  predicate OneLineTexts(ops: seq<Op>) {
    forall op :: op in ops ==> '\n' !in op.text
  }

  lemma HeaderPrintable(aStart: nat, aCount: nat, bStart: nat, bCount: nat)
    ensures '\n' !in HeaderLine(aStart, aCount, bStart, bCount) && HeaderLine(aStart, aCount, bStart, bCount) != ""
  {
    assert forall n: nat :: '\n' !in Itoa(n);
  }

  lemma {:induction false} BodyPrintable(ops: seq<Op>)
    requires OneLineTexts(ops)
    ensures Printable(BodyLines(ops))
  {
    if ops != [] {
      assert ops[0] in ops;
      BodyPrintable(ops[1..]);
    }
  }

  lemma HunkPrintable(h: seq<Op>)
    requires OneLineTexts(h)
    ensures Printable(HunkLines(h))
  {
    hide HeaderLine, BodyLines;
    HeaderPrintable(FirstOld(h), |Old(h)|, FirstNew(h), |New(h)|);
    BodyPrintable(h);
  }

  lemma {:induction false} DiffPrintable(ops: seq<Op>, i: nat)
    requires i <= |ops| && OneLineTexts(ops)
    ensures Printable(DiffLines(ops, i))
    decreases |ops| - i
  {
    hide HunkLines, SpanAt, HunkEnd;
    var k := NextChange(ops, i);
    if k < |ops| {
      var s := SpanAt(ops, k);
      HunkPrintable(ops[s.start..s.trail]);
      DiffPrintable(ops, HunkEnd(ops, k, 0).0);
    }
  }

  lemma {:induction false} TextsOfSides(ops: seq<Op>)
    requires OneLineEach(Old(ops)) && OneLineEach(New(ops))
    ensures OneLineTexts(ops)
  {
    if ops != [] {
      assert ops[0].text in Old(ops) || ops[0].text in New(ops);
      assert forall l :: l in Old(ops[1..]) ==> l in Old(ops);
      assert forall l :: l in New(ops[1..]) ==> l in New(ops);
      TextsOfSides(ops[1..]);
    }
  }

  // ---------------------------------------------------------------- hunks and places

  lemma {:induction false} SidesAppend(x: seq<Op>, y: seq<Op>)
    ensures Old(x + y) == Old(x) + Old(y) && New(x + y) == New(x) + New(y)
  {
    hide Old, New;
    if x == [] {
      assert x + y == y;
      OldNone();
      assert [] + Old(y) == Old(y) && [] + New(y) == New(y);
    } else {
      var op := x[0];
      SidesAppend(x[1..], y);
      assert x == [op] + x[1..] && x + y == [op] + (x[1..] + y);
      OldCons(op, x[1..]);
      OldCons(op, x[1..] + y);
      Assoc(if op.kind == Added then [] else [op.text], Old(x[1..]), Old(y));
      Assoc(if op.kind == Removed then [] else [op.text], New(x[1..]), New(y));
    }
  }

  lemma SidesBetween(ops: seq<Op>, i: nat, j: nat)
    requires i <= j <= |ops|
    ensures var (oi, oj, ni, nj) := (|Old(ops[..i])|, |Old(ops[..j])|, |New(ops[..i])|, |New(ops[..j])|);
      && oi <= oj <= |Old(ops)| && ni <= nj <= |New(ops)|
      && oj == oi + |Old(ops[i..j])| && nj == ni + |New(ops[i..j])|
      && Old(ops)[oi..oj] == Old(ops[i..j]) && New(ops)[ni..nj] == New(ops[i..j])
  {
    hide Old, New;
    SidesAppend(ops[..i], ops[i..j]);
    SidesAppend(ops[..j], ops[j..]);
    assert ops[..i] + ops[i..j] == ops[..j];
    assert ops[..j] + ops[j..] == ops;
  }

  lemma {:induction false} UnchangedSides(ops: seq<Op>, i: nat, j: nat)
    requires i <= j <= |ops| && Unchanged(ops, i, j)
    ensures Old(ops[i..j]) == New(ops[i..j]) && |Old(ops[i..j])| == j - i
    decreases j - i
  {
    if i < j {
      UnchangedSides(ops, i + 1, j);
      assert ops[i..j] == [ops[i]] + ops[i + 1..j];
      OldCons(ops[i], ops[i + 1..j]);
    }
  }

  lemma {:induction false} NumberedFirst(ops: seq<Op>, i: nat, j: nat)
    requires Numbered(ops, i, j)
    ensures FirstOld(ops) == if Old(ops) == [] then 0 else i + 1
    ensures FirstNew(ops) == if New(ops) == [] then 0 else j + 1
  {
    if ops != [] {
      NumberedFirst(ops[1..], if ops[0].kind == Added then i else i + 1, if ops[0].kind == Removed then j else j + 1);
    }
  }

  lemma {:induction false} NumberedParts(x: seq<Op>, y: seq<Op>, i: nat, j: nat)
    requires Numbered(x + y, i, j)
    ensures Numbered(x, i, j) && Numbered(y, i + |Old(x)|, j + |New(x)|)
  {
    if x == [] {
      assert x + y == y;
    } else {
      assert (x + y)[1..] == x[1..] + y;
      NumberedParts(x[1..], y, if x[0].kind == Added then i else i + 1, if x[0].kind == Removed then j else j + 1);
    }
  }

  /** A range is empty only in a hunk at the very start that shows the whole script, of a text without lines. */
  lemma EmptyRange(ops: seq<Op>, p: nat, i: nat)
    requires Between(ops, p, i) && NextChange(ops, i) < |ops|
    ensures var s := SpanAt(ops, NextChange(ops, i)); var h := ops[s.start..s.trail];
      Old(h) == [] || New(h) == [] ==> s == Span(0, |ops|)
  {
    hide Old, New, HunkEnd, SpanAt, NextChange;
    var k := NextChange(ops, i);
    NextStart(ops, p, i);
    var last := SpanShape(ops, k);
    var s := SpanAt(ops, k);
    UnchangedSides(ops, s.start, k);
    UnchangedSides(ops, last + 1, s.trail);
    SidesWithin(ops, s.start, s.start, k, s.trail);
    SidesWithin(ops, s.start, last + 1, s.trail, s.trail);
  }

  lemma SliceOfSlice<T>(s: seq<T>, lo: nat, i: nat, j: nat, hi: nat)
    requires lo <= i <= j <= hi <= |s|
    ensures s[lo..hi][i - lo..j - lo] == s[i..j]
  {
    var t := s[lo..hi];
    forall k | 0 <= k < j - i ensures t[i - lo..j - lo][k] == s[i..j][k] {
      assert t[i - lo + k] == s[i + k];
    }
  }

  lemma SidesWithin(ops: seq<Op>, lo: nat, i: nat, j: nat, hi: nat)
    requires lo <= i <= j <= hi <= |ops|
    ensures |Old(ops[lo..hi])| >= |Old(ops[i..j])| && |New(ops[lo..hi])| >= |New(ops[i..j])|
  {
    hide Old, New;
    var h := ops[lo..hi];
    SidesBetween(h, i - lo, j - lo);
    SliceOfSlice(ops, lo, i, j, hi);
  }

  /** The header of a hunk names the exact place on both sides. */
  lemma HunkPlace(ops: seq<Op>, p: nat, i: nat)
    requires Numbered(ops, 0, 0) && Between(ops, p, i) && NextChange(ops, i) < |ops|
    ensures var s := SpanAt(ops, NextChange(ops, i)); var h := ops[s.start..s.trail];
      && Place(FirstOld(h), |Old(h)|) == |Old(ops[..s.start])|
      && Place(FirstNew(h), |New(h)|) == |New(ops[..s.start])|
  {
    hide *;
    BetweenMeans(ops, p, i);
    var s := SpanAt(ops, NextChange(ops, i));
    EmptyRange(ops, p, i);
    HunkNumbers(ops, s.start, s.trail);
    assert ops[0..] == ops && ops[..|ops|] == ops && ops[..0] == [];
    OldNone();
  }

  lemma HunkNumbers(ops: seq<Op>, start: nat, trail: nat)
    requires Numbered(ops, 0, 0) && start <= trail <= |ops|
    ensures var h := ops[start..trail];
      && FirstOld(h) == (if Old(h) == [] then 0 else |Old(ops[..start])| + 1)
      && FirstNew(h) == (if New(h) == [] then 0 else |New(ops[..start])| + 1)
      && (Old(h) != [] ==> Place(FirstOld(h), |Old(h)|) == |Old(ops[..start])|)
      && (New(h) != [] ==> Place(FirstNew(h), |New(h)|) == |New(ops[..start])|)
      && (Old(h) == [] ==> Place(FirstOld(h), |Old(h)|) == 0)
      && (New(h) == [] ==> Place(FirstNew(h), |New(h)|) == 0)
  {
    hide Old, New, Numbered, FirstOld, FirstNew;
    var h := ops[start..trail];
    assert ops == ops[..start] + ops[start..];
    NumberedParts(ops[..start], ops[start..], 0, 0);
    assert ops[start..] == h + ops[trail..];
    NumberedParts(h, ops[trail..], |Old(ops[..start])|, |New(ops[..start])|);
    NumberedFirst(h, |Old(ops[..start])|, |New(ops[..start])|);
  }

  // ---------------------------------------------------------------- the theorem

  /** With the script printed up to p, the remaining hunks produce the remaining new lines. */
  lemma {:induction false} AppliesFrom(ops: seq<Op>, p: nat, i: nat)
    requires Numbered(ops, 0, 0) && Between(ops, p, i) && |Old(ops[..p])| <= |Old(ops)|
    ensures Apply(HunksFrom(ops, i), Old(ops), |Old(ops[..p])|, |New(ops[..p])|) == Some(New(ops[p..]))
    decreases |ops| - i
  {
    hide *;
    BetweenMeans(ops, p, i);
    var k := NextChange(ops, i);
    NextStart(ops, p, i);
    if k == |ops| {
      UnchangedSides(ops, p, k);
      SidesBetween(ops, p, k);
      assert ops[p..k] == ops[p..] && ops[..k] == ops;
      NoMoreHunks(ops, i);
      AppliesNone(Old(ops), |Old(ops[..p])|, |New(ops[..p])|);
      assert Old(ops)[|Old(ops[..p])|..] == New(ops[p..]);
    } else {
      var s := SpanAt(ops, k);
      var end := HunkEnd(ops, k, 0).0;
      SpanStart(ops, k);
      BeforeChange(ops, p, k, s.start);
      var last := SpanShape(ops, k);
      SidesBetween(ops, s.start, s.trail);
      AppliesFrom(ops, s.trail, end);
      HunkPlace(ops, p, i);
      HunkParts(ops, i);
      PlainSides(ops[s.start..s.trail]);
      UnchangedSides(ops, p, s.start);
      SidesBetween(ops, p, s.start);
      SidesThree(ops, p, s.start, s.trail);
      AppliesHunk(HunksFrom(ops, i), Old(ops), |Old(ops[..p])|, |New(ops[..p])|);
      assert Old(ops)[|Old(ops[..p])|..|Old(ops[..s.start])|] == New(ops[p..s.start]);
    }
  }

  lemma BetweenMeans(ops: seq<Op>, p: nat, i: nat)
    requires Between(ops, p, i)
    ensures p <= i <= |ops|
  {}

  lemma BeforeChange(ops: seq<Op>, p: nat, k: nat, start: nat)
    requires p <= start <= k <= |ops| && Unchanged(ops, p, k)
    ensures Unchanged(ops, p, start) && Unchanged(ops, start, k)
  {}

  lemma NoMoreHunks(ops: seq<Op>, i: nat)
    requires i <= |ops| && NextChange(ops, i) == |ops|
    ensures HunksFrom(ops, i) == []
  {}

  lemma AppliesNone(a: seq<string>, done: nat, made: nat)
    requires done <= |a|
    ensures Apply([], a, done, made) == Some(a[done..])
  {}

  lemma HunkParts(ops: seq<Op>, i: nat)
    requires i <= |ops| && NextChange(ops, i) < |ops|
    ensures var k := NextChange(ops, i); var s := SpanAt(ops, k); var h := ops[s.start..s.trail];
      && HunksFrom(ops, i) != [] && HunksFrom(ops, i)[1..] == HunksFrom(ops, HunkEnd(ops, k, 0).0)
      && HunksFrom(ops, i)[0] == Hunk(Header(FirstOld(h), |Old(h)|, FirstNew(h), |New(h)|), Plain(h))
  {}

  lemma SidesThree(ops: seq<Op>, p: nat, start: nat, trail: nat)
    requires p <= start <= trail <= |ops|
    ensures New(ops[p..]) == New(ops[p..start]) + New(ops[start..trail]) + New(ops[trail..])
  {
    hide Old, New;
    SidesAppend(ops[p..start], ops[start..]);
    SidesAppend(ops[start..trail], ops[trail..]);
    assert ops[p..start] + ops[start..] == ops[p..];
    assert ops[start..trail] + ops[trail..] == ops[start..];
    Assoc(New(ops[p..start]), New(ops[start..trail]), New(ops[trail..]));
  }

  lemma AppliesHunk(hunks: seq<Hunk>, a: seq<string>, done: nat, made: nat)
    requires done <= |a| && hunks != []
    requires var h := hunks[0]; var at := Place(h.header.aStart, h.header.aCount); var was := Old(h.body);
      && done <= at && at + |was| <= |a| && a[at..at + |was|] == was
      && Place(h.header.bStart, h.header.bCount) == made + (at - done)
      && Apply(hunks[1..], a, at + |was|, made + (at - done) + |New(h.body)|).Some?
    ensures var h := hunks[0]; var at := Place(h.header.aStart, h.header.aCount); var was := Old(h.body);
      Apply(hunks, a, done, made) ==
      Some(a[done..at] + New(h.body) + Apply(hunks[1..], a, at + |was|, made + (at - done) + |New(h.body)|).value)
  {}

  /** A diff is a patch: read back and applied to the lines of the old text it gives the lines of the new one. */
  lemma DiffIsAPatch(aText: string, bText: string)
    ensures ApplyPatch(DiffText(aText, bText), SplitLines(aText)) == Some(SplitLines(bText))
  {
    hide *;
    var a, b := SplitLines(aText), SplitLines(bText);
    var ops := Ops(a, b, 0, 0);
    OpsAreAScript(a, b, 0, 0);
    assert a[0..] == a && b[0..] == b;
    LinesOf(aText);
    LinesOf(bText);
    TextsOfSides(ops);
    DiffPrintable(ops, 0);
    PrintableLines(DiffLines(ops, 0));
    HunksPrinted(ops, 0);
    StartBetween(ops);
    OldNone();
    assert ops[..0] == [] && ops[0..] == ops;
    AppliesFrom(ops, 0, 0);
    PatchParts(aText, bText);
  }

  lemma PrintableLines(lines: seq<string>)
    requires Printable(lines)
    ensures SplitLines(Unlines(lines)) == lines
  {
    SplitLinesOfUnlines(lines);
  }

  lemma PatchParts(aText: string, bText: string)
    ensures DiffText(aText, bText) == Unlines(DiffLines(Ops(SplitLines(aText), SplitLines(bText), 0, 0), 0))
    ensures forall patch, a :: ReadHunks(SplitLines(patch)).Some? ==>
              ApplyPatch(patch, a) == Apply(ReadHunks(SplitLines(patch)).value, a, 0, 0)
  {}

  // ---------------------------------------------------------------- when there is no difference

  function KeepAll(a: seq<string>): seq<Op> {
    if a == [] then [] else [Op(Equal, a[0], 0, 0)] + KeepAll(a[1..])
  }

  lemma {:induction false} KeepAllKeeps(a: seq<string>)
    ensures Old(KeepAll(a)) == a && New(KeepAll(a)) == a && Changes(KeepAll(a)) == 0
  {
    if a != [] {
      KeepAllKeeps(a[1..]);
      assert KeepAll(a)[1..] == KeepAll(a[1..]);
    }
  }

  lemma {:induction false} NoChanges(ops: seq<Op>)
    requires Changes(ops) == 0
    ensures Unchanged(ops, 0, |ops|)
  {
    if ops != [] {
      NoChanges(ops[1..]);
      assert forall k :: 0 < k < |ops| ==> ops[k] == ops[1..][k - 1];
    }
  }

  /** The diff is empty exactly when the texts differ in at most one final newline. */
  lemma EmptyDiff(aText: string, bText: string)
    ensures DiffText(aText, bText) == "" <==> TrimSuffix(aText, "\n") == TrimSuffix(bText, "\n")
  {
    hide *;
    SameLines(aText, bText);
    var a := SplitLines(aText);
    if SplitLines(bText) == a {
      KeepAllKeeps(a);
      ShortestScript(a, a, KeepAll(a));
      NoChanges(Ops(a, a, 0, 0));
      NothingPrinted(aText, bText);
    }
    if DiffText(aText, bText) == "" {
      DiffIsAPatch(aText, bText);
      EmptyPatch(a);
    }
  }

  /** A file of one empty line, written for an empty one. */
  lemma BlankLineUnseen()
    ensures DiffText("", "\n") == "" && DiffText("\n", "") == ""
  {
    hide DiffText;
    EmptyDiff("", "\n");
    EmptyDiff("\n", "");
  }

  lemma NothingPrinted(aText: string, bText: string)
    requires var ops := Ops(SplitLines(aText), SplitLines(bText), 0, 0); Unchanged(ops, 0, |ops|)
    ensures DiffText(aText, bText) == ""
  {
    hide Ops, SplitLines;
  }

  lemma EmptyPatch(a: seq<string>)
    ensures ApplyPatch("", a) == Some(a)
  {}

  // ---------------------------------------------------------------- headers

  ghost predicate HeaderExact(ops: seq<Op>, s: Span)
    requires s.start <= s.trail <= |ops|
  {
    var h := ops[s.start..s.trail];
    && FirstOld(h) == (if Old(ops) == [] then 0 else |Old(ops[..s.start])| + 1)
    && FirstNew(h) == (if New(ops) == [] then 0 else |New(ops[..s.start])| + 1)
  }

  /** On each side a hunk starts at the line after those before it; 0 stands for a side without any lines. */
  lemma {:induction false} HeadersExactFrom(ops: seq<Op>, p: nat, i: nat)
    requires Numbered(ops, 0, 0) && Between(ops, p, i)
    ensures forall s :: s in Spans(ops, i) ==> s.start <= s.trail <= |ops| && HeaderExact(ops, s)
    decreases |ops| - i
  {
    hide *;
    BetweenMeans(ops, p, i);
    var k := NextChange(ops, i);
    SpansParts(ops, i);
    if k < |ops| {
      NextStart(ops, p, i);
      var s := SpanAt(ops, k);
      SpanStart(ops, k);
      BeforeChange(ops, p, k, s.start);
      var last := SpanShape(ops, k);
      HeadersExactFrom(ops, s.trail, HunkEnd(ops, k, 0).0);
      EmptyRange(ops, p, i);
      HunkNumbers(ops, s.start, s.trail);
      SidesBetween(ops, s.start, s.trail);
      assert ops[0..|ops|] == ops;
      HeaderIsExact(ops, s);
    }
  }

  lemma HeaderIsExact(ops: seq<Op>, s: Span)
    requires s.start <= s.trail <= |ops|
    requires var h := ops[s.start..s.trail];
      && FirstOld(h) == (if Old(ops) == [] then 0 else |Old(ops[..s.start])| + 1)
      && FirstNew(h) == (if New(ops) == [] then 0 else |New(ops[..s.start])| + 1)
    ensures HeaderExact(ops, s)
  {}

  lemma SpansParts(ops: seq<Op>, i: nat)
    requires i <= |ops|
    ensures var k := NextChange(ops, i);
      Spans(ops, i) == if k == |ops| then [] else [SpanAt(ops, k)] + Spans(ops, HunkEnd(ops, k, 0).0)
  {}

  lemma HeadersAreExact(a: seq<string>, b: seq<string>)
    ensures var ops := Ops(a, b, 0, 0);
      && Old(ops) == a && New(ops) == b
      && (forall s :: s in Spans(ops, 0) ==> s.start <= s.trail <= |ops| && HeaderExact(ops, s))
  {
    hide *;
    OpsAreAScript(a, b, 0, 0);
    assert a[0..] == a && b[0..] == b;
    StartBetween(Ops(a, b, 0, 0));
    HeadersExactFrom(Ops(a, b, 0, 0), 0, 0);
  }
}
