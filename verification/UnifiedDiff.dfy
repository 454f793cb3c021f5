/** The unified diff of two texts: the edit script grouped into hunks with context, and printed. */
module UnifiedDiff {
  import opened Text
  import opened Decimal
  import opened EditScript

  // ---------------------------------------------------------------- lines

  function SplitLines(s: string): seq<string> {
    var t := TrimSuffix(s, "\n");
    if t == "" then [] else Split(t, '\n')
  }

  predicate OneLineEach(lines: seq<string>) {
    NoneHas(lines, '\n')
  }

  lemma LinesOf(s: string)
    ensures OneLineEach(SplitLines(s))
    ensures SplitLines(s) == [] <==> TrimSuffix(s, "\n") == ""
    ensures SplitLines(s) != [] ==> Join(SplitLines(s), "\n") == TrimSuffix(s, "\n")
  {
    SplitJoins(TrimSuffix(s, "\n"), '\n');
  }

  /** Two texts have the same lines exactly when they differ in at most one final newline. */
  lemma SameLines(s: string, t: string)
    ensures SplitLines(s) == SplitLines(t) <==> TrimSuffix(s, "\n") == TrimSuffix(t, "\n")
  {
    LinesOf(s);
    LinesOf(t);
  }

  lemma {:induction false} UnlinesJoins(lines: seq<string>)
    requires lines != []
    ensures Unlines(lines) == Join(lines, "\n") + "\n"
  {
    if |lines| > 1 {
      UnlinesJoins(lines[1..]);
      Assoc(lines[0] + "\n", Join(lines[1..], "\n"), "\n");
    } else {
      assert Unlines(lines[1..]) == "";
      assert lines[0] + "\n" + "" == lines[0] + "\n";
    }
  }

  lemma SplitLinesOfUnlines(lines: seq<string>)
    requires OneLineEach(lines) && forall l :: l in lines ==> l != ""
    ensures SplitLines(Unlines(lines)) == lines
  {
    if lines != [] {
      UnlinesJoins(lines);
      var t := Join(lines, "\n");
      assert TrimSuffix(t + "\n", "\n") == t;
      assert t != "" by {
        assert lines[0] in lines;
        assert |t| >= |lines[0]|;
      }
      JoinSplits(lines, '\n');
    }
  }

  // ---------------------------------------------------------------- hunks

  const CONTEXT: nat := 3

  predicate Unchanged(ops: seq<Op>, lo: nat, hi: nat)
    requires hi <= |ops|
  {
    forall k :: lo <= k < hi ==> ops[k].kind == Equal
  }

  function NextChange(ops: seq<Op>, i: nat): (k: nat)
    requires i <= |ops|
    ensures i <= k <= |ops| && Unchanged(ops, i, k) && (k < |ops| ==> ops[k].kind != Equal)
    decreases |ops| - i
  {
    if i == |ops| || ops[i].kind != Equal then i else NextChange(ops, i + 1)
  }

  /** Where the search for the end of a hunk stops, and the equal lines counted there: at the seventh equal line
      in a row, or at the end of the script. */
  function HunkEnd(ops: seq<Op>, end: nat, equal: nat): (r: (nat, nat))
    requires end <= |ops|
    ensures end <= r.0 <= |ops|
    decreases |ops| - end
  {
    if end == |ops| then (end, equal)
    else if ops[end].kind != Equal then HunkEnd(ops, end + 1, 0)
    else if equal + 1 > 2 * CONTEXT then (end, equal + 1)
    else HunkEnd(ops, end + 1, equal + 1)
  }

  /** The stretch of the script one hunk shows. */
  datatype Span = Span(start: nat, trail: nat)

  function SpanAt(ops: seq<Op>, i: nat): (s: Span)
    requires i < |ops| && ops[i].kind != Equal
    ensures s.start <= i < s.trail <= HunkEnd(ops, i, 0).0 <= |ops| && i < HunkEnd(ops, i, 0).0
  {
    HunkEndFacts(ops, i + 1, 0);
    var (end, equal) := HunkEnd(ops, i, 0);
    Span(if i < CONTEXT then 0 else i - CONTEXT, if equal > CONTEXT then end - (equal - CONTEXT) else end)
  }

  /** What the search finds, when it stands behind a changed line followed by equal ones. */
  lemma {:induction false} HunkEndFacts(ops: seq<Op>, end: nat, equal: nat)
    requires equal <= 2 * CONTEXT && equal < end <= |ops|
    requires Unchanged(ops, end - equal, end) && ops[end - equal - 1].kind != Equal
    ensures var (end', equal') := HunkEnd(ops, end, equal);
            var seen := if equal' > 2 * CONTEXT then equal' - 1 else equal';
      && equal' <= 2 * CONTEXT + 1 && end - equal + seen <= end' && ops[end' - seen - 1].kind != Equal
      && Unchanged(ops, end' - seen, end')
      && (equal' <= 2 * CONTEXT ==> end' == |ops|)
      && (equal' > 2 * CONTEXT ==> end' < |ops| && ops[end'].kind == Equal)
    decreases |ops| - end
  {
    if end < |ops| {
      if ops[end].kind != Equal {
        HunkEndFacts(ops, end + 1, 0);
      } else if equal < 2 * CONTEXT {
        HunkEndFacts(ops, end + 1, equal + 1);
      }
    }
  }

  /** The hunks found from i on. */
  function Spans(ops: seq<Op>, i: nat): seq<Span>
    requires i <= |ops|
    decreases |ops| - i
  {
    var k := NextChange(ops, i);
    if k == |ops| then [] else [SpanAt(ops, k)] + Spans(ops, HunkEnd(ops, k, 0).0)
  }

  // ---------------------------------------------------------------- printing

  function FirstOld(ops: seq<Op>): nat {
    if ops == [] then 0 else if ops[0].kind != Added then ops[0].aIdx else FirstOld(ops[1..])
  }

  function FirstNew(ops: seq<Op>): nat {
    if ops == [] then 0 else if ops[0].kind != Removed then ops[0].bIdx else FirstNew(ops[1..])
  }

  function Mark(kind: Kind): char {
    match kind
    case Equal => ' '
    case Removed => '-'
    case Added => '+'
  }

  function HeaderLine(aStart: nat, aCount: nat, bStart: nat, bCount: nat): string {
    "@@ -" + (Itoa(aStart) + ("," + (Itoa(aCount) + (" +" + (Itoa(bStart) + ("," + (Itoa(bCount) + " @@")))))))
  }

  function BodyLines(ops: seq<Op>): seq<string> {
    if ops == [] then [] else [[Mark(ops[0].kind)] + ops[0].text] + BodyLines(ops[1..])
  }

  function HunkLines(ops: seq<Op>): seq<string> {
    [HeaderLine(FirstOld(ops), |Old(ops)|, FirstNew(ops), |New(ops)|)] + BodyLines(ops)
  }

  /** The lines of the hunks found from i on. */
  function DiffLines(ops: seq<Op>, i: nat): seq<string>
    requires i <= |ops|
    decreases |ops| - i
  {
    var k := NextChange(ops, i);
    if k == |ops| then []
    else
      var s := SpanAt(ops, k);
      HunkLines(ops[s.start..s.trail]) + DiffLines(ops, HunkEnd(ops, k, 0).0)
  }

  function DiffText(aText: string, bText: string): string {
    Unlines(DiffLines(Ops(SplitLines(aText), SplitLines(bText), 0, 0), 0))
  }

  method HunkRange(ops: seq<Op>, start: nat, end: nat) returns (aStart: nat, aCount: nat, bStart: nat, bCount: nat)
    requires start <= end <= |ops|
    ensures aStart == FirstOld(ops[start..end]) && aCount == |Old(ops[start..end])|
    ensures bStart == FirstNew(ops[start..end]) && bCount == |New(ops[start..end])|
  {
    hide Old, New, FirstOld, FirstNew;
    aStart, aCount, bStart, bCount := 0, 0, 0, 0;
    RangeNone();
    assert ops[start..start] == [];
    for k := start to end
      invariant aCount == |Old(ops[start..k])| && bCount == |New(ops[start..k])|
      invariant aStart == FirstOld(ops[start..k]) && bStart == FirstNew(ops[start..k])
    {
      RangeOne(ops, start, k);
      match ops[k].kind {
        case Equal =>
          if aCount == 0 {
            aStart := ops[k].aIdx;
          }
          if bCount == 0 {
            bStart := ops[k].bIdx;
          }
          aCount, bCount := aCount + 1, bCount + 1;
        case Removed =>
          if aCount == 0 {
            aStart := ops[k].aIdx;
          }
          aCount := aCount + 1;
        case Added =>
          if bCount == 0 {
            bStart := ops[k].bIdx;
          }
          bCount := bCount + 1;
      }
    }
    RangeZero(ops[start..end]);
    if aCount == 0 {
      aStart := 0;
    }
    if bCount == 0 {
      bStart := 0;
    }
  }

  lemma RangeNone()
    ensures Old([]) == [] && New([]) == [] && FirstOld([]) == 0 && FirstNew([]) == 0
  {}

  lemma RangeOne(ops: seq<Op>, start: nat, k: nat)
    requires start <= k < |ops|
    ensures var h := ops[start..k]; var h' := ops[start..k + 1]; var op := ops[k];
      && Old(h') == Old(h) + (if op.kind == Added then [] else [op.text])
      && New(h') == New(h) + (if op.kind == Removed then [] else [op.text])
      && FirstOld(h') == (if Old(h) == [] && op.kind != Added then op.aIdx else FirstOld(h))
      && FirstNew(h') == (if New(h) == [] && op.kind != Removed then op.bIdx else FirstNew(h))
  {
    assert ops[start..k + 1] == ops[start..k] + [ops[k]];
    RangeSnoc(ops[start..k], ops[k]);
  }

  lemma {:induction false} RangeSnoc(h: seq<Op>, op: Op)
    ensures var h' := h + [op];
      && Old(h') == Old(h) + (if op.kind == Added then [] else [op.text])
      && New(h') == New(h) + (if op.kind == Removed then [] else [op.text])
      && FirstOld(h') == (if Old(h) == [] && op.kind != Added then op.aIdx else FirstOld(h))
      && FirstNew(h') == (if New(h) == [] && op.kind != Removed then op.bIdx else FirstNew(h))
  {
    hide *;
    RangeNone();
    if h == [] {
      assert h + [op] == [op] + [];
      RangeCons(op, []);
    } else {
      var rest := h[1..];
      RangeSnoc(rest, op);
      assert h == [h[0]] + rest && h + [op] == [h[0]] + (rest + [op]);
      RangeCons(h[0], rest);
      RangeCons(h[0], rest + [op]);
    }
  }

  lemma RangeCons(op: Op, ops: seq<Op>)
    ensures var h := [op] + ops;
      && Old(h) == (if op.kind == Added then [] else [op.text]) + Old(ops)
      && New(h) == (if op.kind == Removed then [] else [op.text]) + New(ops)
      && FirstOld(h) == (if op.kind == Added then FirstOld(ops) else op.aIdx)
      && FirstNew(h) == (if op.kind == Removed then FirstNew(ops) else op.bIdx)
  {
    assert ([op] + ops)[1..] == ops;
  }

  lemma {:induction false} RangeZero(h: seq<Op>)
    ensures Old(h) == [] ==> FirstOld(h) == 0
    ensures New(h) == [] ==> FirstNew(h) == 0
  {
    if h != [] {
      RangeZero(h[1..]);
    }
  }

  method UnifiedDiff(aText: string, bText: string) returns (out: string)
    ensures out == if aText == bText then "" else DiffText(aText, bText)
  {
    out := "";
    if aText == bText {
      return;
    }
    var a, b := SplitLines(aText), SplitLines(bText);
    var ops := DiffOps(a, b);
    out := WriteHunks(ops);
  }

  /** The loop of UnifiedDiff. */
  method WriteHunks(ops: seq<Op>) returns (out: string)
    ensures out == Unlines(DiffLines(ops, 0))
  {
    hide *;
    out := "";
    var i := 0;
    while i < |ops|
      invariant i <= |ops|
      invariant out + Unlines(DiffLines(ops, i)) == Unlines(DiffLines(ops, 0))
      decreases |ops| - i
    {
      NextChangeFrom(ops, i);
      if ops[i].kind == Equal {
        i := i + 1;
        continue;
      }
      var start := if i < CONTEXT then 0 else i - CONTEXT;
      var end, equal := FindEnd(ops, i);
      var trail := end;
      if equal > CONTEXT {
        trail := end - (equal - CONTEXT);
      }
      SpanAtIs(ops, i);
      var aStart, aCount, bStart, bCount := HunkRange(ops, start, trail);
      ghost var before := out;
      out := out + HeaderLine(aStart, aCount, bStart, bCount) + "\n";
      out := WriteBody(out, ops[start..trail]);
      HunkWritten(before, ops, i);
      i := end;
    }
    NothingLeft(ops);
  }

  method FindEnd(ops: seq<Op>, i: nat) returns (end: nat, equal: nat)
    requires i <= |ops|
    ensures (end, equal) == HunkEnd(ops, i, 0)
  {
    end, equal := i, 0;
    while end < |ops|
      invariant i <= end <= |ops| && HunkEnd(ops, end, equal) == HunkEnd(ops, i, 0)
    {
      if ops[end].kind == Equal {
        if equal + 1 > 2 * CONTEXT {
          return end, equal + 1;
        }
        equal := equal + 1;
      } else {
        equal := 0;
      }
      end := end + 1;
    }
  }

  method WriteBody(out: string, ops: seq<Op>) returns (r: string)
    ensures r == out + Unlines(BodyLines(ops))
  {
    hide BodyLines, Unlines;
    r := out;
    for k := 0 to |ops|
      invariant r + Unlines(BodyLines(ops[k..])) == out + Unlines(BodyLines(ops))
    {
      ghost var before := r;
      r := r + [Mark(ops[k].kind)];
      r := r + ops[k].text;
      r := r + "\n";
      BodyStep(before, ops, k);
    }
    BodyNone();
    assert ops[|ops|..] == [] && r + "" == r;
  }

  lemma BodyNone()
    ensures Unlines(BodyLines([])) == ""
  {}

  lemma BodyStep(out: string, ops: seq<Op>, k: nat)
    requires k < |ops|
    ensures out + Unlines(BodyLines(ops[k..])) ==
            out + [Mark(ops[k].kind)] + ops[k].text + "\n" + Unlines(BodyLines(ops[k + 1..]))
  {
    assert ops[k..][1..] == ops[k + 1..];
    var line := [Mark(ops[k].kind)] + ops[k].text;
    var more := BodyLines(ops[k + 1..]);
    assert BodyLines(ops[k..]) == [line] + more;
    assert ([line] + more)[1..] == more;
  }

  lemma NextChangeFrom(ops: seq<Op>, i: nat)
    requires i < |ops|
    ensures ops[i].kind != Equal ==> NextChange(ops, i) == i
    ensures ops[i].kind == Equal ==> DiffLines(ops, i) == DiffLines(ops, i + 1)
  {}

  lemma SpanAtIs(ops: seq<Op>, i: nat)
    requires i < |ops| && ops[i].kind != Equal
    ensures var (end, equal) := HunkEnd(ops, i, 0);
      && i < end && (equal > CONTEXT ==> end - (equal - CONTEXT) >= i)
      && SpanAt(ops, i) ==
         Span(if i < CONTEXT then 0 else i - CONTEXT, if equal > CONTEXT then end - (equal - CONTEXT) else end)
  {
    assert i < SpanAt(ops, i).trail;
  }

  lemma HunkWritten(before: string, ops: seq<Op>, i: nat)
    requires i < |ops| && ops[i].kind != Equal
    ensures var s := SpanAt(ops, i); var h := ops[s.start..s.trail];
      before + Unlines(DiffLines(ops, i)) ==
      before + HeaderLine(FirstOld(h), |Old(h)|, FirstNew(h), |New(h)|) + "\n" + Unlines(BodyLines(h)) +
      Unlines(DiffLines(ops, HunkEnd(ops, i, 0).0))
  {
    hide *;
    var s := SpanAt(ops, i);
    var h := ops[s.start..s.trail];
    DiffLinesAt(ops, i);
    HunkText(before, HeaderLine(FirstOld(h), |Old(h)|, FirstNew(h), |New(h)|), BodyLines(h),
             DiffLines(ops, HunkEnd(ops, i, 0).0));
  }

  lemma DiffLinesAt(ops: seq<Op>, i: nat)
    requires i < |ops| && ops[i].kind != Equal
    ensures var s := SpanAt(ops, i); var h := ops[s.start..s.trail];
      DiffLines(ops, i) ==
      [HeaderLine(FirstOld(h), |Old(h)|, FirstNew(h), |New(h)|)] + BodyLines(h) + DiffLines(ops, HunkEnd(ops, i, 0).0)
  {
    hide Old, New, FirstOld, FirstNew, HeaderLine, BodyLines, HunkEnd, SpanAt;
    assert NextChange(ops, i) == i;
  }

  lemma HunkText(before: string, header: string, body: seq<string>, more: seq<string>)
    ensures before + Unlines([header] + body + more) == before + header + "\n" + Unlines(body) + Unlines(more)
  {
    UnlinesAppend([header] + body, more);
    UnlinesAppend([header], body);
    assert Unlines([header]) == header + "\n";
  }

  lemma NothingLeft(ops: seq<Op>)
    ensures Unlines(DiffLines(ops, |ops|)) == ""
  {}
}
