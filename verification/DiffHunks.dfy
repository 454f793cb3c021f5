/** How the hunks of a unified diff lie in the edit script. */
module DiffHunks {
  import opened EditScript
  import opened UnifiedDiff

  /** The equal lines in a row that end a hunk. */
  const GAP: nat := 2 * CONTEXT + 1

  predicate GapAt(ops: seq<Op>, k: nat) {
    k + GAP <= |ops| && Unchanged(ops, k, k + GAP)
  }

  predicate ShortGaps(ops: seq<Op>, lo: nat, hi: nat) {
    forall k: nat :: lo <= k && k + GAP <= hi ==> !GapAt(ops, k)
  }

  function AtMost(n: nat, max: nat): nat {
    if n <= max then n else max
  }

  /** A hunk around the changes from first to last: the lines of context before, as far as there are any; no gap of
      equal lines inside; and after the last change one line of context less where a gap follows, otherwise all of them
      as far as there are any. */
  ghost predicate HunkShape(ops: seq<Op>, s: Span, first: nat, last: nat) {
    && s.start <= first <= last < s.trail <= |ops|
    && ops[first].kind != Equal && ops[last].kind != Equal
    && Unchanged(ops, s.start, first) && s.start == (if first < CONTEXT then 0 else first - CONTEXT)
    && ShortGaps(ops, first, last)
    && Unchanged(ops, last + 1, s.trail)
    && (if GapAt(ops, last + 1) then s.trail == last + 1 + (CONTEXT - 1)
        else Unchanged(ops, last + 1, |ops|) && s.trail == AtMost(last + 1 + CONTEXT, |ops|))
  }

  /** Where one hunk has been printed up to p and the search goes on from i. */
  predicate Between(ops: seq<Op>, p: nat, i: nat) {
    && p <= i <= |ops| && Unchanged(ops, p, i)
    && ((p == 0 && i == 0) || i == |ops| || (p + CONTEXT + 1 == i && ops[i].kind == Equal))
  }

  /** The first change after such a point starts its context behind the printed part. */
  lemma NextStart(ops: seq<Op>, p: nat, i: nat)
    requires Between(ops, p, i)
    ensures var k := NextChange(ops, i);
      && Unchanged(ops, p, k)
      && (k < |ops| ==> p <= (if k < CONTEXT then 0 else k - CONTEXT) && (i > 0 ==> p + (CONTEXT - 1) <= k - CONTEXT))
  {}

  lemma {:induction false} NoLongGap(ops: seq<Op>, lo: nat, end: nat, equal: nat)
    requires lo < end - equal <= end <= |ops| && equal <= 2 * CONTEXT
    requires Unchanged(ops, end - equal, end) && ops[end - equal - 1].kind != Equal
    requires ShortGaps(ops, lo, end)
    ensures ShortGaps(ops, lo, HunkEnd(ops, end, equal).0)
    decreases |ops| - end
  {
    if end < |ops| {
      if ops[end].kind != Equal {
        NoLongGap(ops, lo, end + 1, 0);
      } else if equal < 2 * CONTEXT {
        NoLongGap(ops, lo, end + 1, equal + 1);
      }
    }
  }

  lemma SpanShape(ops: seq<Op>, i: nat) returns (last: nat)
    requires i < |ops| && ops[i].kind != Equal
    requires Unchanged(ops, if i < CONTEXT then 0 else i - CONTEXT, i)
    ensures HunkShape(ops, SpanAt(ops, i), i, last)
    ensures Between(ops, SpanAt(ops, i).trail, HunkEnd(ops, i, 0).0)
  {
    hide HunkEnd, SpanAt, HunkShape, Between, ShortGaps, Unchanged;
    HunkEndStart(ops, i);
    OneChange(ops, i);
    HunkEndFacts(ops, i + 1, 0);
    NoLongGap(ops, i, i + 1, 0);
    SpanIs(ops, i);
    var (end, equal) := HunkEnd(ops, i, 0);
    last := if equal == GAP then end - GAP else end - equal - 1;
    if equal == GAP {
      BeforeGap(ops, SpanAt(ops, i), i, last, end);
    } else {
      BeforeEnd(ops, SpanAt(ops, i), i, last, equal);
    }
  }

  lemma OneChange(ops: seq<Op>, i: nat)
    requires i < |ops|
    ensures Unchanged(ops, i + 1, i + 1) && ShortGaps(ops, i, i + 1)
  {}

  lemma SpanIs(ops: seq<Op>, i: nat)
    requires i < |ops| && ops[i].kind != Equal
    ensures var (end, equal) := HunkEnd(ops, i, 0);
      SpanAt(ops, i) ==
      Span(if i < CONTEXT then 0 else i - CONTEXT, if equal > CONTEXT then end - (equal - CONTEXT) else end)
  {
    hide HunkEnd;
  }

  lemma BeforeGap(ops: seq<Op>, s: Span, i: nat, last: nat, end: nat)
    requires i <= last && last + GAP == end < |ops| && ops[i].kind != Equal && ops[last].kind != Equal
    requires Unchanged(ops, last + 1, end) && ops[end].kind == Equal && ShortGaps(ops, i, end)
    requires s.start == (if i < CONTEXT then 0 else i - CONTEXT) && s.trail == end - (GAP - CONTEXT)
    requires Unchanged(ops, s.start, i)
    ensures HunkShape(ops, s, i, last) && Between(ops, s.trail, end)
  {
    assert GapAt(ops, last + 1);
  }

  lemma BeforeEnd(ops: seq<Op>, s: Span, i: nat, last: nat, equal: nat)
    requires i <= last && last + 1 + equal == |ops| && equal < GAP && ops[i].kind != Equal && ops[last].kind != Equal
    requires Unchanged(ops, last + 1, |ops|) && ShortGaps(ops, i, |ops|)
    requires s.start == (if i < CONTEXT then 0 else i - CONTEXT)
    requires s.trail == (if equal > CONTEXT then |ops| - (equal - CONTEXT) else |ops|)
    requires Unchanged(ops, s.start, i)
    ensures HunkShape(ops, s, i, last) && Between(ops, s.trail, |ops|)
  {}

  lemma HunkEndStart(ops: seq<Op>, i: nat)
    requires i < |ops| && ops[i].kind != Equal
    ensures HunkEnd(ops, i, 0) == HunkEnd(ops, i + 1, 0)
  {}

  ghost predicate Shaped(ops: seq<Op>, s: Span) {
    exists first, last :: HunkShape(ops, s, first, last)
  }

  predicate Inside(s: Span, k: nat) {
    s.start <= k < s.trail
  }

  /** Lines of the script lie between one hunk and any later one: one fewer than those of the context. */
  predicate Apart(spans: seq<Span>) {
    forall g, h :: 0 <= g < h < |spans| ==> spans[g].trail + (CONTEXT - 1) <= spans[h].start
  }

  ghost predicate Covered(ops: seq<Op>, spans: seq<Span>, from: nat) {
    forall k :: from <= k < |ops| && ops[k].kind != Equal ==> exists s :: s in spans && Inside(s, k)
  }

  lemma {:induction false} SpansLayout(ops: seq<Op>, p: nat, i: nat)
    requires Between(ops, p, i)
    ensures var spans := Spans(ops, i);
      && (forall s :: s in spans ==> Shaped(ops, s) && (i > 0 ==> p + (CONTEXT - 1) <= s.start))
      && Apart(spans) && Covered(ops, spans, i)
    decreases |ops| - i
  {
    hide HunkShape, HunkEnd, SpanAt;
    var k := NextChange(ops, i);
    if k < |ops| {
      NextStart(ops, p, i);
      var last := SpanShape(ops, k);
      var s := SpanAt(ops, k);
      var end := HunkEnd(ops, k, 0).0;
      SpansLayout(ops, s.trail, end);
      var rest := Spans(ops, end);
      assert Spans(ops, i) == [s] + rest;
      LaterCovered(ops, i, k, last, s, end, rest);
      ApartCons(s, rest);
      SpanStart(ops, k);
    }
  }

  lemma SpanStart(ops: seq<Op>, i: nat)
    requires i < |ops| && ops[i].kind != Equal
    ensures SpanAt(ops, i).start == if i < CONTEXT then 0 else i - CONTEXT
  {}

  lemma ApartCons(s: Span, rest: seq<Span>)
    requires Apart(rest) && forall t :: t in rest ==> s.trail + (CONTEXT - 1) <= t.start
    ensures Apart([s] + rest)
  {}

  lemma LaterCovered(ops: seq<Op>, i: nat, k: nat, last: nat, s: Span, end: nat, rest: seq<Span>)
    requires i <= k < |ops| && Unchanged(ops, i, k) && HunkShape(ops, s, k, last)
    requires Between(ops, s.trail, end) && Covered(ops, rest, end)
    ensures Covered(ops, [s] + rest, i)
  {
    forall j | i <= j < |ops| && ops[j].kind != Equal ensures exists t :: t in [s] + rest && Inside(t, j) {
      if j < s.trail {
        assert s in [s] + rest && Inside(s, j);
      } else {
        assert j >= end;
        var t :| t in rest && Inside(t, j);
        assert t in [s] + rest;
      }
    }
  }

  ghost predicate InExactlyOne(spans: seq<Span>, k: nat) {
    exists h :: InOnly(spans, h, k)
  }

  predicate InOnly(spans: seq<Span>, h: nat, k: nat) {
    h < |spans| && Inside(spans[h], k) && forall g :: 0 <= g < |spans| && g != h ==> !Inside(spans[g], k)
  }

  lemma OneIsExact(spans: seq<Span>, s: Span, k: nat)
    requires Apart(spans) && s in spans && Inside(s, k)
    ensures InExactlyOne(spans, k)
  {
    var h: nat :| h < |spans| && spans[h] == s;
    forall g | 0 <= g < |spans| && g != h ensures !Inside(spans[g], k) {
      if g < h {
        assert spans[g].trail + (CONTEXT - 1) <= spans[h].start;
      } else {
        assert spans[h].trail + (CONTEXT - 1) <= spans[g].start;
      }
    }
    assert InOnly(spans, h, k);
  }

  /** Layout: every hunk has its shape, hunks come in order and apart, and every change lies in exactly one. */
  lemma HunkLayout(ops: seq<Op>)
    ensures var spans := Spans(ops, 0);
      && (forall s :: s in spans ==> Shaped(ops, s))
      && Apart(spans)
      && forall k :: 0 <= k < |ops| && ops[k].kind != Equal ==> InExactlyOne(spans, k)
  {
    hide *;
    StartBetween(ops);
    SpansLayout(ops, 0, 0);
    var spans := Spans(ops, 0);
    forall k | 0 <= k < |ops| && ops[k].kind != Equal ensures InExactlyOne(spans, k) {
      var s := CoveredBy(ops, spans, k);
      OneIsExact(spans, s, k);
    }
  }

  lemma StartBetween(ops: seq<Op>)
    ensures Between(ops, 0, 0)
  {}

  lemma CoveredBy(ops: seq<Op>, spans: seq<Span>, k: nat) returns (s: Span)
    requires Covered(ops, spans, 0) && k < |ops| && ops[k].kind != Equal
    ensures s in spans && Inside(s, k)
  {
    s :| s in spans && Inside(s, k);
  }

  // ---------------------------------------------------------------- one removed line

  lemma {:induction false} EqualTails(a: seq<string>, b: seq<string>, i: nat, j: nat)
    requires i <= |a| && j <= |b| && a[i..] == b[j..]
    ensures Lcs(a, b, i, j) == |a| - i
    ensures |Ops(a, b, i, j)| == |a| - i && Unchanged(Ops(a, b, i, j), 0, |a| - i)
    decreases |a| - i
  {
    if i < |a| {
      assert a[i] == a[i..][0] == b[j..][0] == b[j];
      assert a[i + 1..] == a[i..][1..] && b[j + 1..] == b[j..][1..];
      EqualTails(a, b, i + 1, j + 1);
    } else {
      assert |b[j..]| == 0;
    }
  }

  /** Behind a change with nothing but equal lines after it. */
  lemma {:induction false} EqualEnd(ops: seq<Op>, end: nat, equal: nat)
    requires end <= |ops| && Unchanged(ops, end, |ops|) && equal <= 2 * CONTEXT
    ensures HunkEnd(ops, end, equal) ==
            if |ops| - end + equal < GAP then (|ops|, equal + |ops| - end) else (end + 2 * CONTEXT - equal, GAP)
    decreases |ops| - end
  {
    if end < |ops| && equal < 2 * CONTEXT {
      EqualEnd(ops, end + 1, equal + 1);
    }
  }

  /** A first line removed: the hunk shows three equal lines behind it while fewer than seven follow, but two when seven
      or more do. */
  lemma FirstRemoved(line: string, same: seq<string>)
    requires same != [] && line != same[0]
    ensures Spans(Ops([line] + same, same, 0, 0), 0) ==
            [Span(0, if |same| < 3 then 1 + |same| else if |same| < 7 then 1 + 3 else 1 + 2)]
  {
    hide Ops, Lcs, Spans, Unchanged;
    var a := [line] + same;
    assert a[1..] == same[0..];
    EqualTails(a, same, 1, 0);
    RemovedFirst(a, same);
    BehindFirst(Op(Removed, line, 1, 0), Ops(a, same, 1, 0));
    OneChangeShown(Ops(a, same, 0, 0));
  }

  lemma BehindFirst(op: Op, ops: seq<Op>)
    requires Unchanged(ops, 0, |ops|)
    ensures Unchanged([op] + ops, 1, |ops| + 1)
  {}

  lemma OneChangeShown(ops: seq<Op>)
    requires ops != [] && ops[0].kind != Equal && Unchanged(ops, 1, |ops|)
    ensures Spans(ops, 0) == [Span(0, if |ops| - 1 < GAP then AtMost(1 + CONTEXT, |ops|) else 1 + (CONTEXT - 1))]
  {
    hide HunkEnd, SpanAt, NextChange;
    HunkEndStart(ops, 0);
    EqualEnd(ops, 1, 0);
    SpanIs(ops, 0);
    var end := HunkEnd(ops, 0, 0).0;
    NextIs(ops, 0, 0);
    NextIs(ops, end, |ops|);
    assert [SpanAt(ops, 0)] + [] == [SpanAt(ops, 0)];
  }

  lemma NextIs(ops: seq<Op>, i: nat, k: nat)
    requires i <= k <= |ops| && Unchanged(ops, i, k) && (k < |ops| ==> ops[k].kind != Equal)
    ensures NextChange(ops, i) == k
  {}

  lemma RemovedFirst(a: seq<string>, b: seq<string>)
    requires |a| == |b| + 1 && b != [] && a[0] != b[0] && Lcs(a, b, 1, 0) == |b|
    ensures Ops(a, b, 0, 0) == [Op(Removed, a[0], 1, 0)] + Ops(a, b, 1, 0)
  {
    hide Ops;
    LcsBound(a, b, 0, 1);
    RemovalStep(a, b, 0, 0);
  }

  lemma {:induction false} LcsBound(a: seq<string>, b: seq<string>, i: nat, j: nat)
    requires i <= |a| && j <= |b|
    ensures Lcs(a, b, i, j) <= |b| - j
    decreases |a| - i + |b| - j
  {
    if i < |a| && j < |b| {
      if a[i] == b[j] {
        LcsBound(a, b, i + 1, j + 1);
      } else {
        LcsBound(a, b, i + 1, j);
        LcsBound(a, b, i, j + 1);
      }
    }
  }

  lemma RemovalStep(a: seq<string>, b: seq<string>, i: nat, j: nat)
    requires i < |a| && j < |b| && OpAt(a, b, i, j).kind == Removed
    ensures Ops(a, b, i, j) == [OpAt(a, b, i, j)] + Ops(a, b, i + 1, j)
  {
    hide OpAt, Lcs;
  }
}
