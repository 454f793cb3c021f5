/** The line-by-line comparison of two texts: an edit script read off a table of common subsequence lengths. */
module EditScript {

  datatype Kind = Equal | Removed | Added

  /** Line numbers count from 1; a side the line is missing from has number 0. */
  datatype Op = Op(kind: Kind, text: string, aIdx: nat, bIdx: nat)

  /** The lines a script starts from. */
  function Old(ops: seq<Op>): seq<string> {
    if ops == [] then [] else (if ops[0].kind == Added then [] else [ops[0].text]) + Old(ops[1..])
  }

  /** The lines a script leads to. */
  function New(ops: seq<Op>): seq<string> {
    if ops == [] then [] else (if ops[0].kind == Removed then [] else [ops[0].text]) + New(ops[1..])
  }

  function Kept(ops: seq<Op>): nat {
    if ops == [] then 0 else (if ops[0].kind == Equal then 1 else 0) + Kept(ops[1..])
  }

  /** The insertions and deletions of a script. */
  function Changes(ops: seq<Op>): nat {
    if ops == [] then 0 else (if ops[0].kind == Equal then 0 else 1) + Changes(ops[1..])
  }

  /** Every line carries its own number on each side it occurs on, i and j lines having gone before. */
  predicate Numbered(ops: seq<Op>, i: nat, j: nat) {
    ops != [] ==>
      var op := ops[0];
      var oldLines := if op.kind == Added then 0 else 1;
      var newLines := if op.kind == Removed then 0 else 1;
      && op.aIdx == (if op.kind == Added then 0 else i + 1)
      && op.bIdx == (if op.kind == Removed then 0 else j + 1)
      && Numbered(ops[1..], i + oldLines, j + newLines)
  }

  /** The entry of the table at (i, j). */
  function Lcs(a: seq<string>, b: seq<string>, i: nat, j: nat): nat
    requires i <= |a| && j <= |b|
    decreases |a| - i + |b| - j
  {
    if i == |a| || j == |b| then 0
    else if a[i] == b[j] then Lcs(a, b, i + 1, j + 1) + 1
    else if Lcs(a, b, i + 1, j) >= Lcs(a, b, i, j + 1) then Lcs(a, b, i + 1, j)
    else Lcs(a, b, i, j + 1)
  }

  /** The line dealt with at (i, j). */
  function OpAt(a: seq<string>, b: seq<string>, i: nat, j: nat): (op: Op)
    requires i <= |a| && j <= |b| && (i < |a| || j < |b|)
    ensures op.kind != Added ==> i < |a| && op.text == a[i]
    ensures op.kind != Removed ==> j < |b| && op.text == b[j]
  {
    if i < |a| && j < |b| && a[i] == b[j] then Op(Equal, a[i], i + 1, j + 1)
    else if i < |a| && (j == |b| || Lcs(a, b, i + 1, j) >= Lcs(a, b, i, j + 1)) then Op(Removed, a[i], i + 1, 0)
    else Op(Added, b[j], 0, j + 1)
  }

  /** The script read off the table from (i, j) on. */
  function Ops(a: seq<string>, b: seq<string>, i: nat, j: nat): seq<Op>
    requires i <= |a| && j <= |b|
    decreases |a| - i + |b| - j
  {
    if i == |a| && j == |b| then []
    else
      var op := OpAt(a, b, i, j);
      [op] + Ops(a, b, if op.kind == Added then i else i + 1, if op.kind == Removed then j else j + 1)
  }

  lemma OpsStep(done: seq<Op>, a: seq<string>, b: seq<string>, i: nat, j: nat, op: Op)
    requires i <= |a| && j <= |b| && (i < |a| || j < |b|) && op == OpAt(a, b, i, j)
    ensures done + Ops(a, b, i, j) ==
            (done + [op]) + Ops(a, b, if op.kind == Added then i else i + 1, if op.kind == Removed then j else j + 1)
  {}

  lemma LcsEdges(a: seq<string>, b: seq<string>)
    ensures forall j :: 0 <= j <= |b| ==> Lcs(a, b, |a|, j) == 0
    ensures forall i :: 0 <= i <= |a| ==> Lcs(a, b, i, |b|) == 0
  {}

  lemma LcsCell(a: seq<string>, b: seq<string>, i: nat, j: nat)
    requires i < |a| && j < |b|
    ensures Lcs(a, b, i, j) ==
            if a[i] == b[j] then Lcs(a, b, i + 1, j + 1) + 1
            else if Lcs(a, b, i + 1, j) >= Lcs(a, b, i, j + 1) then Lcs(a, b, i + 1, j)
            else Lcs(a, b, i, j + 1)
  {}

  /** The table, filled from the far corner. */
  method FillTable(a: seq<string>, b: seq<string>) returns (lcs: array2<nat>)
    ensures lcs.Length0 == |a| + 1 && lcs.Length1 == |b| + 1
    ensures forall i, j :: 0 <= i <= |a| && 0 <= j <= |b| ==> lcs[i, j] == Lcs(a, b, i, j)
  {
    hide Lcs;
    lcs := new nat[|a| + 1, |b| + 1]((_, _) => 0);
    LcsEdges(a, b);
    for i := |a| downto 0
      invariant forall x, y :: 0 <= x < i && 0 <= y <= |b| ==> lcs[x, y] == 0
      invariant forall x, y :: i <= x <= |a| && 0 <= y <= |b| ==> lcs[x, y] == Lcs(a, b, x, y)
    {
      for j := |b| downto 0
        invariant forall x, y :: 0 <= x < i && 0 <= y <= |b| ==> lcs[x, y] == 0
        invariant forall x, y :: i < x <= |a| && 0 <= y <= |b| ==> lcs[x, y] == Lcs(a, b, x, y)
        invariant forall y :: j <= y <= |b| ==> lcs[i, y] == Lcs(a, b, i, y)
      {
        LcsCell(a, b, i, j);
        if a[i] == b[j] {
          lcs[i, j] := lcs[i + 1, j + 1] + 1;
        } else if lcs[i + 1, j] >= lcs[i, j + 1] {
          lcs[i, j] := lcs[i + 1, j];
        } else {
          lcs[i, j] := lcs[i, j + 1];
        }
      }
    }
  }

  method DiffOps(a: seq<string>, b: seq<string>) returns (ops: seq<Op>)
    ensures ops == Ops(a, b, 0, 0)
  {
    hide Ops, Lcs;
    var n, m := |a|, |b|;
    var lcs := FillTable(a, b);
    ops := [];
    var i, j := 0, 0;
    while i < n && j < m
      invariant i <= n && j <= m && ops + Ops(a, b, i, j) == Ops(a, b, 0, 0)
      invariant forall x, y :: 0 <= x <= n && 0 <= y <= m ==> lcs[x, y] == Lcs(a, b, x, y)
      decreases n - i + m - j
    {
      OpsStep(ops, a, b, i, j, OpAt(a, b, i, j));
      if a[i] == b[j] {
        ops := ops + [Op(Equal, a[i], i + 1, j + 1)];
        i, j := i + 1, j + 1;
      } else if lcs[i + 1, j] >= lcs[i, j + 1] {
        ops := ops + [Op(Removed, a[i], i + 1, 0)];
        i := i + 1;
      } else {
        ops := ops + [Op(Added, b[j], 0, j + 1)];
        j := j + 1;
      }
    }
    while i < n
      invariant i <= n && j <= m && (i == n || j == m) && ops + Ops(a, b, i, j) == Ops(a, b, 0, 0)
    {
      OpsStep(ops, a, b, i, j, Op(Removed, a[i], i + 1, 0));
      ops := ops + [Op(Removed, a[i], i + 1, 0)];
      i := i + 1;
    }
    while j < m
      invariant i == n && j <= m && ops + Ops(a, b, i, j) == Ops(a, b, 0, 0)
    {
      OpsStep(ops, a, b, i, j, Op(Added, b[j], 0, j + 1));
      ops := ops + [Op(Added, b[j], 0, j + 1)];
      j := j + 1;
    }
    NoOps(a, b);
  }

  lemma NoOps(a: seq<string>, b: seq<string>)
    ensures Ops(a, b, |a|, |b|) == []
  {}

  lemma OldCons(op: Op, ops: seq<Op>)
    ensures Old([op] + ops) == (if op.kind == Added then [] else [op.text]) + Old(ops)
    ensures New([op] + ops) == (if op.kind == Removed then [] else [op.text]) + New(ops)
    ensures Kept([op] + ops) == (if op.kind == Equal then 1 else 0) + Kept(ops)
  {
    assert ([op] + ops)[1..] == ops;
  }

  lemma NumberedCons(op: Op, ops: seq<Op>, i: nat, j: nat)
    requires op.aIdx == (if op.kind == Added then 0 else i + 1)
    requires op.bIdx == (if op.kind == Removed then 0 else j + 1)
    requires Numbered(ops, i + (if op.kind == Added then 0 else 1), j + (if op.kind == Removed then 0 else 1))
    ensures Numbered([op] + ops, i, j)
  {
    assert ([op] + ops)[1..] == ops;
  }

  /** The script turns the one text into the other, its numbers are exact, and it keeps as many lines as the
      table says. */
  lemma {:induction false} OpsAreAScript(a: seq<string>, b: seq<string>, i: nat, j: nat)
    requires i <= |a| && j <= |b|
    ensures var ops := Ops(a, b, i, j);
      Old(ops) == a[i..] && New(ops) == b[j..] && Numbered(ops, i, j) && Kept(ops) == Lcs(a, b, i, j)
    decreases |a| - i + |b| - j
  {
    hide *;
    if i == |a| && j == |b| {
      NoOps(a, b);
      LcsEdges(a, b);
      OldNone();
    } else {
      var op := OpAt(a, b, i, j);
      var i' := if op.kind == Added then i else i + 1;
      var j' := if op.kind == Removed then j else j + 1;
      OpsAreAScript(a, b, i', j');
      OpsStep([], a, b, i, j, op);
      assert [] + Ops(a, b, i, j) == Ops(a, b, i, j) && [] + [op] == [op];
      OldCons(op, Ops(a, b, i', j'));
      OpAtNumbers(a, b, i, j);
      NumberedCons(op, Ops(a, b, i', j'), i, j);
      LcsOpAt(a, b, i, j);
      TailCons(a, i, i', if op.kind == Added then [] else [op.text]);
      TailCons(b, j, j', if op.kind == Removed then [] else [op.text]);
    }
  }

  lemma OldNone()
    ensures Old([]) == [] && New([]) == [] && Kept([]) == 0 && forall i, j :: Numbered([], i, j)
  {}

  lemma TailCons(a: seq<string>, i: nat, i': nat, head: seq<string>)
    requires i <= i' <= |a| && head == a[i..i']
    ensures head + a[i'..] == a[i..]
  {}

  lemma OpAtNumbers(a: seq<string>, b: seq<string>, i: nat, j: nat)
    requires i <= |a| && j <= |b| && (i < |a| || j < |b|)
    ensures OpAt(a, b, i, j).aIdx == (if OpAt(a, b, i, j).kind == Added then 0 else i + 1)
    ensures OpAt(a, b, i, j).bIdx == (if OpAt(a, b, i, j).kind == Removed then 0 else j + 1)
  {}

  lemma LcsOpAt(a: seq<string>, b: seq<string>, i: nat, j: nat)
    requires i <= |a| && j <= |b| && (i < |a| || j < |b|)
    ensures var op := OpAt(a, b, i, j);
      Lcs(a, b, i, j) == (if op.kind == Equal then 1 else 0) +
        Lcs(a, b, if op.kind == Added then i else i + 1, if op.kind == Removed then j else j + 1)
  {}

  /** Dropping a line from either side costs at most one common line. */
  lemma {:induction false} LcsSteps(a: seq<string>, b: seq<string>, i: nat, j: nat)
    requires i <= |a| && j <= |b|
    ensures i < |a| ==> Lcs(a, b, i + 1, j) <= Lcs(a, b, i, j) <= Lcs(a, b, i + 1, j) + 1
    ensures j < |b| ==> Lcs(a, b, i, j + 1) <= Lcs(a, b, i, j) <= Lcs(a, b, i, j + 1) + 1
    decreases |a| - i + |b| - j
  {
    if i < |a| && j < |b| {
      LcsSteps(a, b, i + 1, j);
      LcsSteps(a, b, i, j + 1);
    }
  }

  /** No script between the two texts keeps more lines. */
  lemma {:induction false} NoneKeepsMore(a: seq<string>, b: seq<string>, i: nat, j: nat, script: seq<Op>)
    requires i <= |a| && j <= |b| && Old(script) == a[i..] && New(script) == b[j..]
    ensures Kept(script) <= Lcs(a, b, i, j)
    decreases script
  {
    if script != [] {
      var op := script[0];
      if op.kind != Added {
        assert a[i] == op.text && a[i + 1..] == a[i..][1..] == Old(script[1..]);
      }
      if op.kind != Removed {
        assert b[j] == op.text && b[j + 1..] == b[j..][1..] == New(script[1..]);
      }
      LcsSteps(a, b, i, j);
      NoneKeepsMore(a, b, if op.kind == Added then i else i + 1, if op.kind == Removed then j else j + 1, script[1..]);
    }
  }

  lemma {:induction false} ChangesCount(ops: seq<Op>)
    ensures |Old(ops)| + |New(ops)| == 2 * Kept(ops) + Changes(ops)
  {
    if ops != [] {
      ChangesCount(ops[1..]);
    }
  }

  /** The script is a shortest one: no other way from a to b inserts and deletes fewer lines. */
  lemma ShortestScript(a: seq<string>, b: seq<string>, script: seq<Op>)
    requires Old(script) == a && New(script) == b
    ensures var ops := Ops(a, b, 0, 0);
      Old(ops) == a && New(ops) == b && Changes(ops) <= Changes(script) && Kept(script) <= Kept(ops)
  {
    OpsAreAScript(a, b, 0, 0);
    assert a[0..] == a && b[0..] == b;
    NoneKeepsMore(a, b, 0, 0, script);
    ChangesCount(Ops(a, b, 0, 0));
    ChangesCount(script);
  }

  // ---------------------------------------------------------------- which of the shortest scripts

  function Rank(k: Kind): nat {
    match k
    case Equal => 0
    case Removed => 1
    case Added => 2
  }

  /** Where two scripts first deal with a line differently, the one keeps it or removes it and the other adds one, or
      the one keeps it and the other removes it. */
  predicate PreferredTo(ops: seq<Op>, script: seq<Op>) {
    ops != [] && script != [] ==>
      Rank(ops[0].kind) < Rank(script[0].kind) || (ops[0].kind == script[0].kind && PreferredTo(ops[1..], script[1..]))
  }

  lemma {:induction false} PreferredFrom(a: seq<string>, b: seq<string>, i: nat, j: nat, script: seq<Op>)
    requires i <= |a| && j <= |b| && Old(script) == a[i..] && New(script) == b[j..]
    requires Kept(script) == Lcs(a, b, i, j)
    ensures PreferredTo(Ops(a, b, i, j), script)
    decreases script
  {
    hide Ops, Lcs;
    if script != [] && (i < |a| || j < |b|) {
      var op, first := OpAt(a, b, i, j), script[0];
      assert script == [first] + script[1..];
      OldCons(first, script[1..]);
      var more := Ops(a, b, if op.kind == Added then i else i + 1, if op.kind == Removed then j else j + 1);
      OpsStep([], a, b, i, j, op);
      assert Ops(a, b, i, j) == [] + Ops(a, b, i, j) == [op] + more && ([op] + more)[1..] == more;
      if first.kind != Added {
        assert a[i] == first.text && a[i + 1..] == a[i..][1..] == Old(script[1..]);
      }
      if first.kind != Removed {
        assert b[j] == first.text && b[j + 1..] == b[j..][1..] == New(script[1..]);
      }
      if first.kind == op.kind {
        LcsOpAt(a, b, i, j);
        PreferredFrom(a, b, if op.kind == Added then i else i + 1, if op.kind == Removed then j else j + 1,
                      script[1..]);
      } else {
        OpAtKind(a, b, i, j);
        if first.kind == Removed {
          LcsOpAt(a, b, i, j);
          NoneKeepsMore(a, b, i + 1, j, script[1..]);
        }
      }
    } else {
      assert i == |a| && j == |b| ==> Ops(a, b, i, j) == [] by {
        NoOps(a, b);
      }
    }
  }

  lemma OpAtKind(a: seq<string>, b: seq<string>, i: nat, j: nat)
    requires i <= |a| && j <= |b| && (i < |a| || j < |b|)
    ensures i < |a| && j < |b| && a[i] == b[j] ==> OpAt(a, b, i, j).kind == Equal
    ensures i < |a| && OpAt(a, b, i, j).kind == Added ==> j < |b| && Lcs(a, b, i + 1, j) < Lcs(a, b, i, j + 1)
  {}

  /** Of all shortest scripts it is the one that keeps a line as early as it can, and removes lines before it adds
      any. */
  lemma PreferredScript(a: seq<string>, b: seq<string>, script: seq<Op>)
    requires Old(script) == a && New(script) == b && Changes(script) <= Changes(Ops(a, b, 0, 0))
    ensures PreferredTo(Ops(a, b, 0, 0), script)
  {
    hide Ops, Lcs, PreferredTo;
    OpsAreAScript(a, b, 0, 0);
    assert a[0..] == a && b[0..] == b;
    NoneKeepsMore(a, b, 0, 0, script);
    ChangesCount(Ops(a, b, 0, 0));
    ChangesCount(script);
    PreferredFrom(a, b, 0, 0, script);
  }
}
