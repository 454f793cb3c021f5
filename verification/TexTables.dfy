/** The rows and columns of a LaTeX table. */
module TexTables {
  import opened Text
  import opened TexEnvironments
  import opened TexStrings

  // ---------------------------------------------------------------- commands dropped from a row

  /** The length of a rule command in front of a text, or 0. */
  function RuleLen(s: string): (n: nat)
    ensures n <= |s|
  {
    if HasPrefix(s, "\\toprule") || HasPrefix(s, "\\midrule") then 8
    else if HasPrefix(s, "\\bottomrule") then 11
    else if HasPrefix(s, "\\hline") then 6
    else 0
  }

  function DropRules(s: string): string {
    if s == "" then ""
    else if RuleLen(s) > 0 then DropRules(s[RuleLen(s)..])
    else [s[0]] + DropRules(s[1..])
  }

  /** The length of a spacing command in front of a text, with its option in brackets when that closes, or 0. */
  function SpacingLen(s: string): (n: nat)
    ensures n <= |s|
  {
    if !HasPrefix(s, "\\addlinespace") then 0
    else if |s| > 13 && s[13] == '[' then
      var close := Find(s, "]", 14);
      if close.None? then 13 else close.value + 1
    else 13
  }

  function DropSpacing(s: string): string {
    if s == "" then ""
    else if SpacingLen(s) > 0 then DropSpacing(s[SpacingLen(s)..])
    else [s[0]] + DropSpacing(s[1..])
  }

  /** A row without its rules and spacing. */
  function CleanRow(raw: string): string {
    Strip(DropSpacing(DropRules(Strip(raw))))
  }

  predicate HasMidrule(raw: string) {
    Find(Strip(raw), "\\midrule", 0).Some?
  }

  // ---------------------------------------------------------------- rows and cells

  /** The texts between double backslashes. */
  function SplitRows(s: string): (rows: seq<string>)
    ensures rows != []
  {
    var k := Find(s, "\\\\", 0);
    if k.None? then [s] else [s[..k.value]] + SplitRows(s[k.value + 2..])
  }

  /** Where a cell ends: at the first ampersand behind no backslash. */
  function CellEnd(r: string, i: nat): (k: nat)
    requires i <= |r|
    ensures i <= k <= |r|
    decreases |r| - i
  {
    if i == |r| || (r[i] == '&' && !Escaped(r, i)) then i else CellEnd(r, i + 1)
  }

  function Cells(r: string): (cells: seq<string>)
    ensures cells != []
  {
    var k := CellEnd(r, 0);
    if k == |r| then [Strip(r)] else [Strip(r[..k])] + Cells(r[k + 1..])
  }

  /** The column letters, the rows of the head and those of the body. */
  datatype Parts = Parts(spec: string, head: seq<seq<string>>, rows: seq<seq<string>>)

  function Letters(spec: string): string {
    if spec == "" then "" else (if spec[0] in "lcrp" then [spec[0]] else "") + Letters(spec[1..])
  }

  /** The rows of the head and of the body; the head ends with the row in which a middle rule stands. */
  function Gather(raws: seq<string>, head: bool): (seq<seq<string>>, seq<seq<string>>) {
    if raws == [] then ([], [])
    else if Strip(raws[0]) == "" then Gather(raws[1..], head)
    else
      var inHead := head && !HasMidrule(raws[0]);
      var more := Gather(raws[1..], inHead);
      if CleanRow(raws[0]) == "" then more
      else if inHead then ([Cells(CleanRow(raws[0]))] + more.0, more.1)
      else (more.0, [Cells(CleanRow(raws[0]))] + more.1)
  }

  /** A table without a body has its head for one. */
  function PartsOf(spec: string, tbody: string): Parts {
    var (head, rows) := Gather(SplitRows(tbody), true);
    if head != [] && rows == [] then Parts(Letters(spec), [], head) else Parts(Letters(spec), head, rows)
  }

  /** The loop over the rows. */
  method ReadParts(spec: string, tbody: string) returns (p: Parts)
    ensures p == PartsOf(spec, tbody)
  {
    hide Strip, DropRules, DropSpacing, Find, Cells, SplitRows, Letters;
    var raws := SplitRows(tbody);
    var rowsHead: seq<seq<string>>, rowsBody: seq<seq<string>> := [], [];
    var head := true;
    NothingYet(Gather(raws, true));
    for i := 0 to |raws|
      invariant Behind(rowsHead, rowsBody, Gather(raws[i..], head)) == Gather(raws, true)
    {
      assert raws[i..][1..] == raws[i + 1..];
      var r := Strip(raws[i]);
      if r == "" {
        continue;
      }
      if Find(r, "\\midrule", 0).Some? {
        head := false;
      }
      r := Strip(DropSpacing(DropRules(r)));
      if r == "" {
        continue;
      }
      var more := Gather(raws[i + 1..], head);
      if head {
        Assoc(rowsHead, [Cells(r)], more.0);
        rowsHead := rowsHead + [Cells(r)];
      } else {
        Assoc(rowsBody, [Cells(r)], more.1);
        rowsBody := rowsBody + [Cells(r)];
      }
    }
    assert rowsHead + [] == rowsHead && rowsBody + [] == rowsBody;
    if rowsHead != [] && rowsBody == [] {
      rowsBody, rowsHead := rowsHead, [];
    }
    p := Parts(Letters(spec), rowsHead, rowsBody);
  }

  function Behind<T>(a: seq<T>, b: seq<T>, more: (seq<T>, seq<T>)): (seq<T>, seq<T>) {
    (a + more.0, b + more.1)
  }

  lemma NothingYet<T>(more: (seq<T>, seq<T>))
    ensures Behind([], [], more) == more
  {
    assert [] + more.0 == more.0 && [] + more.1 == more.1;
  }

  // ---------------------------------------------------------------- head and body

  /** The rows of raw ones, wherever they go. */
  function AllRows(raws: seq<string>): seq<seq<string>> {
    if raws == [] then []
    else (if CleanRow(raws[0]) == "" then [] else [Cells(CleanRow(raws[0]))]) + AllRows(raws[1..])
  }

  lemma NoRow(raw: string)
    requires Strip(raw) == ""
    ensures CleanRow(raw) == ""
  {
    assert Strip("") == "";
  }

  lemma {:induction false} BodyOnly(raws: seq<string>)
    ensures Gather(raws, false) == ([], AllRows(raws))
  {
    hide Strip, CleanRow, Cells, HasMidrule;
    if raws != [] {
      BodyOnly(raws[1..]);
      if Strip(raws[0]) == "" {
        NoRow(raws[0]);
      }
      assert [] + AllRows(raws[1..]) == AllRows(raws[1..]);
    }
  }

  lemma {:induction false} HeadFirst(a: seq<string>, b: seq<string>)
    requires forall r :: r in a ==> !HasMidrule(r)
    requires b != [] ==> Strip(b[0]) != "" && HasMidrule(b[0])
    ensures Gather(a + b, true) == (AllRows(a), AllRows(b))
  {
    hide Strip, CleanRow, Cells, HasMidrule;
    if a == [] {
      assert a + b == b;
      if b != [] {
        BodyOnly(b);
        BodyOnly(b[1..]);
      }
    } else {
      assert (a + b)[1..] == a[1..] + b;
      HeadFirst(a[1..], b);
      if Strip(a[0]) == "" {
        NoRow(a[0]);
      }
      assert [] + AllRows(a[1..]) == AllRows(a[1..]);
    }
  }

  /** The head of a table is made of the rows before the first that has a middle rule, the body of that and all others,
      when both have rows; a table without a middle rule, or with nothing behind it, is all body. */
  lemma HeadAndBody(spec: string, tbody: string, a: seq<string>, b: seq<string>)
    requires SplitRows(tbody) == a + b && forall r :: r in a ==> !HasMidrule(r)
    requires b != [] ==> HasMidrule(b[0])
    ensures var p := PartsOf(spec, tbody);
      && p.rows == (if AllRows(b) == [] then AllRows(a) else AllRows(b))
      && p.head == (if AllRows(b) == [] then [] else AllRows(a))
  {
    hide SplitRows, Strip, CleanRow, Cells, HasMidrule;
    if b != [] {
      MidruleThere(b[0]);
    }
    HeadFirst(a, b);
  }

  lemma MidruleThere(raw: string)
    requires HasMidrule(raw)
    ensures Strip(raw) != ""
  {
    hide Strip;
  }
}
