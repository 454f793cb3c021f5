/** Strings as the agent's Go code handles them: white space, trimming, joining and splitting. */
module Text {

  datatype Option<+T> = None | Some(value: T)
  {
    function GetOr(default: T): T {
      if Some? then value else default
    }
  }

  /** unicode.IsSpace, which strings.TrimSpace strips. */
  predicate IsSpace(c: char) {
    c == ' ' || '\U{09}' <= c <= '\U{0D}' || c == '\U{85}' || c == '\U{A0}' || c == '\U{1680}' ||
    '\U{2000}' <= c <= '\U{200A}' || c == '\U{2028}' || c == '\U{2029}' || c == '\U{202F}' ||
    c == '\U{205F}' || c == '\U{3000}'
  }

  function TrimLeft(s: string): string {
    if s != "" && IsSpace(s[0]) then TrimLeft(s[1..]) else s
  }

  function TrimRight(s: string): string {
    if s != "" && IsSpace(s[|s| - 1]) then TrimRight(s[..|s| - 1]) else s
  }

  /** strings.TrimSpace */
  function Trim(s: string): string {
    TrimRight(TrimLeft(s))
  }

  /** Neither end is white space; such a text is its own Trim. */
  predicate Trimmed(s: string) {
    s != "" ==> !IsSpace(s[0]) && !IsSpace(s[|s| - 1])
  }

  lemma TrimmedIsTrim(v: string)
    requires Trimmed(v)
    ensures Trim(v) == v
  {}

  predicate HasPrefix(s: string, p: string) {
    |p| <= |s| && s[..|p|] == p
  }

  predicate HasSuffix(s: string, p: string) {
    |p| <= |s| && s[|s| - |p|..] == p
  }

  /** strings.TrimSuffix */
  function TrimSuffix(s: string, p: string): string {
    if HasSuffix(s, p) then s[..|s| - |p|] else s
  }

  /** Length of the longest prefix of characters of a kind. */
  function RunLen(s: string, p: char -> bool): (n: nat)
    ensures n <= |s| && (forall i :: 0 <= i < n ==> p(s[i])) && (n < |s| ==> !p(s[n]))
  {
    if s == "" || !p(s[0]) then 0 else 1 + RunLen(s[1..], p)
  }

  lemma RunOf(a: string, rest: string, p: char -> bool)
    requires forall i :: 0 <= i < |a| ==> p(a[i])
    requires rest == "" || !p(rest[0])
    ensures RunLen(a + rest, p) == |a| && (a + rest)[..|a|] == a && (a + rest)[|a|..] == rest
  {
    var s := a + rest;
    assert forall i :: 0 <= i < |a| ==> s[i] == a[i];
    assert rest != "" ==> s[|a|] == rest[0];
  }

  lemma NoRun(s: string, p: char -> bool)
    requires s == "" || !p(s[0])
    ensures RunLen(s, p) == 0 && s[0..] == s
  {}

  /** strings.Repeat(" ", n) */
  function Spaces(n: nat): (s: string)
    ensures |s| == n && forall k :: 0 <= k < n ==> s[k] == ' '
  {
    if n == 0 then "" else " " + Spaces(n - 1)
  }

  /** strings.Join */
  function Join(parts: seq<string>, sep: string): string {
    if parts == [] then "" else if |parts| == 1 then parts[0] else parts[0] + sep + Join(parts[1..], sep)
  }

  function Concat(parts: seq<string>): string {
    if parts == [] then "" else parts[0] + Concat(parts[1..])
  }

  lemma Assoc<T>(a: seq<T>, b: seq<T>, c: seq<T>)
    ensures (a + b) + c == a + (b + c)
  {}

  lemma Assoc4<T>(a: seq<T>, b: seq<T>, c: seq<T>, d: seq<T>)
    ensures (a + (b + c)) + d == a + (b + (c + d))
  {}

  lemma Assoc5<T>(a: seq<T>, b: seq<T>, c: seq<T>, d: seq<T>, e: seq<T>)
    ensures (a + (b + (c + d))) + e == a + (b + (c + (d + e)))
  {
    Assoc4(b, c, d, e);
    Assoc(a, b + (c + d), e);
  }

  lemma {:induction false} ConcatAppend(a: seq<string>, b: seq<string>)
    ensures Concat(a + b) == Concat(a) + Concat(b)
  {
    if a == [] {
      assert a + b == b;
    } else {
      ConcatAppend(a[1..], b);
      assert (a + b)[1..] == a[1..] + b;
      Assoc(a[0], Concat(a[1..]), Concat(b));
    }
  }

  lemma {:induction false} JoinAppend(a: seq<string>, b: seq<string>, sep: string)
    requires a != [] && b != []
    ensures Join(a + b, sep) == Join(a, sep) + sep + Join(b, sep)
  {
    assert (a + b)[1..] == a[1..] + b;
    if |a| > 1 {
      JoinAppend(a[1..], b, sep);
    } else {
      assert a[1..] + b == b;
    }
  }

  /** Lines written one after the other, each with its newline. */
  function Unlines(lines: seq<string>): string {
    if lines == [] then "" else lines[0] + "\n" + Unlines(lines[1..])
  }

  lemma {:induction false} UnlinesAppend(a: seq<string>, b: seq<string>)
    ensures Unlines(a + b) == Unlines(a) + Unlines(b)
  {
    if a == [] {
      assert a + b == b;
    } else {
      UnlinesAppend(a[1..], b);
      assert (a + b)[1..] == a[1..] + b;
      Assoc(a[0] + "\n", Unlines(a[1..]), Unlines(b));
    }
  }

  // ---------------------------------------------------------------- splitting

  /** strings.Split, at every occurrence of one character */
  function Split(s: string, c: char): (parts: seq<string>)
    ensures parts != []
    decreases |s|
  {
    if c !in s then [s]
    else
      var k := IndexOf(s, c);
      [s[..k]] + Split(s[k + 1..], c)
  }

  function IndexOf(s: string, c: char): (k: nat)
    requires c in s
    ensures k < |s| && s[k] == c && c !in s[..k]
  {
    if s[0] == c then 0 else 1 + IndexOf(s[1..], c)
  }

  predicate NoneHas(parts: seq<string>, c: char) {
    forall p :: p in parts ==> c !in p
  }

  lemma {:induction false} SplitJoins(s: string, c: char)
    ensures Join(Split(s, c), [c]) == s && NoneHas(Split(s, c), c)
    decreases |s|
  {
    if c in s {
      var k := IndexOf(s, c);
      SplitJoins(s[k + 1..], c);
      assert Split(s, c)[1..] == Split(s[k + 1..], c);
      assert s[..k] + [c] + s[k + 1..] == s;
    }
  }

  lemma SplitOne(part: string, rest: string, c: char)
    requires c !in part
    ensures Split(part + [c] + rest, c) == [part] + Split(rest, c)
  {
    var s := part + [c] + rest;
    IndexAt(part, rest, c);
    assert s[|part|] == c;
    assert s[..|part|] == part && s[|part| + 1..] == rest;
  }

  lemma {:induction false} IndexAt(part: string, rest: string, c: char)
    requires c !in part
    ensures c in part + [c] + rest && IndexOf(part + [c] + rest, c) == |part|
  {
    var s := part + [c] + rest;
    assert s[|part|] == c;
    if part != "" {
      IndexAt(part[1..], rest, c);
      assert s[1..] == part[1..] + [c] + rest;
    }
  }

  lemma {:induction false} JoinSplits(parts: seq<string>, c: char)
    requires parts != [] && NoneHas(parts, c)
    ensures Split(Join(parts, [c]), c) == parts
  {
    if |parts| > 1 {
      JoinSplits(parts[1..], c);
      SplitOne(parts[0], Join(parts[1..], [c]), c);
    } else {
      assert parts == [parts[0]];
    }
  }

  /** Splitting written lines and a text behind them gives the lines, and then those of the text. */
  lemma {:induction false} SplitBehind(lines: seq<string>, more: string)
    requires NoneHas(lines, '\n')
    ensures Split(Unlines(lines) + more, '\n') == lines + Split(more, '\n')
  {
    hide Split;
    if lines == [] {
      assert Unlines(lines) + more == more;
      assert lines + Split(more, '\n') == Split(more, '\n');
    } else {
      SplitBehind(lines[1..], more);
      SplitOne(lines[0], Unlines(lines[1..]) + more, '\n');
      assert Unlines(lines) + more == lines[0] + "\n" + (Unlines(lines[1..]) + more);
      assert [lines[0]] + (lines[1..] + Split(more, '\n')) == lines + Split(more, '\n');
    }
  }

  /** Splitting written lines gives them back, and the empty text behind the last newline. */
  lemma SplitUnlines(lines: seq<string>)
    requires NoneHas(lines, '\n')
    ensures Split(Unlines(lines), '\n') == lines + [""]
  {
    hide Unlines;
    SplitBehind(lines, "");
    assert Unlines(lines) + "" == Unlines(lines);
  }

  /** The white space of Unicode, by code. */
  lemma SpaceCodes(c: char)
    ensures IsSpace(c) <==>
            c as int in [9, 10, 11, 12, 13, 32, 133, 160, 5760, 8192, 8193, 8194, 8195, 8196, 8197, 8198, 8199, 8200,
                         8201, 8202, 8232, 8233, 8239, 8287, 12288]
  {}

  /** Trimming takes the white space around a text off, and nothing else. */
  lemma TrimIs(a: string, t: string, b: string)
    requires (forall c :: c in a || c in b ==> IsSpace(c)) && Trimmed(t)
    ensures Trim(a + t + b) == t
  {
    hide IsSpace;
    assert a + t + b == a + (t + b);
    TrimsLeft(a, t + b);
    if t == "" {
      assert "" + b == b;
      TrimsLeft(b, "");
      assert b + "" == b;
    } else {
      assert (t + b)[0] == t[0];
      TrimsRight(t, b);
    }
  }

  lemma {:induction false} TrimsLeft(a: string, rest: string)
    requires forall c :: c in a ==> IsSpace(c)
    ensures TrimLeft(a + rest) == TrimLeft(rest)
  {
    if a == "" {
      assert a + rest == rest;
    } else {
      assert (a + rest)[0] == a[0] && (a + rest)[1..] == a[1..] + rest;
      TrimsLeft(a[1..], rest);
    }
  }

  lemma {:induction false} TrimsRight(t: string, b: string)
    requires forall c :: c in b ==> IsSpace(c)
    ensures TrimRight(t + b) == TrimRight(t)
  {
    if b == "" {
      assert t + b == t;
    } else {
      var n := |b| - 1;
      assert (t + b)[|t + b| - 1] == b[n] && (t + b)[..|t + b| - 1] == t + b[..n];
      TrimsRight(t, b[..n]);
    }
  }
}
