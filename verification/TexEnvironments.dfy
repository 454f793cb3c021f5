/** Finding a LaTeX environment and the end that matches its beginning. */
module TexEnvironments {
  import opened Text

  function Begin(env: string): string {
    "\\begin{" + env + "}"
  }

  function End(env: string): string {
    "\\end{" + env + "}"
  }

  /** Environment names hold neither a backslash nor a newline. */
  predicate EnvName(env: string) {
    '\\' !in env && '\n' !in env
  }

  predicate At(text: string, pat: string, p: nat) {
    p + |pat| <= |text| && text[p..p + |pat|] == pat
  }

  /** str.find */
  function Find(text: string, pat: string, pos: nat): (r: Option<nat>)
    ensures r.Some? ==> pos <= r.value && At(text, pat, r.value)
    ensures forall p :: pos <= p && (r.Some? ==> p < r.value) ==> !At(text, pat, p)
    decreases |text| - pos
  {
    if pos + |pat| > |text| then None
    else if text[pos..pos + |pat|] == pat then Some(pos)
    else Find(text, pat, pos + 1)
  }

  // ---------------------------------------------------------------- options

  function BraceDepth(c: char, depth: int): int {
    if c == '{' then depth + 1 else if c == '}' then depth - 1 else depth
  }

  /** Where the first closing bracket outside braces is. */
  function Bracket(text: string, i: nat, depth: int): (r: Option<nat>)
    ensures r.Some? ==> i <= r.value < |text| && text[r.value] == ']'
    decreases |text| - i
  {
    if i >= |text| then None
    else if text[i] == ']' && depth == 0 then Some(i)
    else Bracket(text, i + 1, BraceDepth(text[i], depth))
  }

  /** find_bracketed; None stands for the error raised. */
  method FindBracketed(text: string, start: nat) returns (r: Option<(string, nat)>)
    requires start < |text| && text[start] == '['
    ensures var close := Bracket(text, start, 0);
      r == if close.None? then None else Some((text[start + 1..close.value], close.value + 1))
  {
    var depth := 0;
    for i := start to |text|
      invariant Bracket(text, i, depth) == Bracket(text, start, 0)
    {
      var c := text[i];
      if c == '{' {
        depth := depth + 1;
      } else if c == '}' {
        depth := depth - 1;
      } else if c == ']' && depth == 0 {
        return Some((text[start + 1..i], i + 1));
      }
    }
    return None;
  }

  // ---------------------------------------------------------------- the matching end

  /** From k on, with so many environments open: where the end that closes the last of them is. */
  function MatchEnd(text: string, env: string, k: nat, depth: nat): (r: Option<nat>)
    requires depth > 0
    ensures r.Some? ==> k <= r.value && At(text, End(env), r.value)
    decreases |text| - k
  {
    var nb := Find(text, Begin(env), k);
    var ne := Find(text, End(env), k);
    if ne.None? then None
    else if nb.Some? && nb.value < ne.value then MatchEnd(text, env, nb.value + |Begin(env)|, depth + 1)
    else if depth == 1 then ne
    else MatchEnd(text, env, ne.value + |End(env)|, depth - 1)
  }

  datatype Hit = Miss | Failed | Found(start: nat, stop: nat, opts: string, body: string)

  /** Where the body of an environment starts whose beginning ends at j; None when its options never close. */
  function BodyStart(text: string, j: nat): (r: Option<nat>)
    ensures r.Some? ==> j <= r.value && (j <= |text| ==> r.value <= |text|)
  {
    if j < |text| && text[j] == '[' then
      var close := Bracket(text, j, 0);
      if close.None? then None else Some(close.value + 1)
    else Some(j)
  }

  function OptsText(text: string, j: nat, j': nat): string {
    if j + 1 < j' <= |text| then text[j + 1..j' - 1] else ""
  }

  /** find_env from a position */
  function EnvAt(text: string, env: string, pos: nat): (h: Hit)
    ensures h.Found? ==> pos <= h.start < h.stop <= |text|
  {
    var i := Find(text, Begin(env), pos);
    if i.None? then Miss
    else
      var j := i.value + |Begin(env)|;
      var j' := BodyStart(text, j);
      if j'.None? then Failed
      else
        var ne := MatchEnd(text, env, j'.value, 1);
        if ne.None? then Failed
        else Found(i.value, ne.value + |End(env)|, OptsText(text, j, j'.value), text[j'.value..ne.value])
  }

  /** find_env */
  method FindEnv(text: string, env: string, pos: nat) returns (h: Hit)
    ensures h == EnvAt(text, env, pos)
  {
    hide *;
    var begin, end := Begin(env), End(env);
    EnvAtIs(text, env, pos);
    MarkLengths(text, env);
    var i := Find(text, begin, pos);
    if i.None? {
      return Miss;
    }
    var j := i.value + |begin|;
    var opts := "";
    BodyStartIs(text, j);
    if j < |text| && text[j] == '[' {
      var b := FindBracketed(text, j);
      if b.None? {
        return Failed;
      }
      opts, j := b.value.0, b.value.1;
    }
    var depth: nat := 1;
    var k := j;
    var bodyEnd := j;
    while depth > 0
      invariant depth > 0 ==> MatchEnd(text, env, k, depth) == MatchEnd(text, env, j, 1)
      invariant depth == 0 ==> MatchEnd(text, env, j, 1) == Some(bodyEnd) && k == bodyEnd + |end|
      decreases |text| - k, depth
    {
      MatchEndIs(text, env, k, depth);
      var nb := Find(text, begin, k);
      var ne := Find(text, end, k);
      if ne.None? {
        return Failed;
      }
      if nb.Some? && nb.value < ne.value {
        depth := depth + 1;
        k := nb.value + |begin|;
      } else {
        depth := depth - 1;
        k := ne.value + |end|;
        bodyEnd := ne.value;
      }
    }
    h := Found(i.value, k, opts, text[j..bodyEnd]);
  }

  lemma MatchEndIs(text: string, env: string, k: nat, depth: nat)
    requires depth > 0
    ensures var nb := Find(text, Begin(env), k); var ne := Find(text, End(env), k);
      MatchEnd(text, env, k, depth) ==
      if ne.None? then None
      else if nb.Some? && nb.value < ne.value then MatchEnd(text, env, nb.value + |Begin(env)|, depth + 1)
      else if depth == 1 then ne
      else MatchEnd(text, env, ne.value + |End(env)|, depth - 1)
  {
    hide Find, Begin, End, At;
  }

  lemma BodyStartIs(text: string, j: nat)
    ensures BodyStart(text, j) ==
            (if j < |text| && text[j] == '[' then
               (if Bracket(text, j, 0).None? then None else Some(Bracket(text, j, 0).value + 1))
             else Some(j))
    ensures BodyStart(text, j).Some? ==>
              OptsText(text, j, BodyStart(text, j).value) ==
              if j < |text| && text[j] == '[' then text[j + 1..BodyStart(text, j).value - 1] else ""
  {
    hide Bracket;
  }

  lemma EnvAtIs(text: string, env: string, pos: nat)
    ensures var i := Find(text, Begin(env), pos); var j := (if i.Some? then i.value else 0) + |Begin(env)|;
            var j' := BodyStart(text, j);
      EnvAt(text, env, pos) ==
      if i.None? then Miss
      else if j'.None? || MatchEnd(text, env, j'.value, 1).None? then Failed
      else
        var ne := MatchEnd(text, env, j'.value, 1).value;
        Found(i.value, ne + |End(env)|, OptsText(text, j, j'.value), text[j'.value..ne])
  {
    hide Find, Begin, End, At, MatchEnd, BodyStart, OptsText;
  }

  lemma MarkLengths(text: string, env: string)
    ensures |Begin(env)| > 0 && |End(env)| > 0
    ensures forall p: nat :: At(text, Begin(env), p) ==> p + |Begin(env)| <= |text|
    ensures forall p: nat :: At(text, End(env), p) ==> p + |End(env)| <= |text|
  {}

  // ---------------------------------------------------------------- nesting

  /** What a position does to the nesting of the environment. */
  function Turn(text: string, env: string, p: nat): int {
    if At(text, Begin(env), p) then 1 else if At(text, End(env), p) then -1 else 0
  }

  /** Beginnings less ends among the positions from lo up to hi. */
  function Level(text: string, env: string, lo: nat, hi: nat): int
    decreases hi
  {
    if hi <= lo then 0 else Level(text, env, lo, hi - 1) + Turn(text, env, hi - 1)
  }

  /** An end at e that closes what is open with the given depth at k: nothing before it does. */
  ghost predicate Closes(text: string, env: string, k: nat, depth: nat, e: nat) {
    && k <= e && At(text, End(env), e) && depth + Level(text, env, k, e) == 1
    && forall p :: k <= p <= e ==> depth + Level(text, env, k, p) >= 1
  }

  lemma {:induction false} LevelSplits(text: string, env: string, lo: nat, mid: nat, hi: nat)
    requires lo <= mid <= hi
    ensures Level(text, env, lo, hi) == Level(text, env, lo, mid) + Level(text, env, mid, hi)
    decreases hi
  {
    if mid < hi {
      LevelSplits(text, env, lo, mid, hi - 1);
    }
  }

  lemma {:induction false} QuietLevel(text: string, env: string, lo: nat, hi: nat)
    requires forall p :: lo <= p < hi ==> Turn(text, env, p) == 0
    ensures Level(text, env, lo, hi) == 0
    decreases hi
  {
    if lo < hi {
      QuietLevel(text, env, lo, hi - 1);
    }
  }

  /** Nothing begins or ends inside a mark: only its first character is a backslash. */
  lemma InsideMark(text: string, env: string, pat: string, m: nat, p: nat)
    requires EnvName(env) && (pat == Begin(env) || pat == End(env)) && At(text, pat, m) && m < p < m + |pat|
    ensures Turn(text, env, p) == 0
  {
    OneBackslash(env, p - m);
    AtChar(text, pat, m, p - m);
    AtChar(text, Begin(env), p, 0);
    AtChar(text, End(env), p, 0);
  }

  lemma OneBackslash(env: string, i: nat)
    requires EnvName(env)
    ensures Begin(env)[0] == '\\' && End(env)[0] == '\\'
    ensures 0 < i < |Begin(env)| ==> Begin(env)[i] != '\\'
    ensures 0 < i < |End(env)| ==> End(env)[i] != '\\'
  {
    var b, e := Begin(env)[1..], End(env)[1..];
    assert b == "begin{" + env + "}" && e == "end{" + env + "}";
    assert '\\' !in b && '\\' !in e;
    if 0 < i < |Begin(env)| {
      assert Begin(env)[i] == b[i - 1];
    }
    if 0 < i < |End(env)| {
      assert End(env)[i] == e[i - 1];
    }
  }

  lemma MarkTurns(text: string, env: string, m: nat)
    ensures At(text, Begin(env), m) ==> Turn(text, env, m) == 1
    ensures At(text, End(env), m) ==> Turn(text, env, m) == -1
  {
    AtChar(text, Begin(env), m, 1);
    AtChar(text, End(env), m, 1);
  }

  lemma AtChar(text: string, pat: string, m: nat, i: nat)
    requires i < |pat|
    ensures At(text, pat, m) ==> m + i < |text| && text[m + i] == pat[i]
  {
    if At(text, pat, m) {
      assert text[m..m + |pat|][i] == text[m + i];
    }
  }

  /** From k, quiet up to a mark at m and behind it. */
  lemma PastMark(text: string, env: string, k: nat, m: nat, pat: string)
    requires EnvName(env) && (pat == Begin(env) || pat == End(env)) && k <= m && At(text, pat, m)
    requires forall p :: k <= p < m ==> Turn(text, env, p) == 0
    ensures Turn(text, env, m) == (if pat == Begin(env) then 1 else -1)
    ensures forall p :: k <= p <= m ==> Level(text, env, k, p) == 0
    ensures forall p :: m < p <= m + |pat| ==> Level(text, env, k, p) == Turn(text, env, m)
  {
    hide Level, Turn, At, Begin, End;
    MarkTurns(text, env, m);
    BeginIsNotEnd(env);
    forall p | k <= p <= m ensures Level(text, env, k, p) == 0 {
      QuietLevel(text, env, k, p);
    }
    forall p | m < p <= m + |pat| ensures Level(text, env, k, p) == Turn(text, env, m) {
      LevelSplits(text, env, k, m, p);
      LevelSplits(text, env, m, m + 1, p);
      OneLevel(text, env, m);
      forall q | m + 1 <= q < p ensures Turn(text, env, q) == 0 {
        InsideMark(text, env, pat, m, q);
      }
      QuietLevel(text, env, m + 1, p);
    }
  }

  lemma BeginIsNotEnd(env: string)
    ensures Begin(env) != End(env)
  {
    assert Begin(env)[1] == 'b' && End(env)[1] == 'e';
  }

  lemma OneLevel(text: string, env: string, m: nat)
    ensures Level(text, env, m, m + 1) == Turn(text, env, m) && Level(text, env, m, m) == 0
  {}

  /** The next mark of either kind, as the search sees it. */
  lemma NextMark(text: string, env: string, k: nat)
    ensures var nb := Find(text, Begin(env), k); var ne := Find(text, End(env), k);
      && (ne.Some? && nb.Some? && nb.value < ne.value ==> forall p :: k <= p < nb.value ==> Turn(text, env, p) == 0)
      && (ne.Some? && !(nb.Some? && nb.value < ne.value) ==> forall p :: k <= p < ne.value ==> Turn(text, env, p) == 0)
  {
    hide Find;
  }

  /** The search finds an end exactly when that end closes what is open. */
  lemma {:induction false} MatchIsClosing(text: string, env: string, k: nat, depth: nat, e: nat)
    requires EnvName(env) && depth > 0
    ensures MatchEnd(text, env, k, depth) == Some(e) <==> Closes(text, env, k, depth, e)
    decreases |text| - k
  {
    hide Level, Turn, At, Find, Begin, End;
    var nb := Find(text, Begin(env), k);
    var ne := Find(text, End(env), k);
    NextMark(text, env, k);
    if ne.Some? {
      MarkLengths(text, env);
      BeginIsNotEnd(env);
      var opens := nb.Some? && nb.value < ne.value;
      var pat := if opens then Begin(env) else End(env);
      var m := if opens then nb.value else ne.value;
      PastMark(text, env, k, m, pat);
      if opens {
        MatchIsClosing(text, env, m + |pat|, depth + 1, e);
        ClosesBehind(text, env, k, m, pat, depth, e);
      } else if depth > 1 {
        MatchIsClosing(text, env, m + |pat|, depth - 1, e);
        ClosesBehind(text, env, k, m, pat, depth, e);
      } else {
        ClosesHere(text, env, k, m, e);
      }
    }
  }

  lemma ClosesBehind(text: string, env: string, k: nat, m: nat, pat: string, depth: nat, e: nat)
    requires EnvName(env) && k <= m && depth > 0 && |pat| > 0
    requires pat == Begin(env) || (pat == End(env) && depth > 1)
    requires Turn(text, env, m) == (if pat == Begin(env) then 1 else -1)
    requires forall p :: k <= p <= m ==> Level(text, env, k, p) == 0
    requires forall p :: m < p <= m + |pat| ==> Level(text, env, k, p) == Turn(text, env, m)
    requires At(text, pat, m) && forall p :: k <= p < m ==> !At(text, End(env), p)
    ensures Closes(text, env, k, depth, e) <==> Closes(text, env, m + |pat|, depth + Turn(text, env, m), e)
  {
    hide Level, Begin, End, At;
    var t := Turn(text, env, m);
    var k' := m + |pat|;
    BeginIsNotEnd(env);
    forall p | k' <= p ensures Level(text, env, k, p) == t + Level(text, env, k', p) {
      LevelSplits(text, env, k, k', p);
    }
    if Closes(text, env, k, depth, e) && e < k' {
      if e > m {
        InsideMark(text, env, pat, m, e);
        MarkTurns(text, env, e);
        assert false;
      } else {
        assert e == m;
        MarkTurns(text, env, e);
        assert false;
      }
    }
  }

  lemma ClosesHere(text: string, env: string, k: nat, m: nat, e: nat)
    requires EnvName(env) && k <= m && At(text, End(env), m) && |End(env)| > 0 && Turn(text, env, m) == -1
    requires forall p :: k <= p <= m ==> Level(text, env, k, p) == 0
    requires forall p :: m < p <= m + |End(env)| ==> Level(text, env, k, p) == -1
    requires forall p :: k <= p < m ==> !At(text, End(env), p)
    ensures Closes(text, env, k, 1, e) <==> e == m
  {
    hide Level, Begin, End, At, Turn;
    if e > m {
      assert k <= m + 1 <= e && 1 + Level(text, env, k, m + 1) == 0;
    }
  }

  predicate FirstBegin(text: string, env: string, pos: nat, i: nat) {
    pos <= i && At(text, Begin(env), i) && forall p: nat :: pos <= p < i ==> !At(text, Begin(env), p)
  }

  ghost predicate NeverCloses(text: string, env: string, j: nat) {
    forall e: nat :: !Closes(text, env, j, 1, e)
  }

  /** The body of a hit runs from behind the options of the first beginning to the end that closes it. */
  ghost predicate MatchedAt(text: string, env: string, pos: nat, h: Hit, j: nat, e: nat)
    requires h.Found?
  {
    && FirstBegin(text, env, pos, h.start) && BodyStart(text, h.start + |Begin(env)|) == Some(j)
    && Closes(text, env, j, 1, e) && j <= e <= |text| && h.body == text[j..e] && h.stop == e + |End(env)|
  }

  lemma FindIsFirst(text: string, env: string, pos: nat)
    ensures var i := Find(text, Begin(env), pos);
      if i.Some? then FirstBegin(text, env, pos, i.value) else forall p: nat :: pos <= p ==> !At(text, Begin(env), p)
  {
    hide Find;
  }

  /** find_env: the first beginning at or behind the position, and the one end that closes it with environments of the
      same name inside counted; it fails exactly when the options of that beginning never close or no end does. */
  lemma EnvIsMatched(text: string, env: string, pos: nat)
    requires EnvName(env)
    ensures var h := EnvAt(text, env, pos);
      && (h.Miss? <==> forall p: nat :: pos <= p ==> !At(text, Begin(env), p))
      && (h.Found? ==> exists j: nat, e: nat :: MatchedAt(text, env, pos, h, j, e))
      && (h.Failed? ==>
            exists i: nat :: FirstBegin(text, env, pos, i) &&
              (BodyStart(text, i + |Begin(env)|).None? ||
               NeverCloses(text, env, BodyStart(text, i + |Begin(env)|).value)))
  {
    hide *;
    EnvAtIs(text, env, pos);
    FindIsFirst(text, env, pos);
    MarkLengths(text, env);
    FirstIsBegin(text, env, pos);
    var i := Find(text, Begin(env), pos);
    if i.Some? {
      var j := BodyStart(text, i.value + |Begin(env)|);
      if j.Some? {
        var m := MatchEnd(text, env, j.value, 1);
        if m.Some? {
          MatchIsClosing(text, env, j.value, 1, m.value);
          EndFits(text, env, j.value);
          MatchedIs(text, env, pos, EnvAt(text, env, pos), j.value, m.value);
        } else {
          forall e: nat ensures !Closes(text, env, j.value, 1, e) {
            MatchIsClosing(text, env, j.value, 1, e);
          }
          NeverIs(text, env, j.value);
        }
      }
    }
  }

  lemma FirstIsBegin(text: string, env: string, pos: nat)
    ensures forall i: nat :: FirstBegin(text, env, pos, i) ==> pos <= i && At(text, Begin(env), i)
  {}

  lemma EndFits(text: string, env: string, j: nat)
    ensures MatchEnd(text, env, j, 1).Some? ==> j <= MatchEnd(text, env, j, 1).value <= |text|
  {
    hide MatchEnd;
  }

  lemma NeverIs(text: string, env: string, j: nat)
    requires forall e: nat :: !Closes(text, env, j, 1, e)
    ensures NeverCloses(text, env, j)
  {
    hide Closes;
  }

  lemma MatchedIs(text: string, env: string, pos: nat, h: Hit, j: nat, e: nat)
    requires h.Found? && FirstBegin(text, env, pos, h.start) && BodyStart(text, h.start + |Begin(env)|) == Some(j)
    requires Closes(text, env, j, 1, e) && j <= e <= |text| && h.body == text[j..e] && h.stop == e + |End(env)|
    ensures MatchedAt(text, env, pos, h, j, e)
  {
    hide FirstBegin, Closes, BodyStart;
  }

  /** Only one end closes what is open. */
  lemma OneEndCloses(text: string, env: string, j: nat, e: nat, f: nat)
    requires EnvName(env) && Closes(text, env, j, 1, e) && Closes(text, env, j, 1, f)
    ensures e == f
  {
    hide Closes;
    MatchIsClosing(text, env, j, 1, e);
    MatchIsClosing(text, env, j, 1, f);
  }
}
