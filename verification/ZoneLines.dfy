/** Lines and numbers of zone files as they are written by hand, in any layout. */
module ZoneLines {
  import opened Text
  import opened Decimal
  import opened Zones
  import opened ZoneFile
  import opened ZoneFileRoundTrip

  // ---------------------------------------------------------------- numbers

  /** A number out of the range of 64 bits is read as the end of that range, with a sign or without. */
  lemma NumberRead(n: int)
    requires n >= 0
    ensures ReadInt(Itoa(n)) == ReadInt("+" + Itoa(n)) ==
            if n > 0x7FFF_FFFF_FFFF_FFFF then 0x7FFF_FFFF_FFFF_FFFF else n
    ensures ReadInt("-" + Itoa(n)) == if n > 0x8000_0000_0000_0000 then -0x8000_0000_0000_0000 else -n
  {
    hide ReadDigits, Itoa;
    var s := Itoa(n);
    Printed(n, "");
    ReadPrinted(n, "");
    NothingRead(n);
    assert s + "" == s;
    assert ("+" + s)[1..] == s && ("-" + s)[1..] == s;
  }

  lemma NothingRead(n: nat)
    ensures ReadDigits("", n) == (n, "")
  {}

  /** A text that is not of digits behind an optional sign is read as zero. */
  lemma NoNumberRead(s: string, i: nat)
    requires i < |s| && !IsDigit(s[i]) && (i == 0 ==> s[0] != '+' && s[0] != '-')
    ensures ReadInt(s) == 0 && ReadInt("") == ReadInt("+") == ReadInt("-") == 0
  {
    hide ReadDigits;
    if s[0] == '+' || s[0] == '-' {
      assert s[1..][i - 1] == s[i];
    }
    assert "+"[1..] == "" && "-"[1..] == "";
  }

  // ---------------------------------------------------------------- record lines

  predicate Gap(s: string) {
    forall i :: 0 <= i < |s| ==> IsBlank(s[i])
  }

  predicate Letters(s: string) {
    s != "" && forall i :: 0 <= i < |s| ==> IsLetter(s[i])
  }

  predicate Digits(s: string) {
    forall i :: 0 <= i < |s| ==> IsDigit(s[i])
  }

  /** A value and the comment behind it, which starts with a semicolon that is not the value's first character. */
  predicate ValueAnd(v: string, comment: string) {
    v != "" && !IsBlank(v[0]) && (forall i :: 0 < i < |v| ==> v[i] != ';') && (comment != "" ==> comment[0] == ';')
  }

  lemma ValueEnds(v: string, comment: string)
    requires ValueAnd(v, comment)
    ensures ValueEnd(v + comment) == |v| && (v + comment)[..|v|] == v
  {
    var s := v + comment;
    var k := ValueEnd(s);
    forall i | 0 < i < |v| ensures s[i] != ';' {
      assert s[i] == v[i];
    }
    assert comment != "" ==> s[|v|] == comment[0];
    if |v| < k {
      InSlice(s, k, |v|);
    }
  }

  lemma InSlice(s: string, k: nat, j: nat)
    requires 1 <= j < k <= |s|
    ensures s[j] in s[1..k]
  {
    assert s[1..k][j - 1] == s[j];
  }

  /** From the class on: type and value, and a comment that is dropped. */
  lemma TailWritten(g3: string, t: string, g4: string, v: string, comment: string)
    requires Gap(g3) && g3 != "" && Letters(t) && Gap(g4) && g4 != "" && ValueAnd(v, comment)
    ensures MatchTail("IN" + (g3 + (t + (g4 + (v + comment))))) == Some((Upper(t), Trim(v)))
  {
    hide RunLen, Trim, ValueEnd, Upper, IsBlank, IsLetter;
    var whole := v + comment;
    var s6 := g4 + whole;
    var s5 := t + s6;
    var s4 := g3 + s5;
    var s := "IN" + s4;
    BlankIsNoLetter();
    ValueEnds(v, comment);
    assert s[..2] == "IN" && s[2..] == s4;
    assert whole[0] == v[0] && s6[0] == g4[0] && s5[0] == t[0];
    RunOf(g3, s5, IsBlank);
    RunOf(t, s6, IsLetter);
    RunOf(g4, whole, IsBlank);
  }

  lemma BlankIsNoLetter()
    ensures forall c :: IsLetter(c) ==> !IsBlank(c)
    ensures forall c :: IsDigit(c) ==> !IsBlank(c)
    ensures !IsBlank('I') && !IsDigit('I')
  {}

  /** Without a value there is no record, unless a second blank stands behind the type: then its value is empty. */
  lemma TailWithoutValue(g3: string, t: string, g4: string)
    requires Gap(g3) && g3 != "" && Letters(t) && Gap(g4)
    ensures MatchTail("IN" + (g3 + (t + g4))) == if |g4| >= 2 then Some((Upper(t), "")) else None
  {
    hide RunLen, Upper, IsBlank, IsLetter;
    var s5 := t + g4;
    var s4 := g3 + s5;
    var s := "IN" + s4;
    BlankIsNoLetter();
    assert s[..2] == "IN" && s[2..] == s4 && s5[0] == t[0];
    assert g4 + "" == g4;
    RunOf(g3, s5, IsBlank);
    RunOf(t, g4, IsLetter);
    RunOf(g4, "", IsBlank);
  }

  /** In front of the class: the owner, and a number for the TTL or none. */
  lemma HeadWritten(n: string, g1: string, ttl: string, g2: string, s3: string)
    requires NameOk(n) && Gap(g1) && g1 != "" && Digits(ttl) && Gap(g2) && (ttl == "" <==> g2 == "")
    requires HasPrefix(s3, "IN")
    ensures MatchRecord(n + (g1 + (ttl + (g2 + s3)))) ==
            if MatchTail(s3).None? then None
            else Some(Record(n, MatchTail(s3).value.0, if ttl == "" then 0 else ReadInt(ttl), MatchTail(s3).value.1))
  {
    hide RunLen, MatchTail, ReadInt, IsBlank, IsDigit;
    var s2 := ttl + (g2 + s3);
    var s1 := g1 + s2;
    BlankIsNoLetter();
    assert s3[0] == s3[..2][0] == 'I';
    forall i | 0 <= i < |n| ensures IsField(n[i]) {
      assert n[i] in n;
    }
    assert s1[0] == g1[0];
    RunOf(n, s1, IsField);
    assert s2[0] == if ttl == "" then 'I' else ttl[0];
    RunOf(g1, s2, IsBlank);
    if ttl == "" {
      assert s2 == s3;
      NoRun(s2, IsDigit);
    } else {
      assert (g2 + s3)[0] == g2[0];
      BlankIsNoDigit(g2[0]);
      RunOf(ttl, g2 + s3, IsDigit);
      RunOf(g2, s3, IsBlank);
    }
  }

  lemma BlankIsNoDigit(c: char)
    ensures IsBlank(c) ==> !IsDigit(c)
  {}

  /** A record line in any layout: owner, TTL or none, class, type in either case, value and comment, with blanks or
      tabs between them. */
  lemma LineWritten(n: string, g1: string, ttl: string, g2: string, g3: string, t: string, g4: string, v: string,
                    comment: string)
    requires NameOk(n) && Gap(g1) && g1 != "" && Digits(ttl) && Gap(g2) && (ttl == "" <==> g2 == "")
    requires Gap(g3) && g3 != "" && Letters(t) && Gap(g4) && g4 != "" && ValueAnd(v, comment)
    ensures MatchRecord(n + (g1 + (ttl + (g2 + ("IN" + (g3 + (t + (g4 + (v + comment))))))))) ==
            Some(Record(n, Upper(t), if ttl == "" then 0 else ReadInt(ttl), Trim(v)))
  {
    hide *;
    var s3 := "IN" + (g3 + (t + (g4 + (v + comment))));
    TailWritten(g3, t, g4, v, comment);
    InFirst(g3 + (t + (g4 + (v + comment))));
    HeadWritten(n, g1, ttl, g2, s3);
  }

  lemma InFirst(s: string)
    ensures HasPrefix("IN" + s, "IN")
  {
    assert ("IN" + s)[..2] == "IN";
  }

  /** A line is a record when it is no comment, no directive and of one of the eight types. */
  lemma LineCounts(line: string)
    ensures var t := Trim(line); var m := MatchRecord(line);
      ParseLine(line) ==
      if t != "" && t[0] != ';' && t[0] != '$' && m.Some? &&
         (m.value.rtype == "A" || m.value.rtype == "AAAA" || m.value.rtype == "CNAME" || m.value.rtype == "TXT" ||
          m.value.rtype == "NS" || m.value.rtype == "MX" || m.value.rtype == "PTR" || m.value.rtype == "SRV")
      then [m.value] else []
  {
    hide MatchRecord, Trim;
  }

  // ---------------------------------------------------------------- characters

  /** The blanks of a zone file are those of regular expressions: tab, newline, form feed, carriage return and space. */
  lemma BlankCodes(c: char)
    ensures IsBlank(c) <==> c as int == 9 || c as int == 10 || c as int == 12 || c as int == 13 || c as int == 32
  {}

  /** Two characters beside the small letters have a capital letter of ASCII. */
  lemma UpperCodes(c: char)
    ensures 'A' <= UpperChar(c) <= 'Z' <==>
            'A' <= c <= 'Z' || 'a' <= c <= 'z' || c as int == 0x131 || c as int == 0x17F
    ensures c as int == 0x131 ==> UpperChar(c) == 'I'
    ensures c as int == 0x17F ==> UpperChar(c) == 'S'
    ensures 'a' <= c <= 'z' ==> UpperChar(c) as int == c as int - 32
  {}

  // ---------------------------------------------------------------- the default TTL

  lemma UpperStep(s: string)
    requires s != ""
    ensures Upper(s) == [UpperChar(s[0])] + Upper(s[1..])
  {}

  lemma DollarFirst(word: string)
    requires Upper(word) == "$TTL"
    ensures |word| == 4 && word[0] == '$' && !IsBlank(word[0])
  {
    hide Upper;
    UpperStep(word);
    assert Upper(word)[0] == UpperChar(word[0]) == '$';
  }

  /** What is looked for at the start of a line is there, if blanks stand between the word and the number. */
  lemma TtlHere(g: string, word: string, g2: string, d: string, rest: string)
    requires Gap(g) && Upper(word) == "$TTL" && Gap(g2) && Digits(d) && d != "" && (rest == "" || !IsDigit(rest[0]))
    ensures TtlAt(g + (word + (g2 + (d + rest)))) == if g2 == "" then None else Some(d)
  {
    hide *;
    var u := g2 + (d + rest);
    var t := word + u;
    DollarFirst(word);
    DigitFirst(d, rest);
    GapRun(g, t);
    GapRun(g2, d + rest);
    DigitRun(d, rest);
    assert t[..4] == word && t[4..] == u;
    assert u[|g2|..|g2| + |d|] == d;
    TtlAtIs(g + t);
  }

  lemma DigitFirst(d: string, rest: string)
    requires Digits(d) && d != ""
    ensures d + rest != "" && !IsBlank((d + rest)[0])
  {
    BlankIsNoDigit(d[0]);
  }

  lemma GapRun(g: string, rest: string)
    requires Gap(g) && (rest == "" || !IsBlank(rest[0]))
    ensures RunLen(g + rest, IsBlank) == |g| && (g + rest)[|g|..] == rest
  {
    hide IsBlank;
    RunOf(g, rest, IsBlank);
  }

  lemma DigitRun(d: string, rest: string)
    requires Digits(d) && (rest == "" || !IsDigit(rest[0]))
    ensures RunLen(d + rest, IsDigit) == |d|
  {
    hide IsDigit;
    RunOf(d, rest, IsDigit);
  }

  lemma TtlAtIs(s: string)
    ensures var t := s[RunLen(s, IsBlank)..];
      TtlAt(s) ==
      if |t| < 4 || Upper(t[..4]) != "$TTL" then None
      else
        var u := t[4..];
        var b := RunLen(u, IsBlank);
        var d := RunLen(u[b..], IsDigit);
        if b == 0 || d == 0 then None else Some(u[b..b + d])
  {
    hide Upper, RunLen, IsBlank, IsDigit;
  }

  lemma {:induction false} GapJoins(a: string, b: string)
    requires Gap(a) && Gap(b)
    ensures Gap(a + b)
  {
    hide IsBlank;
  }

  lemma NoDollarHere(x: string, s: string)
    requires '$' !in x && !Gap(x)
    ensures TtlAt(x + s) == None
  {
    hide IsBlank, RunLen, Upper;
    var n := RunLen(x, IsBlank);
    var t := x[n..] + s;
    assert x + s == x[..n] + t && t[0] == x[n] && x[n] in x;
    RunOf(x[..n], t, IsBlank);
    if |t| >= 4 {
      UpperDollar(t[..4]);
    }
  }

  lemma FindTtlIs(s: string)
    ensures FindTtl(s) ==
            if TtlAt(s).Some? then TtlAt(s) else if '\n' in s then FindTtl(s[IndexOf(s, '\n') + 1..]) else None
  {
    hide TtlAt;
  }

  /** The default TTL stands behind $TTL, in either case, at the start of a line but for white space; the lines before
      it that hold no dollar sign do not matter. */
  lemma {:induction false} TtlWritten(x: string, g: string, word: string, g2: string, d: string, rest: string)
    requires '$' !in x && (x != "" ==> x[|x| - 1] == '\n')
    requires Gap(g) && Upper(word) == "$TTL" && Gap(g2) && g2 != "" && Digits(d) && d != ""
    requires rest == "" || !IsDigit(rest[0])
    ensures FindTtl(x + (g + (word + (g2 + (d + rest))))) == Some(d)
    decreases |x|
  {
    hide *;
    var s := g + (word + (g2 + (d + rest)));
    FindTtlIs(x + s);
    if Gap(x) {
      GapJoins(x, g);
      TtlHere(x + g, word, g2, d, rest);
      assert x + s == (x + g) + (word + (g2 + (d + rest)));
    } else {
      NoDollarHere(x, s);
      LastIn(x);
      var k := IndexOf(x, '\n');
      FirstLineEnd(x, s);
      var y := x[k + 1..];
      TtlWritten(y, g, word, g2, d, rest);
      assert (x + s)[k + 1..] == y + s;
    }
  }

  lemma LastIn(x: string)
    requires x != "" ==> x[|x| - 1] == '\n'
    ensures !Gap(x) ==> '\n' in x
    ensures '\n' in x ==> IndexOf(x, '\n') < |x|
  {}

  lemma FirstLineEnd(x: string, s: string)
    requires '\n' in x
    ensures '\n' in x + s && IndexOf(x + s, '\n') == IndexOf(x, '\n')
  {
    hide IndexOf;
    var k := IndexOf(x, '\n');
    SplitAt(x, k, s);
    IndexAt(x[..k], x[k + 1..] + s, '\n');
  }

  lemma SplitAt(x: string, k: nat, s: string)
    requires k < |x|
    ensures x + s == x[..k] + [x[k]] + (x[k + 1..] + s)
  {}

  // ---------------------------------------------------------------- the start of authority

  lemma SoaWord(word: string)
    requires Upper(word) == "SOA"
    ensures |word| == 3 && IsS(word[0]) && Upper(word[1..3]) == "OA"
  {
    hide Upper;
    UpperStep(word);
    assert word[1..3] == word[1..];
    assert Upper(word)[0] == UpperChar(word[0]) == 'S';
    assert Upper(word)[1..] == Upper(word[1..]) == "OA";
  }

  lemma {:induction false} LongestAdmin(v: string, admin: string, n: nat)
    requires |admin| <= n <= |v| && OpensBlock(v[|admin|..])
    requires forall k :: |admin| < k <= n ==> !OpensBlock(v[k..])
    ensures AdminLen(v, n) == |admin|
  {
    hide OpensBlock;
    if n > |admin| {
      LongestAdmin(v, admin, n - 1);
    }
  }

  lemma BlockOpens(g3: string, block: string, rest: string)
    requires Gap(g3)
    ensures OpensBlock(g3 + ("(" + block + ")" + rest))
  {
    hide IsBlank, RunLen;
    var y := "(" + block + ")" + rest;
    assert y[0] == '(' && y[|block| + 1] == ')';
    ParenIsField();
    RunOf(g3, y, IsBlank);
  }

  lemma ParenIsField()
    ensures !IsBlank('(')
  {}

  lemma NoBlockOpens(s: string)
    requires '(' !in s
    ensures !OpensBlock(s)
  {
    var t := s[RunLen(s, IsBlank)..];
    assert t != "" ==> t[0] in s;
  }

  lemma AdminWritten(admin: string, g3: string, block: string, rest: string)
    requires NameOk(admin) && Gap(g3) && '(' !in block && '(' !in rest
    ensures var v := admin + (g3 + ("(" + block + ")" + rest)); AdminLen(v, RunLen(v, IsField)) == |admin|
  {
    hide IsBlank, OpensBlock, RunLen, AdminLen;
    var y := "(" + block + ")" + rest;
    var v := admin + (g3 + y);
    var n := RunLen(v, IsField);
    assert v[|admin|..] == g3 + y;
    BlockOpens(g3, block, rest);
    forall i | 0 <= i < |admin| ensures IsField(v[i]) {
      assert v[i] == admin[i] && admin[i] in admin;
    }
    if g3 != "" {
      assert v[|admin|] == g3[0];
      FieldEnds(v, |admin|);
    } else {
      FieldReaches(v, |admin|);
      forall k | |admin| < k <= n ensures !OpensBlock(v[k..]) {
        assert v[k..] == y[k - |admin|..];
        BehindParen(y, k - |admin|);
        NoBlockOpens(v[k..]);
      }
    }
    LongestAdmin(v, admin, n);
  }

  lemma BehindParen(y: string, k: nat)
    requires 1 <= k <= |y| && '(' !in y[1..]
    ensures '(' !in y[k..]
  {
    assert y[k..] == y[1..][k - 1..];
  }

  lemma FieldReaches(v: string, k: nat)
    requires k <= |v| && forall i :: 0 <= i < k ==> IsField(v[i])
    ensures k <= RunLen(v, IsField)
  {}

  lemma FieldEnds(v: string, k: nat)
    requires k < |v| && (forall i :: 0 <= i < k ==> IsField(v[i])) && IsBlank(v[k])
    ensures RunLen(v, IsField) == k
  {}

  /** A start of authority in any layout and in either case: name server and administrator, and the text in the
      parentheses behind them. */
  lemma SoaWritten(word: string, g1: string, ns: string, g2: string, admin: string, g3: string, block: string,
                   rest: string)
    requires Upper(word) == "SOA" && Gap(g1) && g1 != "" && NameOk(ns) && Gap(g2) && g2 != "" && NameOk(admin)
    requires Gap(g3) && '(' !in block && ')' !in block && '(' !in rest
    ensures SoaAt(word + (g1 + (ns + (g2 + (admin + (g3 + ("(" + block + ")" + rest))))))) ==
            Some(Soa(ns, admin, block, rest))
  {
    hide IsBlank, IsS, Upper, RunLen, SoaBlock;
    var y := "(" + block + ")" + rest;
    var v := admin + (g3 + y);
    var u := g2 + v;
    var t := g1 + (ns + u);
    var s := word + t;
    SoaWord(word);
    assert s[0] == word[0] && s[1..3] == word[1..3] && s[3..] == t;
    assert (ns + u)[0] == ns[0] && ns[0] in ns && u[0] == g2[0] && v[0] == admin[0] && admin[0] in admin;
    RunOf(g1, ns + u, IsBlank);
    forall i | 0 <= i < |ns| ensures IsField(ns[i]) {
      assert ns[i] in ns;
    }
    RunOf(ns, u, IsField);
    RunOf(g2, v, IsBlank);
    BlockWritten(ns, admin, g3, block, rest);
  }

  lemma BlockWritten(ns: string, admin: string, g3: string, block: string, rest: string)
    requires NameOk(admin) && Gap(g3) && '(' !in block && ')' !in block && '(' !in rest
    ensures SoaBlock(ns, admin + (g3 + ("(" + block + ")" + rest))) == Some(Soa(ns, admin, block, rest))
  {
    hide *;
    var y := "(" + block + ")" + rest;
    var v := admin + (g3 + y);
    AdminWritten(admin, g3, block, rest);
    ParenIsField();
    GapRun(g3, y);
    ParenCloses(block, rest);
    PiecesOf(admin, g3 + y);
    NameThere(admin);
    SoaBlockIs(ns, v);
  }

  lemma NameThere(n: string)
    requires NameOk(n)
    ensures n != ""
  {}

  lemma PiecesOf(a: string, b: string)
    ensures (a + b)[..|a|] == a && (a + b)[|a|..] == b
  {}

  lemma ParenCloses(block: string, rest: string)
    requires ')' !in block
    ensures var y := "(" + block + ")" + rest;
      && y[0] == '(' && ')' in y && IndexOf(y, ')') == |block| + 1
      && y[1..|block| + 1] == block && y[|block| + 2..] == rest
  {
    var y := "(" + block + ")" + rest;
    assert "(" + block + [')'] + rest == y;
    IndexAt("(" + block, rest, ')');
  }

  lemma SoaBlockIs(ns: string, v: string)
    requires AdminLen(v, RunLen(v, IsField)) > 0
    ensures var a := AdminLen(v, RunLen(v, IsField)); var y := v[a..][RunLen(v[a..], IsBlank)..];
      && ')' in y && IndexOf(y, ')') >= 1
      && SoaBlock(ns, v) == Some(Soa(ns, v[..a], y[1..IndexOf(y, ')')], y[IndexOf(y, ')') + 1..]))
  {
    hide IsBlank, IsField, RunLen, AdminLen, IndexOf;
  }
}
