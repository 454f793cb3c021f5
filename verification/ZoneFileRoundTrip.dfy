/** A zone file gives back the zone it was rendered from. */
module ZoneFileRoundTrip {
  import opened Text
  import opened Decimal
  import opened Zones
  import opened ZoneFile
  import ReverseZones

  // ---------------------------------------------------------------- well-formed records

  /** An owner without the blanks that end a field, and whose line is no comment and no directive. */
  predicate OwnerKept(n: string) {
    (forall c | c in n :: !IsBlank(c)) && (n != "" ==> Trim(n) != "" && Trim(n)[0] != ';' && Trim(n)[0] != '$')
  }

  /** A record whose owner, type and value stand on a line of their own. */
  predicate RecordOk(r: Record) {
    && OwnerKept(r.name)
    && Upper(r.rtype) in RecordTypes() && r.ttl <= MAX_INT
    && r.value != "" && Trimmed(r.value) && '\n' !in r.value
  }

  /** Nothing in it that the file gives another meaning. */
  predicate RecordPlain(r: Record) {
    r.value != "" ==> ';' !in r.value[1..]
  }

  /** A record as it is read back. */
  function Normal(r: Record): Record {
    Record(ShownName(r), Upper(r.rtype), if r.ttl > 0 then r.ttl else 0, r.value)
  }

  function Normals(rs: seq<Record>): seq<Record> {
    if rs == [] then [] else [Normal(rs[0])] + Normals(rs[1..])
  }

  predicate NameOk(s: string) {
    s != "" && forall c | c in s :: !IsBlank(c)
  }

  // ---------------------------------------------------------------- runs

  lemma Printed(n: int, rest: string)
    requires n >= 0 && (rest == "" || !IsDigit(rest[0]))
    ensures IntText(n) == Itoa(n) && RunLen(IntText(n) + rest, IsDigit) == |IntText(n)|
    ensures (IntText(n) + rest)[..|IntText(n)|] == IntText(n) && (IntText(n) + rest)[|IntText(n)|..] == rest
    ensures IntText(n) != "" && IsDigit(IntText(n)[0]) && !IsBlank(IntText(n)[0])
  {
    forall i | 0 <= i < |Itoa(n)| ensures IsDigit(Itoa(n)[i]) {
      assert Itoa(n)[i] in Itoa(n);
    }
    RunOf(Itoa(n), rest, IsDigit);
  }

  /** Integers in range survive printing and reading. */
  lemma IntReads(n: int)
    requires MIN_INT <= n <= MAX_INT
    ensures ReadInt(IntText(n)) == n
  {
    var m := if n < 0 then -n else n;
    Printed(m, "");
    ReadPrinted(m, "");
    assert Itoa(m) + "" == Itoa(m);
    if n < 0 {
      assert IntText(n)[1..] == Itoa(m);
    }
  }

  // ---------------------------------------------------------------- one record

  lemma PadGap(s: string, w: nat) returns (g: nat)
    ensures g >= 2 && Pad(s, w) + "  " == s + Spaces(g)
  {
    g := if |s| < w then w - |s| + 2 else 2;
    SpacesEnd(g - 2);
    if |s| < w {
      Assoc(s, Spaces(w - |s|), "  ");
    }
  }

  lemma {:induction false} SpacesEnd(n: nat)
    ensures Spaces(n) + "  " == Spaces(n + 2)
  {
    if n > 0 {
      SpacesEnd(n - 1);
      Assoc(" ", Spaces(n - 1), "  ");
    } else {
      assert Spaces(2) == " " + (" " + "");
    }
  }

  lemma {:induction false} SpacesJoin(m: nat, n: nat)
    ensures Spaces(m) + Spaces(n) == Spaces(m + n)
  {
    if m > 0 {
      SpacesJoin(m - 1, n);
      Assoc(" ", Spaces(m - 1), Spaces(n));
    } else {
      assert "" + Spaces(n) == Spaces(n);
    }
  }

  predicate AllCapitals(t: string) {
    forall i :: 0 <= i < |t| ==> 'A' <= t[i] <= 'Z'
  }

  lemma {:induction false} UpperCapitals(t: string)
    requires AllCapitals(t)
    ensures Upper(t) == t
  {
    if t != "" {
      UpperCapitals(t[1..]);
    }
  }

  lemma TypeCapitals(t: string)
    requires t in RecordTypes()
    ensures t != "" && AllCapitals(t) && t != "SOA"
  {}

  lemma TypeLetters(t: string)
    requires t in RecordTypes()
    ensures t != "" && Upper(t) == t && (forall i :: 0 <= i < |t| ==> IsLetter(t[i]))
  {
    hide Upper, RecordTypes;
    TypeCapitals(t);
    UpperCapitals(t);
  }

  function ValueRead(v: string): string
    requires v != ""
  {
    Trim(v[..ValueEnd(v)])
  }

  lemma BlankRun(g: nat, rest: string)
    requires rest == "" || !IsBlank(rest[0])
    ensures RunLen(Spaces(g) + rest, IsBlank) == g && (Spaces(g) + rest)[g..] == rest
  {
    RunOf(Spaces(g), rest, IsBlank);
  }

  lemma TailReads(t: string, g: nat, v: string)
    requires t in RecordTypes() && g >= 1 && v != "" && !IsBlank(v[0])
    ensures MatchTail("IN" + (Spaces(2) + (t + (Spaces(g) + v)))) == Some((t, ValueRead(v)))
  {
    hide RunLen, Trim, ValueEnd, Upper, Spaces;
    TypeLetters(t);
    var s6 := Spaces(g) + v;
    var s5 := t + s6;
    var s4 := Spaces(2) + s5;
    var s := "IN" + s4;
    assert s[..2] == "IN" && s[2..] == s4;
    assert s6[0] == ' ';
    BlankRun(2, s5);
    RunOf(t, s6, IsLetter);
    BlankRun(g, v);
  }

  /** With a TTL between owner and class, or without. */
  lemma HeadReads(n: string, g: nat, ttl: string, g2: nat, s3: string)
    requires NameOk(n) && g >= 1 && HasPrefix(s3, "IN")
    requires ttl == "" || (g2 >= 1 && forall c | c in ttl :: IsDigit(c))
    ensures MatchRecord(n + (Spaces(g) + (ttl + (Spaces(if ttl == "" then 0 else g2) + s3)))) ==
            if MatchTail(s3).None? then None
            else Some(Record(n, MatchTail(s3).value.0, if ttl == "" then 0 else ReadInt(ttl), MatchTail(s3).value.1))
  {
    hide RunLen, MatchTail, ReadInt, Spaces;
    var gap := if ttl == "" then 0 else g2;
    var s2 := ttl + (Spaces(gap) + s3);
    var s1 := Spaces(g) + s2;
    assert s3[0] == s3[..2][0] == 'I';
    forall i | 0 <= i < |n| ensures IsField(n[i]) {
      assert n[i] in n;
    }
    assert s1[0] == ' ';
    RunOf(n, s1, IsField);
    if ttl == "" {
      assert Spaces(0) == "";
      assert s2 == s3;
      BlankRun(g, s3);
      NoRun(s3, IsDigit);
    } else {
      forall i | 0 <= i < |ttl| ensures IsDigit(ttl[i]) {
        assert ttl[i] in ttl;
      }
      assert s2[0] == ttl[0];
      BlankRun(g, s2);
      assert (Spaces(g2) + s3)[0] == ' ';
      RunOf(ttl, Spaces(g2) + s3, IsDigit);
      BlankRun(g2, s3);
    }
  }

  /** The line of a record as lexemes and gaps. */
  lemma LineShape(r: Record, w: Widths) returns (g: nat, g2: nat, g3: nat)
    requires w.hasTtl || r.ttl <= 0
    ensures g >= 1 && g2 >= 1 && g3 >= 1
    ensures RecordLine(r, w) ==
            ShownName(r) + (Spaces(g) + (TtlText(r) + (Spaces(if TtlText(r) == "" then 0 else g2) +
            ("IN" + (Spaces(2) + (Upper(r.rtype) + (Spaces(g3) + r.value)))))))
  {
    hide Upper, IntText, Pad;
    var n, ttl, t := ShownName(r), TtlText(r), Upper(r.rtype);
    var g0 := PadGap(n, w.name);
    g3 := PadGap(t, w.rtype);
    g2 := PadGap(ttl, w.ttl);
    var col := TtlColumn(r, w);
    g := g0;
    assert "IN  " == "IN" + Spaces(2);
    var tail := Spaces(2) + (t + (Spaces(g3) + r.value));
    assert col == ttl + (if w.hasTtl then Spaces(g2) else "") by {
      assert ttl + "" == ttl;
    }
    if ttl == "" && w.hasTtl {
      g := g0 + g2;
      SpacesJoin(g0, g2);
    }
    LineGlue(Pad(n, w.name) + "  ", n, Spaces(g0), col, ttl, if w.hasTtl then Spaces(g2) else "", Pad(t, w.rtype), t,
             Spaces(g3), r.value);
    if ttl == "" {
      assert w.hasTtl ==> Spaces(g0) + ("" + (Spaces(g2) + ("IN" + tail))) == Spaces(g) + ("" + ("" + ("IN" + tail)));
      assert Spaces(0) == "";
    } else {
      assert w.hasTtl by {
        TtlShown(r);
      }
    }
  }

  lemma TtlShown(r: Record)
    ensures TtlText(r) != "" <==> r.ttl > 0
  {
    if r.ttl > 0 {
      Printed(r.ttl, "");
    }
  }

  lemma LineGlue(head: string, n: string, g: string, col: string, ttl: string, g2: string, padded: string, t: string,
                 g3: string, v: string)
    requires head == n + g && col == ttl + g2 && padded + "  " == t + g3
    ensures head + col + "IN  " + padded + "  " + v == n + (g + (ttl + (g2 + ("IN" + (Spaces(2) + (t + (g3 + v)))))))
  {
    assert Spaces(2) == " " + (" " + "");
    assert head + col + "IN  " + padded + "  " + v == (head + col + "IN  ") + (padded + "  ") + v;
  }

  lemma NameIsOk(r: Record)
    requires RecordOk(r)
    ensures NameOk(ShownName(r)) && OwnerKept(ShownName(r)) && ShownName(r) != "" && Trim(ShownName(r)) != ""
    ensures Trim(ShownName(r))[0] != ';' && Trim(ShownName(r))[0] != '$'
  {
    hide Trim, Trimmed, Upper, IsBlank;
    AtIsName();
    assert Trim("@") == "@" by {
      TrimmedIsTrim("@");
    }
    assert forall c | c in "@" :: !IsBlank(c);
  }

  lemma DigitsOf(r: Record)
    requires r.ttl <= MAX_INT
    ensures forall c | c in TtlText(r) :: IsDigit(c)
    ensures (if TtlText(r) == "" then 0 else ReadInt(TtlText(r))) == (if r.ttl > 0 then r.ttl else 0)
  {
    if r.ttl > 0 {
      Printed(r.ttl, "");
      IntReads(r.ttl);
    }
  }

  /** What a record's line matches, for any column widths. */
  lemma LineMatches(r: Record, w: Widths)
    requires RecordOk(r) && (w.hasTtl || r.ttl <= 0)
    ensures MatchRecord(RecordLine(r, w)) == Some(Normal(r).(value := ValueRead(r.value)))
  {
    hide *;
    var g, g2, g3 := LineShape(r, w);
    NameIsOk(r);
    RecordParts(r);
    DigitsOf(r);
    var t := Upper(r.rtype);
    TailReads(t, g3, r.value);
    var s3 := "IN" + (Spaces(2) + (t + (Spaces(g3) + r.value)));
    StartsIn(Spaces(2) + (t + (Spaces(g3) + r.value)));
    HeadReads(ShownName(r), g, TtlText(r), g2, s3);
    NormalIs(r);
  }

  lemma StartsIn(s: string)
    ensures HasPrefix("IN" + s, "IN")
  {}

  lemma RecordParts(r: Record)
    requires RecordOk(r)
    ensures Upper(r.rtype) in RecordTypes() && r.ttl <= MAX_INT && r.value != "" && !IsBlank(r.value[0])
    ensures Trimmed(r.value)
    ensures '\n' !in r.value
  {}

  lemma NormalIs(r: Record)
    ensures Normal(r) == Record(ShownName(r), Upper(r.rtype), if r.ttl > 0 then r.ttl else 0, r.value)
  {}


  lemma ValueSurvives(v: string)
    requires v != "" && Trimmed(v)
    ensures ValueRead(v) == v <==> ';' !in v[1..]
  {
    hide Trim;
    var k := ValueEnd(v);
    if ';' in v[1..] {
      TrimShorter(v[..k]);
    } else {
      TrimmedIsTrim(v);
      assert v[..|v|] == v;
    }
  }

  lemma {:induction false} TrimLeftShorter(s: string)
    ensures |TrimLeft(s)| <= |s|
  {
    if s != "" && IsSpace(s[0]) {
      TrimLeftShorter(s[1..]);
    }
  }

  lemma {:induction false} TrimRightStart(s: string)
    ensures |TrimRight(s)| <= |s| && TrimRight(s) == s[..|TrimRight(s)|]
    ensures s != "" && !IsSpace(s[0]) ==> TrimRight(s) != ""
  {
    if s != "" && IsSpace(s[|s| - 1]) {
      TrimRightStart(s[..|s| - 1]);
    }
  }

  lemma TrimShorter(s: string)
    ensures |Trim(s)| <= |s|
  {
    TrimLeftShorter(s);
    TrimRightStart(TrimLeft(s));
  }

  lemma TrimKeepsFirst(s: string)
    requires s != "" && !IsSpace(s[0])
    ensures Trim(s) != "" && Trim(s)[0] == s[0]
  {
    TrimRightStart(s);
  }

  /** The first character left of a text is that of its beginning, when one is left of that. */
  lemma {:induction false} TrimStart(a: string, b: string)
    requires Trim(a) != ""
    ensures Trim(a + b) != "" && Trim(a + b)[0] == Trim(a)[0]
  {
    hide IsSpace;
    TrimRightStart(TrimLeft(a));
    if IsSpace(a[0]) {
      assert (a + b)[0] == a[0] && (a + b)[1..] == a[1..] + b;
      TrimStart(a[1..], b);
    } else {
      TrimKeepsFirst(a);
      TrimKeepsFirst(a + b);
    }
  }

  /** What the line of a record yields: the record with as much of its value as stands before a semicolon. */
  lemma LineYields(r: Record, w: Widths)
    requires RecordOk(r) && (w.hasTtl || r.ttl <= 0)
    ensures ParseLine(RecordLine(r, w)) == [Normal(r).(value := ValueRead(r.value))]
  {
    hide *;
    LineMatches(r, w);
    RecordParts(r);
    NormalIs(r);
    NameIsOk(r);
    var g, g2, g3 := LineShape(r, w);
    TrimStart(ShownName(r), Spaces(g) + (TtlText(r) + (Spaces(if TtlText(r) == "" then 0 else g2) +
              ("IN" + (Spaces(2) + (Upper(r.rtype) + (Spaces(g3) + r.value)))))));
    LineCases(RecordLine(r, w));
  }

  /** The line of a plain record yields the record. */
  lemma LineParses(r: Record, w: Widths)
    requires RecordOk(r) && RecordPlain(r) && (w.hasTtl || r.ttl <= 0)
    ensures ParseLine(RecordLine(r, w)) == [Normal(r)]
  {
    hide *;
    LineYields(r, w);
    RecordParts(r);
    PlainValue(r);
    NormalIs(r);
    ValueSurvives(r.value);
  }

  lemma PlainValue(r: Record)
    requires RecordPlain(r) && r.value != ""
    ensures ';' !in r.value[1..]
  {}

  // ---------------------------------------------------------------- validated records

  /** What any record read from a file is like. */
  predicate AsRead(r: Record) {
    (forall c | c in r.name :: !IsBlank(c)) && r.rtype in RecordTypes() && Trimmed(r.value)
  }

  lemma {:induction false} TrimRightEnd(s: string)
    ensures TrimRight(s) != "" ==> !IsSpace(TrimRight(s)[|TrimRight(s)| - 1])
  {
    hide IsSpace;
    if s != "" && IsSpace(s[|s| - 1]) {
      TrimRightEnd(s[..|s| - 1]);
    }
  }

  lemma {:induction false} TrimLeftStart(s: string)
    ensures TrimLeft(s) != "" ==> !IsSpace(TrimLeft(s)[0])
  {
    hide IsSpace;
    if s != "" && IsSpace(s[0]) {
      TrimLeftStart(s[1..]);
    }
  }

  lemma TrimIsTrimmed(s: string)
    ensures Trimmed(Trim(s))
  {
    hide TrimLeft, TrimRight, IsSpace;
    TrimLeftStart(s);
    TrimRightStart(TrimLeft(s));
    TrimRightEnd(TrimLeft(s));
  }

  lemma MatchIsRead(line: string)
    ensures MatchRecord(line).Some? ==>
              (forall c | c in MatchRecord(line).value.name :: !IsBlank(c)) && Trimmed(MatchRecord(line).value.value)
  {
    hide RunLen, MatchTail, ReadInt, Trimmed;
    forall s ensures MatchTail(s).Some? ==> Trimmed(MatchTail(s).value.1) {
      TailIsTrimmed(s);
    }
    var n := RunLen(line, IsField);
    assert forall c | c in line[..n] :: IsField(c);
  }

  lemma TailIsTrimmed(s: string)
    ensures MatchTail(s).Some? ==> Trimmed(MatchTail(s).value.1)
  {
    hide RunLen, Trim, Upper, ValueEnd;
    forall v: string ensures Trimmed(Trim(v)) {
      TrimIsTrimmed(v);
    }
  }

  lemma {:induction false} ParsedAsRead(lines: seq<string>)
    ensures forall r :: r in ParseLines(lines) ==> AsRead(r)
  {
    hide *;
    if lines == [] {
      NoLinesParsed(lines);
    } else {
      assert lines == [lines[0]] + lines[1..];
      ParseLinesCons(lines[0], lines[1..]);
      LineCases(lines[0]);
      MatchIsRead(lines[0]);
      ParsedAsRead(lines[1..]);
      forall r | r in ParseLine(lines[0]) ensures AsRead(r) {
        AsReadIs(r);
      }
    }
  }

  lemma AsReadIs(r: Record)
    ensures AsRead(r) <==> (forall c | c in r.name :: !IsBlank(c)) && r.rtype in RecordTypes() && Trimmed(r.value)
  {}

  /** The lines of a printed record: one, when its type is clean. */
  lemma OneLine(r: Record, w: Widths, ip: Addresses)
    requires RecordValid(r, ip) && Upper(r.rtype) in RecordTypes() && r.ttl <= MAX_INT && (w.hasTtl || r.ttl <= 0)
    ensures ParseLines(Split(RecordLine(r, w), '\n')) == ParseLine(RecordLine(r, w))
  {
    hide *;
    ValidParts(r, ip);
    TypeLacks(Upper(r.rtype), '\n');
    LineLacks(r, w, '\n');
    var line := RecordLine(r, w);
    SplitAlone(line);
    ParseLinesCons(line, []);
    assert [line] + [] == [line];
    NoLinesParsed([]);
    assert ParseLine(line) + [] == ParseLine(line);
  }

  lemma SplitAlone(line: string)
    requires '\n' !in line
    ensures Split(line, '\n') == [line]
  {}

  lemma ValidParts(r: Record, ip: Addresses)
    requires RecordValid(r, ip)
    ensures '\n' !in r.name && '\n' !in r.value && r.name != "" && Trim(r.name) != "" && r.value != ""
    ensures ShownName(r) == r.name
  {
    hide Upper;
    assert Trim("") == "";
  }

  /** A validated record whose line is taken for a comment or a directive is not read back. */
  lemma LineIsLost(r: Record, w: Widths, ip: Addresses)
    requires RecordValid(r, ip) && Upper(r.rtype) in RecordTypes() && r.ttl <= MAX_INT && (w.hasTtl || r.ttl <= 0)
    requires Trim(r.name) != "" && (Trim(r.name)[0] == ';' || Trim(r.name)[0] == '$')
    ensures ParseLines(Split(RecordLine(r, w), '\n')) == []
  {
    hide *;
    OneLine(r, w, ip);
    ValidParts(r, ip);
    var g, g2, g3 := LineShape(r, w);
    TrimStart(r.name, Spaces(g) + (TtlText(r) + (Spaces(if TtlText(r) == "" then 0 else g2) +
              ("IN" + (Spaces(2) + (Upper(r.rtype) + (Spaces(g3) + r.value)))))));
    LineCases(RecordLine(r, w));
  }

  /** A record whose line alone says what it is: its owner holds no blank and starts with neither a semicolon nor a
      dollar sign, its type and its value have no white space around them, and no semicolon follows the first character
      of its value. */
  predicate LineSound(r: Record) {
    && OwnerKept(r.name) && Upper(r.rtype) in RecordTypes()
    && r.value != "" && Trimmed(r.value) && ';' !in r.value[1..]
  }

  lemma LineSoundIs(r: Record)
    ensures LineSound(r) <==>
            OwnerKept(r.name) && Upper(r.rtype) in RecordTypes() && r.value != "" && Trimmed(r.value) &&
            ';' !in r.value[1..]
  {}

  /** What is read back from the line of a record that passes validation, once every start of authority is stripped, is
      that record, its type in capitals, exactly when its line is sound. */
  lemma LineReadsBack(r: Record, w: Widths, ip: Addresses)
    requires RecordValid(r, ip) && r.ttl <= MAX_INT && (w.hasTtl || r.ttl <= 0)
    ensures ParseLines(Split(RecordLine(r, w), '\n')) == [Normal(r)] <==> LineSound(r)
  {
    hide *;
    LineSoundIs(r);
    ValidParts(r, ip);
    NormalIs(r);
    var read := ParseLines(Split(RecordLine(r, w), '\n'));
    ParsedAsRead(Split(RecordLine(r, w), '\n'));
    if read == [Normal(r)] {
      assert Normal(r) in read;
      AsReadIs(Normal(r));
    }
    if (forall c | c in r.name :: !IsBlank(c)) && Upper(r.rtype) in RecordTypes() && Trimmed(r.value) {
      OwnerCases(r.name);
      if OwnerKept(r.name) {
        CleanIsOk(r);
        OneLine(r, w, ip);
        LineYields(r, w);
        ValueSurvives(r.value);
      } else {
        LineIsLost(r, w, ip);
      }
    } else {
      OwnerKeeps(r.name);
    }
  }

  lemma OwnerCases(n: string)
    requires (forall c | c in n :: !IsBlank(c)) && n != "" && Trim(n) != ""
    ensures OwnerKept(n) <==> Trim(n)[0] != ';' && Trim(n)[0] != '$'
  {}

  lemma OwnerKeeps(n: string)
    ensures OwnerKept(n) ==> forall c | c in n :: !IsBlank(c)
  {}

  lemma CleanIsOk(r: Record)
    requires OwnerKept(r.name) && Upper(r.rtype) in RecordTypes() && Trimmed(r.value) && r.value != ""
    requires '\n' !in r.value
    requires r.ttl <= MAX_INT
    ensures RecordOk(r)
  {
    hide Upper, Trimmed, OwnerKept;
  }

  function Policy(): Record {
    Record("_dmarc", "TXT", 0, "v=DMARC1; p=none")
  }

  /** A policy that passes validation and loses all but its first tag. */
  lemma PolicyIsCut(w: Widths, ip: Addresses)
    ensures RecordValid(Policy(), ip)
    ensures ParseLines(Split(RecordLine(Policy(), w), '\n')) == [Policy().(value := "v=DMARC1")]
  {
    hide *;
    PolicyIsValid(ip);
    PolicyIsOk();
    OneLine(Policy(), w, ip);
    LineYields(Policy(), w);
    PolicyValue();
  }

  lemma PolicyIsValid(ip: Addresses)
    ensures RecordValid(Policy(), ip)
  {
    hide Trim, Upper;
    TypeLetters("TXT");
    TrimmedIsTrim("TXT");
    TrimmedIsTrim("_dmarc");
    TrimmedIsTrim(Policy().value);
  }

  lemma PolicyIsOk()
    ensures RecordOk(Policy()) && Upper(Policy().rtype) in RecordTypes() && Policy().ttl == 0 <= MAX_INT
  {
    hide Trim, Upper;
    TypeLetters("TXT");
    TrimmedIsTrim("_dmarc");
  }

  lemma PolicyValue()
    ensures Policy().value != "" &&
            Normal(Policy()).(value := ValueRead(Policy().value)) == Policy().(value := "v=DMARC1")
  {
    hide Trim, Upper, ValueEnd;
    TypeLetters("TXT");
    CutAt(Policy().value, "v", "=DMARC1", " p=none");
    assert "v" + "=DMARC1" == "v=DMARC1";
    TrimmedIsTrim("v=DMARC1");
  }

  lemma CutAt(v: string, c: string, a: string, b: string)
    requires |c| == 1 && ';' !in a && v == c + a + ";" + b
    ensures v != "" && ValueEnd(v) == 1 + |a| && v[..ValueEnd(v)] == c + a
  {
    IndexAt(a, b, ';');
    assert v[1..] == a + [';'] + b;
  }

  /** A record that passes validation and is lost. */
  lemma OwnerIsLost(w: Widths, ip: Addresses)
    requires ip.isV4("192.0.2.1")
    ensures var r := Record(";x", "A", 0, "192.0.2.1");
      RecordValid(r, ip) && ParseLines(Split(RecordLine(r, w), '\n')) == []
  {
    hide RecordLine, ParseLines, Split, Trim;
    var r := Record(";x", "A", 0, "192.0.2.1");
    TypeLetters("A");
    TrimmedIsTrim("A");
    TrimmedIsTrim(";x");
    TrimmedIsTrim("192.0.2.1");
    LineIsLost(r, w, ip);
  }

  // ---------------------------------------------------------------- many records

  predicate RecordsOk(rs: seq<Record>) {
    forall i :: 0 <= i < |rs| ==> RecordOk(rs[i]) && RecordPlain(rs[i])
  }

  predicate TtlsFit(rs: seq<Record>, w: Widths) {
    w.hasTtl || forall i :: 0 <= i < |rs| ==> rs[i].ttl <= 0
  }

  lemma {:induction false} FitTtls(rs: seq<Record>, w: Widths)
    ensures TtlsFit(rs, Fit(rs, w)) && (w.hasTtl ==> Fit(rs, w).hasTtl)
  {
    if rs != [] {
      hide ShownName, TtlText, Max;
      var r := rs[0];
      FitTtls(rs[1..], Widths(Max(w.name, |ShownName(r)|), Max(w.rtype, |r.rtype|), Max(w.ttl, |TtlText(r)|),
                              w.hasTtl || r.ttl > 0));
    }
  }

  /** For any column widths that leave room for the TTLs, the printed records are read back in order. */
  lemma {:induction false} RecordsParse(rs: seq<Record>, w: Widths)
    requires RecordsOk(rs) && TtlsFit(rs, w)
    ensures ParseLines(RecordLines(rs, w)) == Normals(rs)
  {
    hide ParseLine, RecordLine, Normal, RecordOk, RecordPlain;
    if rs != [] {
      LineParses(rs[0], w);
      RecordsParse(rs[1..], w);
      assert RecordLines(rs, w)[1..] == RecordLines(rs[1..], w);
    }
  }

  lemma {:induction false} ParseLinesAppend(a: seq<string>, b: seq<string>)
    ensures ParseLines(a + b) == ParseLines(a) + ParseLines(b)
  {
    hide *;
    if a == [] {
      assert a + b == b;
      NoLinesParsed(a);
      assert [] + ParseLines(b) == ParseLines(b);
    } else {
      ParseLinesAppend(a[1..], b);
      assert a == [a[0]] + a[1..] && a + b == [a[0]] + (a[1..] + b);
      ParseLinesCons(a[0], a[1..]);
      ParseLinesCons(a[0], a[1..] + b);
      Assoc(ParseLine(a[0]), ParseLines(a[1..]), ParseLines(b));
    }
  }

  lemma ParseLinesCons(line: string, lines: seq<string>)
    ensures ParseLines([line] + lines) == ParseLine(line) + ParseLines(lines)
  {
    hide ParseLine;
    assert ([line] + lines)[1..] == lines;
  }

  /** No character of a printed record but those of its fields. */
  lemma LineLacks(r: Record, w: Widths, c: char)
    requires c !in Upper(r.rtype) && r.ttl <= MAX_INT && (w.hasTtl || r.ttl <= 0)
    requires c !in r.name && c !in r.value && (c == '(' || c == '\n')
    ensures c !in RecordLine(r, w)
  {
    hide *;
    var g, g2, g3 := LineShape(r, w);
    DigitsOf(r);
    Lacks(r, c);
    NoSpacesHave(g, c);
    NoSpacesHave(if TtlText(r) == "" then 0 else g2, c);
    NoSpacesHave(2, c);
    NoSpacesHave(g3, c);
    InLacks(c);
  }

  lemma InLacks(c: char)
    ensures c == '(' || c == '\n' ==> c !in "IN"
  {}

  lemma NoSpacesHave(n: nat, c: char)
    ensures c != ' ' ==> c !in Spaces(n)
  {}

  lemma Lacks(r: Record, c: char)
    requires c !in r.name && (c == '(' || c == '\n')
    requires forall d | d in TtlText(r) :: IsDigit(d)
    ensures c !in ShownName(r) && c !in TtlText(r)
  {}

  lemma TypeLacks(t: string, c: char)
    requires t in RecordTypes() && (c == '(' || c == '\n')
    ensures c !in t
  {
    hide RecordTypes;
    TypeLetters(t);
  }

  lemma {:induction false} LinesLack(rs: seq<Record>, w: Widths)
    requires RecordsOk(rs) && TtlsFit(rs, w)
    ensures NoneHas(RecordLines(rs, w), '\n')
  {
    hide RecordLine, RecordOk, RecordPlain;
    if rs != [] {
      PlainLine(rs[0], w);
      LinesLack(rs[1..], w);
    }
  }

  lemma PlainLine(r: Record, w: Widths)
    requires RecordOk(r) && (w.hasTtl || r.ttl <= 0)
    ensures '\n' !in RecordLine(r, w)
  {
    hide RecordLine, RunLen, Trim, Upper;
    RecordParts(r);
    NameLacksNewline(r);
    TypeLacks(Upper(r.rtype), '\n');
    LineLacks(r, w, '\n');
  }

  lemma NameLacksNewline(r: Record)
    requires RecordOk(r)
    ensures '\n' !in r.name && '\n' !in r.value
  {}

  // ---------------------------------------------------------------- the head of the file

  /** A zone whose authority fields are single fields, and whose numbers fit. */
  predicate HeadOk(z: Zone) {
    NameOk(z.primaryNS) && NameOk(z.admin) && 0 <= z.ttl <= MAX_INT && MIN_INT <= z.serial <= MAX_INT
  }

  function Note(): string {
    " ; Serial (managed by soteria-agent"
  }

  /** The block as the matcher takes it: it ends at the parenthesis in the comment. */
  function BlockText(z: Zone): string {
    "\n                " + (IntText(z.serial) + Note())
  }

  function SoaText(z: Zone, rest: string): string {
    "SOA" + (" " + (z.primaryNS + (" " + (z.admin + (" " + ("(" + BlockText(z) + ")" + rest))))))
  }

  function Lead(z: Zone): string {
    "$TTL " + (IntText(ShownTtl(z)) + "\n@       IN  ")
  }

  lemma ContentShape(z: Zone, recs: seq<string>)
    ensures Unlines(HeadLines(z) + recs) == Lead(z) + SoaText(z, "\n" + Unlines(TimerLines() + recs))
  {
    hide *;
    var ttl, serial := IntText(ShownTtl(z)), IntText(z.serial);
    var more := Unlines(TimerLines() + recs);
    var l0 := "$TTL " + ttl;
    var l1 := "@       IN  " + "SOA" + " " + z.primaryNS + " " + z.admin + (" " + "(");
    var l2 := "                " + serial + (Note() + ")");
    HeadIs(z);
    Assoc([l0, l1, l2], TimerLines(), recs);
    UnlinesAppend([l0, l1, l2], TimerLines() + recs);
    ThreeLines(l0, l1, l2);
    ContentGlue("$TTL ", ttl, "@       IN  ", "SOA", z.primaryNS, z.admin, "                ", serial, Note(), more);
    ContentParts(z, "\n" + more);
  }

  lemma HeadIs(z: Zone)
    ensures HeadLines(z) ==
            ["$TTL " + IntText(ShownTtl(z)),
             "@       IN  " + "SOA" + " " + z.primaryNS + " " + z.admin + (" " + "("),
             "                " + IntText(z.serial) + (Note() + ")")] + TimerLines()
  {
    hide IntText, TimerLines;
    assert "@       IN  SOA " == "@       IN  " + "SOA" + " ";
    assert " (" == " " + "(";
    assert " ; Serial (managed by soteria-agent)" == Note() + ")";
  }

  lemma ContentParts(z: Zone, rest: string)
    ensures Lead(z) == "$TTL " + (IntText(ShownTtl(z)) + ("\n" + "@       IN  "))
    ensures SoaText(z, rest) ==
            "SOA" + (" " + (z.primaryNS + (" " + (z.admin + (" " +
            ("(" + (("\n" + "                ") + (IntText(z.serial) + Note())) + ")" + rest))))))
  {
    hide IntText;
    assert "\n@       IN  " == "\n" + "@       IN  ";
    assert "\n                " == "\n" + "                ";
  }

  lemma ContentGlue(d: string, ttl: string, at: string, soa: string, ns: string, admin: string, indent: string,
                    serial: string, note: string, more: string)
    ensures (d + ttl) + "\n" + (at + soa + " " + ns + " " + admin + (" " + "(")) + "\n" +
            (indent + serial + (note + ")")) + "\n" + more ==
            (d + (ttl + ("\n" + at))) +
            (soa + (" " + (ns + (" " + (admin + (" " +
            ("(" + (("\n" + indent) + (serial + note)) + ")" + ("\n" + more))))))))
  {}

  lemma FieldRun(f: string, rest: string)
    requires NameOk(f) && rest != "" && IsBlank(rest[0])
    ensures RunLen(f + rest, IsField) == |f| && (f + rest)[..|f|] == f && (f + rest)[|f|..] == rest && !IsBlank(f[0])
  {
    forall i | 0 <= i < |f| ensures IsField(f[i]) {
      assert f[i] in f;
    }
    assert f[0] in f;
    RunOf(f, rest, IsField);
  }

  lemma BlockMatches(ns: string, admin: string, block: string, rest: string)
    requires NameOk(admin) && ')' !in block
    ensures SoaBlock(ns, admin + (" " + ("(" + block + ")" + rest))) == Some(Soa(ns, admin, block, rest))
  {
    hide RunLen, IndexOf;
    var y := "(" + block + ")" + rest;
    var x := " " + y;
    CloseAt(block, rest);
    OneBlank(y);
    FieldRun(admin, x);
  }

  lemma CloseAt(block: string, rest: string)
    requires ')' !in block
    ensures var y := "(" + block + ")" + rest;
      y[0] == '(' && ')' in y && IndexOf(y, ')') == 1 + |block| && y[1..1 + |block|] == block &&
        y[1 + |block| + 1..] == rest
  {
    hide IndexOf;
    var y := "(" + block + ")" + rest;
    IndexAt("(" + block, rest, ')');
    assert ("(" + block) + [')'] + rest == y;
    assert y[1 + |block|] == ')';
  }

  lemma OneBlank(rest: string)
    requires rest != "" && !IsBlank(rest[0])
    ensures RunLen(" " + rest, IsBlank) == 1 && (" " + rest)[1..] == rest
  {
    RunOf(" ", rest, IsBlank);
  }

  lemma SoaMatches(ns: string, admin: string, block: string, rest: string)
    requires NameOk(ns) && NameOk(admin) && ')' !in block
    ensures SoaAt("SOA" + (" " + (ns + (" " + (admin + (" " + ("(" + block + ")" + rest))))))) ==
            Some(Soa(ns, admin, block, rest))
  {
    hide RunLen, SoaBlock;
    var v := admin + (" " + ("(" + block + ")" + rest));
    var u := " " + v;
    var t := " " + (ns + u);
    var s := "SOA" + t;
    assert s[0] == 'S' && s[1..3] == "OA" && s[3..] == t;
    UpperCapitals("OA");
    assert admin[0] in admin && v[0] == admin[0] && ns[0] in ns && (ns + u)[0] == ns[0];
    OneBlank(v);
    OneBlank(ns + u);
    FieldRun(ns, u);
    BlockMatches(ns, admin, block, rest);
  }

  /** No start of authority starts in such a text, whatever follows it: none of its letters s is followed by the other
      two letters of the word. */
  predicate Quiet(p: string) {
    forall i :: 0 <= i < |p| && IsS(p[i]) ==> Breaks(p, i + 1, 'O') || Breaks(p, i + 2, 'A')
  }

  predicate Breaks(p: string, i: nat, c: char) {
    i < |p| && UpperChar(p[i]) != c
  }

  lemma QuietJoin(a: string, b: string)
    requires Quiet(a) && Quiet(b)
    ensures Quiet(a + b)
  {
    var s := a + b;
    forall i | 0 <= i < |s| && IsS(s[i]) ensures Breaks(s, i + 1, 'O') || Breaks(s, i + 2, 'A') {
      if i < |a| {
        assert s[i] == a[i];
        assert Breaks(a, i + 1, 'O') || Breaks(a, i + 2, 'A');
      } else {
        assert s[i] == b[i - |a|];
        assert Breaks(b, i - |a| + 1, 'O') || Breaks(b, i - |a| + 2, 'A');
      }
    }
  }

  lemma {:induction false} UnlinesQuiet(lines: seq<string>)
    requires forall l :: l in lines ==> Quiet(l)
    ensures Quiet(Unlines(lines))
  {
    if lines != [] {
      hide Quiet;
      UnlinesQuiet(lines[1..]);
      NewlineQuiet();
      QuietJoin(lines[0], "\n");
      QuietJoin(lines[0] + "\n", Unlines(lines[1..]));
    } else {
      assert Quiet("");
    }
  }

  lemma NewlineQuiet()
    ensures Quiet("\n")
  {}

  lemma {:induction false} SoaSkips(p: string, s: string)
    requires Quiet(p)
    ensures FindSoa(p + s) == FindSoa(s) && StripSoa(p + s) == p + StripSoa(s)
  {
    if p == "" {
      assert p + s == s && "" + StripSoa(s) == StripSoa(s);
    } else {
      hide *;
      LeadIsQuiet(p);
      NoSoaAt(p, s);
      SoaStep(p + s);
      SoaSkips(p[1..], s);
      HeadAndTail(p, s);
      HeadAndTail(p, StripSoa(s));
    }
  }

  lemma HeadAndTail(p: string, s: string)
    requires p != ""
    ensures (p + s)[0] == p[0] && (p + s)[1..] == p[1..] + s && p + s == [p[0]] + (p[1..] + s)
  {}

  lemma LeadIsQuiet(p: string)
    requires p != "" && Quiet(p)
    ensures Quiet(p[1..])
  {
    var t := p[1..];
    forall i | 0 <= i < |t| && IsS(t[i]) ensures Breaks(t, i + 1, 'O') || Breaks(t, i + 2, 'A') {
      assert t[i] == p[i + 1];
      assert Breaks(p, i + 2, 'O') || Breaks(p, i + 3, 'A');
    }
  }

  lemma SoaStep(s: string)
    requires s != "" && SoaAt(s).None?
    ensures FindSoa(s) == FindSoa(s[1..]) && StripSoa(s) == [s[0]] + StripSoa(s[1..])
  {
    hide SoaAt;
  }

  lemma NoSoaAt(p: string, s: string)
    requires p != "" && Quiet(p)
    ensures SoaAt(p + s).None?
  {
    hide RunLen, SoaBlock, Upper;
    var t := p + s;
    assert t[0] == p[0];
    if IsS(p[0]) && |t| >= 3 {
      assert Breaks(p, 1, 'O') || Breaks(p, 2, 'A');
      assert t[1..3][0] == t[1] && t[1..3][1] == t[2];
      NotOa(t[1..3]);
    }
  }

  lemma NotOa(x: string)
    requires |x| == 2 && (UpperChar(x[0]) != 'O' || UpperChar(x[1]) != 'A')
    ensures Upper(x) != "OA"
  {
    assert x[1..] == [x[1]] && x[1..][1..] == "";
    assert Upper(x)[0] == UpperChar(x[0]) && Upper(x)[1] == UpperChar(x[1]);
  }

  lemma {:induction false} NoSoaStrips(s: string)
    requires FindSoa(s).None?
    ensures StripSoa(s) == s
  {
    hide SoaAt;
    if s != "" {
      NoSoaStrips(s[1..]);
    }
  }

  lemma BlockHasParen(ns: string, v: string)
    requires SoaBlock(ns, v).Some?
    ensures '(' in v
  {
    hide RunLen;
    var a := AdminLen(v, RunLen(v, IsField));
    var r := RunLen(v[a..], IsBlank);
    assert v[a..][r..][0] == '(' && v[a + r] == '(';
  }

  lemma SoaHasParen(s: string)
    requires SoaAt(s).Some?
    ensures '(' in s
  {
    hide RunLen, Upper, SoaBlock;
    var t := s[3..];
    var b := RunLen(t, IsBlank);
    var n := RunLen(t[b..], IsField);
    var u := t[b..][n..];
    var b' := RunLen(u, IsBlank);
    BlockHasParen(t[b..][..n], u[b'..]);
    DropIn(s, 3);
    DropIn(t, b);
    DropIn(t[b..], n);
    DropIn(u, b');
  }

  lemma DropIn(s: string, n: nat)
    requires n <= |s|
    ensures '(' in s[n..] ==> '(' in s
  {}

  lemma {:induction false} NoParenNoSoa(s: string)
    requires '(' !in s
    ensures FindSoa(s).None?
  {
    hide SoaAt;
    if SoaAt(s).Some? {
      SoaHasParen(s);
    }
    if s != "" {
      NoParenNoSoa(s[1..]);
    }
  }

  lemma NumberQuiet(n: int)
    requires n >= 0
    ensures Quiet(IntText(n))
  {
    Printed(n, "");
    forall i | 0 <= i < |IntText(n)| ensures !IsS(IntText(n)[i]) {
      assert IntText(n)[i] in Itoa(n);
    }
  }

  lemma LeadQuiet(z: Zone)
    requires ShownTtl(z) >= 0
    ensures Quiet(Lead(z))
  {
    hide Quiet, IntText;
    LeadWords();
    NumberQuiet(ShownTtl(z));
    QuietJoin(IntText(ShownTtl(z)), "\n@       IN  ");
    QuietJoin("$TTL ", IntText(ShownTtl(z)) + "\n@       IN  ");
  }

  lemma LeadWords()
    ensures Quiet("$TTL ") && Quiet("\n@       IN  ")
  {}

  /** The authority fields of a printed zone, whatever its records are. */
  lemma SoaReads(z: Zone, rest: string)
    requires HeadOk(z)
    ensures FindSoa(Lead(z) + SoaText(z, rest)) == Some(Soa(z.primaryNS, z.admin, BlockText(z), rest))
    ensures StripSoa(Lead(z) + SoaText(z, rest)) == Lead(z) + ("SOA" + StripSoa(rest))
  {
    hide NameOk, Lead, BlockText, SoaAt, Quiet, MIN_INT, MAX_INT;
    LeadQuiet(z);
    SoaSkips(Lead(z), SoaText(z, rest));
    BlockOpen(z);
    SoaMatches(z.primaryNS, z.admin, BlockText(z), rest);
  }

  lemma BlockOpen(z: Zone)
    ensures ')' !in BlockText(z)
  {
    var m := if z.serial < 0 then -z.serial else z.serial;
    assert ')' !in Itoa(m);
    assert ')' !in Note();
  }

  lemma SerialReads(z: Zone)
    requires MIN_INT <= z.serial <= MAX_INT
    ensures FirstField(BlockText(z)) == IntText(z.serial) && ReadInt(IntText(z.serial)) == z.serial
    ensures IntText(z.serial) != ""
  {
    hide RunLen, ReadInt;
    IntReads(z.serial);
    var t := IntText(z.serial);
    var m := if z.serial < 0 then -z.serial else z.serial;
    forall i | 0 <= i < |t| ensures NotSpace(t[i]) {
      if t[i] != '-' {
        assert t[i] in Itoa(m);
      }
    }
    assert t != "";
    assert (t + Note())[0] == t[0];
    var indent := "\n                ";
    assert forall i :: 0 <= i < |indent| ==> IsSpace(indent[i]);
    hide IntText;
    RunOf(indent, t + Note(), IsSpace);
    assert Note()[0] == ' ';
    RunOf(t, Note(), NotSpace);
  }

  lemma TtlReads(z: Zone, more: string)
    requires 0 <= z.ttl <= MAX_INT
    ensures FindTtl(Lead(z) + more) == Some(IntText(ShownTtl(z))) && ReadInt(IntText(ShownTtl(z))) == ShownTtl(z)
  {
    hide *;
    HeadParts(z);
    ShownFits(z);
    IntReads(ShownTtl(z));
    var t := IntText(ShownTtl(z));
    var rest := "\n@       IN  " + more;
    StartsWithNewline(more);
    Printed(ShownTtl(z), rest);
    ContentParts(z, "");
    LeadGlue(t, more);
    TtlMatches(t, rest);
  }

  lemma StartsWithNewline(more: string)
    ensures ("\n@       IN  " + more) != "" && !IsDigit(("\n@       IN  " + more)[0])
  {}

  lemma ShownFits(z: Zone)
    requires 0 <= z.ttl <= MAX_INT
    ensures MIN_INT <= ShownTtl(z) <= MAX_INT
  {}

  lemma LeadGlue(t: string, more: string)
    ensures "$TTL " + (t + ("\n" + "@       IN  ")) + more == "$TTL" + (" " + (t + ("\n@       IN  " + more)))
  {
    assert "$TTL " == "$TTL" + " ";
    assert "\n" + "@       IN  " == "\n@       IN  ";
  }

  lemma TtlMatches(t: string, rest: string)
    requires t != "" && IsDigit(t[0]) && RunLen(t + rest, IsDigit) == |t|
    ensures FindTtl("$TTL" + (" " + (t + rest))) == Some(t)
  {
    hide RunLen, IndexOf;
    var s := "$TTL" + (" " + (t + rest));
    assert s[0] == '$' && s[..4] == "$TTL" && s[4..] == " " + (t + rest);
    NoRun(s, IsBlank);
    DollarTtl();
    assert (t + rest)[0] == t[0];
    OneBlank(t + rest);
    var u := " " + (t + rest);
    assert u[1..1 + |t|] == t;
  }

  lemma DollarTtl()
    ensures Upper("$TTL") == "$TTL"
  {
    UpperCapitals("TTL");
    assert "$TTL"[1..] == "TTL";
  }

  // ---------------------------------------------------------------- the theorem

  predicate OnOneLine(s: string) {
    '\n' !in s && Quiet(s)
  }

  lemma PlainJoin(a: string, b: string)
    requires OnOneLine(a) && OnOneLine(b)
    ensures OnOneLine(a + b)
  {
    hide Quiet;
    QuietJoin(a, b);
  }

  lemma Timer(number: string, word: string)
    requires OnOneLine(number) && OnOneLine(word)
    ensures OnOneLine(TimerLine(number, word))
  {
    PlainJoin("                ", number);
    PlainJoin("                " + number, "; ");
    PlainJoin("                " + number + "; ", word);
  }

  lemma PlainRefresh()
    ensures OnOneLine(TimerLine("3600       ", "Refresh"))
  {
    Timer("3600       ", "Refresh");
  }

  lemma PlainRetry()
    ensures OnOneLine(TimerLine("1800       ", "Retry"))
  {
    Timer("1800       ", "Retry");
  }

  lemma PlainExpire()
    ensures OnOneLine(TimerLine("604800     ", "Expire"))
  {
    Timer("604800     ", "Expire");
  }

  lemma PlainNegative()
    ensures OnOneLine(TimerLine("300 )      ", "Negative cache TTL"))
  {
    Timer("300 )      ", "Negative cache TTL");
  }

  lemma PlainTimers()
    ensures NoneHas(TimerLines(), '\n') && forall l :: l in TimerLines() ==> Quiet(l)
  {
    hide TimerLine;
    PlainRefresh();
    PlainRetry();
    PlainExpire();
    PlainNegative();
    assert OnOneLine("");
    assert forall l :: l in TimerLines() ==> OnOneLine(l);
  }

  lemma {:induction false} UnlinesLacks(lines: seq<string>)
    requires NoneHas(lines, '(')
    ensures '(' !in Unlines(lines)
  {
    if lines != [] {
      UnlinesLacks(lines[1..]);
    }
  }

  lemma HeadContributesNothing(z: Zone)
    requires ShownTtl(z) >= 0
    ensures ParseLines(["$TTL " + IntText(ShownTtl(z)), "@       IN  SOA"] + TimerLines()) == []
  {
    hide ParseLine, IntText;
    var first := "$TTL " + IntText(ShownTtl(z));
    var timers := TimerLines();
    DollarLine(first);
    SoaLine();
    IndentedLine(timers[0]);
    IndentedLine(timers[1]);
    IndentedLine(timers[2]);
    IndentedLine(timers[3]);
    IndentedLine(timers[4]);
    NoneParsed([first, "@       IN  SOA"] + timers);
  }

  lemma {:induction false} NoneParsed(lines: seq<string>)
    requires forall l :: l in lines ==> ParseLine(l) == []
    ensures ParseLines(lines) == []
  {
    if lines != [] {
      hide ParseLine;
      NoneParsed(lines[1..]);
    }
  }

  lemma DollarLine(l: string)
    requires l != "" && l[0] == '$'
    ensures ParseLine(l) == []
  {
    hide Trim, MatchRecord;
    TrimKeepsFirst(l);
  }

  lemma IndentedLine(l: string)
    requires l == "" || l[0] == ' '
    ensures ParseLine(l) == []
  {
    hide Trim, RunLen, MatchTail;
    NoRun(l, IsField);
  }

  lemma SoaLine()
    ensures ParseLine("@       IN  SOA") == []
  {
    hide *;
    SoaLineShape();
    StartsIn(Spaces(2) + "SOA");
    AtIsName();
    HeadReads("@", 7, "", 1, "IN" + (Spaces(2) + "SOA"));
    SoaTail();
    LineCases("@       IN  SOA");
  }

  lemma AtIsName()
    ensures NameOk("@") && Trimmed("@")
  {}

  lemma SoaLineShape()
    ensures "@" + (Spaces(7) + ("" + (Spaces(0) + ("IN" + (Spaces(2) + "SOA"))))) == "@       IN  SOA"
  {
    assert Spaces(7) == "       " && Spaces(2) == "  " && Spaces(0) == "";
  }

  /** Nothing follows the bare word, so it is no record. */
  lemma SoaTail()
    ensures MatchTail("IN" + (Spaces(2) + "SOA")).None?
  {
    hide RunLen, Spaces;
    var s4 := Spaces(2) + "SOA";
    assert ("IN" + s4)[2..] == s4;
    BlankRun(2, "SOA");
    RunOf("SOA", "", IsLetter);
    assert "SOA" + "" == "SOA";
    NoRun("", IsBlank);
  }

  /** The lines of records as they are printed. */
  function LinesOf(rs: seq<Record>): seq<string> {
    RecordLines(rs, Fit(rs, Widths(1, 1, 0, false)))
  }

  /** No start of authority in the printed records. */
  predicate NoSoaIn(rs: seq<Record>) {
    FindSoa(Unlines(LinesOf(rs))).None?
  }

  lemma LinesOfIs(rs: seq<Record>)
    ensures LinesOf(rs) == RecordLines(rs, Fit(rs, Widths(1, 1, 0, false)))
    ensures NoSoaIn(rs) <==> FindSoa(Unlines(LinesOf(rs))).None?
  {}

  /** For zones of single-field authority names and plain records, none of which reads as a start of authority, parsing
      the rendered file gives the same authority, serial, default TTL and records in their order. */
  lemma ZoneRoundTrip(z: Zone)
    requires HeadOk(z) && RecordsOk(z.records) && NoSoaIn(z.records)
    ensures ParseZone(z.name, ZoneText(z)) ==
            z.(kind := ReverseZones.KindOf(z.name), network := ReverseZones.NetworkOf(z.name),
               ttl := ShownTtl(z), records := Normals(z.records))
  {
    hide *;
    var w := Fit(z.records, Widths(1, 1, 0, false));
    FitTtls(z.records, Widths(1, 1, 0, false));
    var recs := RecordLines(z.records, w);
    LinesLack(z.records, w);
    LinesOfIs(z.records);
    RecordsParse(z.records, w);
    ZoneTextIs(z);
    ContentReads(z, recs);
    NoSoaStrips(Unlines(recs));
    WrittenLines(recs);
    HeadParts(z);
  }

  lemma ZoneTextIs(z: Zone)
    ensures ZoneText(z) == Unlines(HeadLines(z) + RecordLines(z.records, Fit(z.records, Widths(1, 1, 0, false))))
  {}

  lemma HeadParts(z: Zone)
    ensures z.ttl >= 0 ==> ShownTtl(z) >= 0
    ensures z == Zone(z.name, z.kind, z.network, z.primaryNS, z.admin, z.serial, z.ttl, z.records)
  {}

  /** What is read of a zone's head and of any lines behind it. */
  lemma ContentReads(z: Zone, recs: seq<string>)
    requires HeadOk(z)
    ensures ParseZone(z.name, Unlines(HeadLines(z) + recs)) ==
            Zone(z.name, ReverseZones.KindOf(z.name), ReverseZones.NetworkOf(z.name),
                 z.primaryNS, z.admin, z.serial, ShownTtl(z), ParseLines(Split(StripSoa(Unlines(recs)), '\n')))
  {
    hide Lead, SoaText, FindTtl, FindSoa, StripSoa, FirstField, ReadInt, IntText, TimerLines, Unlines, HeadLines,
      NameOk, ParseLine, BlockText, ParseLines, Split;
    var rest := "\n" + Unlines(TimerLines() + recs);
    ContentShape(z, recs);
    SoaReads(z, rest);
    SerialReads(z);
    TtlReads(z, SoaText(z, rest));
    TimersQuiet(recs);
    StrippedLines(z, StripSoa(Unlines(recs)));
    ZoneParts(z.name, Unlines(HeadLines(z) + recs));
  }

  /** The lines behind the serial add no start of authority. */
  lemma TimersQuiet(recs: seq<string>)
    ensures var rest := "\n" + Unlines(TimerLines() + recs);
      && FindSoa(rest) == FindSoa(Unlines(recs))
      && StripSoa(rest) == "\n" + (Unlines(TimerLines()) + StripSoa(Unlines(recs)))
  {
    hide *;
    PlainTimers();
    UnlinesQuiet(TimerLines());
    NewlineQuiet();
    QuietJoin("\n", Unlines(TimerLines()));
    UnlinesAppend(TimerLines(), recs);
    Assoc("\n", Unlines(TimerLines()), Unlines(recs));
    Assoc("\n", Unlines(TimerLines()), StripSoa(Unlines(recs)));
    SoaSkips("\n" + Unlines(TimerLines()), Unlines(recs));
  }

  /** The lines left of the head when the authority is stripped contribute nothing. */
  lemma StrippedLines(z: Zone, more: string)
    requires 0 <= z.ttl
    ensures ParseLines(Split(Lead(z) + ("SOA" + ("\n" + (Unlines(TimerLines()) + more))), '\n')) ==
            ParseLines(Split(more, '\n'))
  {
    hide IntText, Unlines, TimerLines, ParseLines, Split, Lead;
    var first := "$TTL " + IntText(ShownTtl(z));
    var head := [first, "@       IN  SOA"];
    var lines := head + TimerLines();
    PlainTimers();
    FirstLine(z);
    SplitBehind(lines, more);
    StrippedGlue(first, TimerLines());
    LeadIs(z);
    assert first + "\n" + "@       IN  " + ("SOA" + ("\n" + Unlines(TimerLines()))) + more ==
      first + "\n" + "@       IN  " + ("SOA" + ("\n" + (Unlines(TimerLines()) + more)));
    HeadContributesNothing(z);
    ParseLinesAppend(lines, Split(more, '\n'));
    assert [] + ParseLines(Split(more, '\n')) == ParseLines(Split(more, '\n'));
  }

  /** Lines without a newline, written and split again. */
  lemma WrittenLines(recs: seq<string>)
    requires NoneHas(recs, '\n')
    ensures ParseLines(Split(Unlines(recs), '\n')) == ParseLines(recs)
  {
    hide *;
    SplitUnlines(recs);
    ParseLinesAppend(recs, [""]);
    EmptyLine();
    assert ParseLines(recs) + [] == ParseLines(recs);
  }

  lemma LeadIs(z: Zone)
    ensures Lead(z) == "$TTL " + IntText(ShownTtl(z)) + "\n" + "@       IN  "
  {
    hide IntText;
    assert "\n@       IN  " == "\n" + "@       IN  ";
  }

  lemma FirstLine(z: Zone)
    requires 0 <= z.ttl
    ensures '\n' !in "$TTL " + IntText(ShownTtl(z))
  {
    assert '\n' !in Itoa(ShownTtl(z));
  }

  lemma EmptyLine()
    ensures ParseLines([""]) == []
  {
    IndentedLine("");
    NoneParsed([""]);
  }

  lemma StrippedGlue(first: string, more: seq<string>)
    ensures Unlines([first, "@       IN  SOA"] + more) ==
            first + "\n" + "@       IN  " + ("SOA" + ("\n" + Unlines(more)))
  {
    hide Unlines;
    UnlinesCons(first, ["@       IN  SOA"] + more);
    UnlinesCons("@       IN  SOA", more);
    assert [first, "@       IN  SOA"] + more == [first] + (["@       IN  SOA"] + more);
    assert "@       IN  SOA" == "@       IN  " + "SOA";
  }
}
