/** Which records come back from a zone file they were written to. */
module ZoneSurvival {
  import opened Text
  import opened Decimal
  import opened Zones
  import opened ZoneFile
  import opened ZoneFileRoundTrip
  import opened ZoneAuthority

  // ---------------------------------------------------------------- counting parentheses

  /** The opening parentheses in a text. */
  function Parens(s: string): nat {
    multiset(s)['(']
  }

  lemma ParensJoin(a: string, b: string)
    ensures Parens(a + b) == Parens(a) + Parens(b)
  {}

  lemma ParensPart(s: string, i: nat, j: nat)
    requires i <= j <= |s|
    ensures Parens(s[i..j]) <= Parens(s)
  {
    assert s == s[..i] + (s[i..j] + s[j..]);
    ParensJoin(s[..i], s[i..j] + s[j..]);
    ParensJoin(s[i..j], s[j..]);
  }

  lemma ParenFree(s: string)
    requires '(' !in s
    ensures Parens(s) == 0
  {}

  // ---------------------------------------------------------------- stripping takes parentheses away

  /** A start of authority covers a parenthesis, in front of what follows it. */
  lemma SoaCovers(s: string)
    requires SoaAt(s).Some?
    ensures Parens(SoaAt(s).value.rest) < Parens(s)
  {
    hide RunLen, Upper, SoaBlock, Parens;
    var t := s[3..];
    var b := RunLen(t, IsBlank);
    var n := RunLen(t[b..], IsField);
    var u := t[b..][n..];
    var v := u[RunLen(u, IsBlank)..];
    BlockCovers(t[b..][..n], v);
    ParensDrop(u, RunLen(u, IsBlank));
    ParensDrop(t[b..], n);
    ParensDrop(t, b);
    ParensDrop(s, 3);
  }

  lemma ParensDrop(s: string, i: nat)
    requires i <= |s|
    ensures Parens(s[i..]) <= Parens(s)
  {
    hide Parens;
    ParensPart(s, i, |s|);
    assert s[i..|s|] == s[i..];
  }

  lemma BlockCovers(ns: string, v: string)
    requires SoaBlock(ns, v).Some?
    ensures Parens(SoaBlock(ns, v).value.rest) < Parens(v)
  {
    hide RunLen, AdminLen, Parens;
    var x := v[AdminLen(v, RunLen(v, IsField))..];
    var y := x[RunLen(x, IsBlank)..];
    ParensDrop(v, AdminLen(v, RunLen(v, IsField)));
    ParensDrop(x, RunLen(x, IsBlank));
    assert y[0] == '(' && y == "(" + y[1..];
    ParensJoin("(", y[1..]);
    OneParen();
    var close := IndexOf(y, ')');
    assert y[1..][close..] == y[close + 1..];
    ParensDrop(y[1..], close);
  }

  lemma OneParen()
    ensures Parens("(") == 1
  {}

  /** Stripping adds no parenthesis, and takes some away when there is anything to strip. */
  lemma {:induction false} StripShrinks(s: string)
    ensures Parens(StripSoa(s)) <= Parens(s)
    ensures FindSoa(s).Some? ==> Parens(StripSoa(s)) < Parens(s)
    decreases |s|
  {
    hide SoaAt, Parens;
    if SoaAt(s).Some? {
      var rest := SoaAt(s).value.rest;
      SoaCovers(s);
      StripShrinks(rest);
      ParensJoin("SOA", StripSoa(rest));
      ParenFree("SOA");
    } else if s != "" {
      StripShrinks(s[1..]);
      ParensJoin([s[0]], s[1..]);
      ParensJoin([s[0]], StripSoa(s[1..]));
      assert s == [s[0]] + s[1..];
    }
  }

  // ---------------------------------------------------------------- reading adds none

  /** The opening parentheses in the owners and values of records. */
  function FieldParens(rs: seq<Record>): nat {
    if rs == [] then 0 else Parens(rs[0].name) + Parens(rs[0].value) + FieldParens(rs[1..])
  }

  lemma {:induction false} FieldsJoin(a: seq<Record>, b: seq<Record>)
    ensures FieldParens(a + b) == FieldParens(a) + FieldParens(b)
  {
    hide Parens;
    if a == [] {
      assert a + b == b;
    } else {
      FieldsJoin(a[1..], b);
      assert (a + b)[1..] == a[1..] + b;
    }
  }

  lemma {:induction false} TrimLeftPart(s: string)
    ensures Parens(TrimLeft(s)) <= Parens(s)
  {
    hide Parens, IsSpace;
    if s != "" && IsSpace(s[0]) {
      TrimLeftPart(s[1..]);
      ParensDrop(s, 1);
    }
  }

  lemma TrimPart(s: string)
    ensures Parens(Trim(s)) <= Parens(s)
  {
    hide Parens, TrimLeft, TrimRight;
    var t := TrimLeft(s);
    TrimLeftPart(s);
    TrimRightStart(t);
    ParensPart(t, 0, |TrimRight(t)|);
    assert t[0..|TrimRight(t)|] == t[..|TrimRight(t)|];
  }

  lemma TailPart(s: string)
    ensures MatchTail(s).Some? ==> Parens(MatchTail(s).value.1) <= Parens(s)
  {
    hide RunLen, Trim, Upper, ValueEnd, Parens;
    if MatchTail(s).Some? {
      var s4 := s[2..];
      var s5 := s4[RunLen(s4, IsBlank)..];
      var s6 := s5[RunLen(s5, IsLetter)..];
      var v := s6[RunLen(s6, IsBlank)..];
      ParensDrop(s, 2);
      ParensDrop(s4, RunLen(s4, IsBlank));
      ParensDrop(s5, RunLen(s5, IsLetter));
      ParensDrop(s6, RunLen(s6, IsBlank));
      if v == "" {
        ParenFree("");
      } else {
        ParensPart(v, 0, ValueEnd(v));
        assert v[0..ValueEnd(v)] == v[..ValueEnd(v)];
        TrimPart(v[..ValueEnd(v)]);
      }
    }
  }

  /** The owner and the value of a record are parts of its line, one behind the other. */
  lemma MatchParts(line: string)
    ensures MatchRecord(line).Some? ==>
              Parens(MatchRecord(line).value.name) + Parens(MatchRecord(line).value.value) <= Parens(line)
  {
    hide RunLen, MatchTail, ReadInt, Parens;
    if MatchRecord(line).Some? {
      var n := RunLen(line, IsField);
      var s1 := line[n..];
      var s2 := s1[RunLen(s1, IsBlank)..];
      var d := RunLen(s2, IsDigit);
      var bd := RunLen(s2[d..], IsBlank);
      assert line == line[..n] + s1;
      ParensJoin(line[..n], s1);
      ParensDrop(s1, RunLen(s1, IsBlank));
      ParensDrop(s2, d);
      ParensDrop(s2[d..], bd);
      TailPart(s2);
      TailPart(s2[d..][bd..]);
    }
  }

  lemma LinePart(line: string)
    ensures FieldParens(ParseLine(line)) <= Parens(line)
  {
    hide *;
    LineCases(line);
    MatchParts(line);
    if MatchRecord(line).Some? {
      OneField(MatchRecord(line).value);
    }
    NoFields();
  }

  lemma OneField(r: Record)
    ensures FieldParens([r]) == Parens(r.name) + Parens(r.value)
  {
    assert [r][1..] == [];
  }

  lemma NoFields()
    ensures FieldParens([]) == 0
  {}

  /** Whatever lines are read, the records hold no more parentheses than the text. */
  lemma {:induction false} TextParts(s: string)
    ensures FieldParens(ParseLines(Split(s, '\n'))) <= Parens(s)
    decreases |s|
  {
    hide *;
    if '\n' in s {
      var k := IndexOf(s, '\n');
      var more := s[k + 1..];
      TextParts(more);
      SplitOne(s[..k], more, '\n');
      assert s == s[..k] + "\n" + more;
      ParseLinesCons(s[..k], Split(more, '\n'));
      FieldsJoin(ParseLine(s[..k]), ParseLines(Split(more, '\n')));
      LinePart(s[..k]);
      ParensJoin(s[..k] + "\n", more);
      ParensJoin(s[..k], "\n");
    } else {
      SplitAlone(s);
      ParseLinesCons(s, []);
      assert [s] + [] == [s];
      NoLinesParsed([]);
      assert ParseLine(s) + [] == ParseLine(s);
      LinePart(s);
    }
  }

  // ---------------------------------------------------------------- what is written

  /** The line of a validated record holds the parentheses of its owner and value only. */
  lemma WrittenLine(r: Record, w: Widths, ip: Addresses)
    requires RecordValid(r, ip) && r.ttl <= MAX_INT && (w.hasTtl || r.ttl <= 0)
    ensures Parens(RecordLine(r, w)) == Parens(Normal(r).name) + Parens(Normal(r).value)
  {
    hide *;
    var g, g2, g3 := LineShape(r, w);
    ValidType(r, ip);
    DigitsOf(r);
    NormalIs(r);
    var gap := if TtlText(r) == "" then 0 else g2;
    NoSpacesHave(g, '(');
    NoSpacesHave(gap, '(');
    NoSpacesHave(2, '(');
    NoSpacesHave(g3, '(');
    InLacks('(');
    DigitsLack(TtlText(r));
    JoinLine(ShownName(r), Spaces(g), TtlText(r), Spaces(gap), "IN", Spaces(2), Upper(r.rtype), Spaces(g3), r.value);
  }

  lemma DigitsLack(s: string)
    requires forall c | c in s :: IsDigit(c)
    ensures '(' !in s
  {}

  lemma JoinLine(a: string, b: string, c: string, d: string, e: string, f: string, g: string, h: string, i: string)
    requires '(' !in b && '(' !in c && '(' !in d && '(' !in e && '(' !in f && '(' !in g && '(' !in h
    ensures Parens(a + (b + (c + (d + (e + (f + (g + (h + i)))))))) == Parens(a) + Parens(i)
  {
    hide Parens;
    LacksFront(h, i);
    LacksFront(g, h + i);
    LacksFront(f, g + (h + i));
    LacksFront(e, f + (g + (h + i)));
    LacksFront(d, e + (f + (g + (h + i))));
    LacksFront(c, d + (e + (f + (g + (h + i)))));
    LacksFront(b, c + (d + (e + (f + (g + (h + i))))));
    ParensJoin(a, b + (c + (d + (e + (f + (g + (h + i)))))));
  }

  lemma LacksFront(a: string, b: string)
    requires '(' !in a
    ensures Parens(a + b) == Parens(b)
  {
    ParensJoin(a, b);
    ParenFree(a);
  }

  lemma {:induction false} WrittenLinesParens(rs: seq<Record>, w: Widths, ip: Addresses)
    requires RecordsValid(rs, ip) && TtlsInRange(rs) && TtlsFit(rs, w)
    ensures Parens(Unlines(RecordLines(rs, w))) == FieldParens(Normals(rs))
  {
    hide RecordLine, RecordValid, Parens, Normal;
    if rs == [] {
      ParenFree("");
    } else {
      var r := rs[0];
      assert r in rs;
      WrittenLine(r, w, ip);
      WrittenLinesParens(rs[1..], w, ip);
      var more := RecordLines(rs[1..], w);
      UnlinesCons(RecordLine(r, w), more);
      ParensJoin(RecordLine(r, w) + "\n", Unlines(more));
      ParensJoin(RecordLine(r, w), "\n");
      ParenFree("\n");
      assert Normals(rs)[1..] == Normals(rs[1..]);
    }
  }

  // ---------------------------------------------------------------- one record for each line

  lemma AtMostOne(line: string)
    ensures |ParseLine(line)| <= 1
  {
    hide *;
    LineCases(line);
  }

  lemma {:induction false} AtMostAll(lines: seq<string>)
    ensures |ParseLines(lines)| <= |lines|
  {
    hide ParseLine;
    if lines != [] {
      AtMostOne(lines[0]);
      AtMostAll(lines[1..]);
    }
  }

  lemma {:induction false} NormalsAt(rs: seq<Record>)
    ensures |Normals(rs)| == |rs| && forall i :: 0 <= i < |rs| ==> Normals(rs)[i] == Normal(rs[i])
  {
    hide Normal;
    if rs != [] {
      NormalsAt(rs[1..]);
    }
  }

  /** As many records as lines: each line has its own. */
  lemma {:induction false} EachItsOwn(rs: seq<Record>, w: Widths)
    requires ParseLines(RecordLines(rs, w)) == Normals(rs)
    ensures forall i :: 0 <= i < |rs| ==> ParseLine(RecordLine(rs[i], w)) == [Normal(rs[i])]
  {
    hide ParseLine, RecordLine, Normal;
    if rs != [] {
      var line, more := RecordLine(rs[0], w), RecordLines(rs[1..], w);
      NormalsAt(rs);
      NormalsAt(rs[1..]);
      LinesCount(rs[1..], w);
      ParseLinesCons(line, more);
      AtMostOne(line);
      AtMostAll(more);
      FirstOwn(ParseLine(line), ParseLines(more), Normal(rs[0]), Normals(rs[1..]));
      EachItsOwn(rs[1..], w);
      forall i | 0 <= i < |rs| ensures ParseLine(RecordLine(rs[i], w)) == [Normal(rs[i])] {
        if i > 0 {
          assert rs[1..][i - 1] == rs[i];
        }
      }
    }
  }

  lemma {:induction false} LinesCount(rs: seq<Record>, w: Widths)
    ensures |RecordLines(rs, w)| == |rs|
  {
    hide RecordLine;
    if rs != [] {
      LinesCount(rs[1..], w);
    }
  }

  lemma FirstOwn<T>(a: seq<T>, b: seq<T>, x: T, s: seq<T>)
    requires a + b == [x] + s && |a| <= 1 && |b| <= |s|
    ensures a == [x] && b == s
  {
    assert (a + b)[0] == x && (a + b)[1..] == s;
    assert a == [a[0]];
    assert (a + b)[1..] == b;
  }

  // ---------------------------------------------------------------- exactly the survivors

  predicate LinesSound(rs: seq<Record>) {
    forall i :: 0 <= i < |rs| ==> LineSound(rs[i])
  }

  /** When every type is clean, the lines are those that were written. */
  lemma {:induction false} CleanLines(rs: seq<Record>, w: Widths, ip: Addresses)
    requires RecordsValid(rs, ip) && TtlsInRange(rs) && TtlsFit(rs, w)
    requires forall i :: 0 <= i < |rs| ==> Upper(rs[i].rtype) in RecordTypes()
    ensures NoneHas(RecordLines(rs, w), '\n')
  {
    hide RecordLine, RecordValid, Upper, RecordTypes;
    if rs != [] {
      var r := rs[0];
      assert r in rs;
      ValidParts(r, ip);
      TypeLacks(Upper(r.rtype), '\n');
      LineLacks(r, w, '\n');
      CleanLines(rs[1..], w, ip);
    }
  }

  /** Records that come back have clean types. */
  lemma TypesClean(rs: seq<Record>, lines: seq<string>)
    requires ParseLines(lines) == Normals(rs)
    ensures forall i :: 0 <= i < |rs| ==> Upper(rs[i].rtype) in RecordTypes()
  {
    hide *;
    ParsedAsRead(lines);
    NormalsAt(rs);
    forall i | 0 <= i < |rs| ensures Upper(rs[i].rtype) in RecordTypes() {
      assert Normals(rs)[i] in ParseLines(lines);
      AsReadIs(Normals(rs)[i]);
      NormalIs(rs[i]);
    }
  }

  lemma SoundAreOk(rs: seq<Record>, ip: Addresses)
    requires RecordsValid(rs, ip) && TtlsInRange(rs) && LinesSound(rs)
    ensures RecordsOk(rs)
  {
    hide RecordValid, RecordOk, LineSound, RecordPlain;
    forall i | 0 <= i < |rs| ensures RecordOk(rs[i]) && RecordPlain(rs[i]) {
      assert rs[i] in rs;
      ValidParts(rs[i], ip);
      LineSoundIs(rs[i]);
      CleanIsOk(rs[i]);
      PlainIs(rs[i]);
    }
  }

  lemma PlainIs(r: Record)
    ensures RecordPlain(r) <==> (r.value != "" ==> ';' !in r.value[1..])
  {}

  /** The line of a validated record with a clean type, by itself. */
  lemma OwnLine(r: Record, w: Widths, ip: Addresses)
    requires RecordValid(r, ip) && r.ttl <= MAX_INT && (w.hasTtl || r.ttl <= 0) && Upper(r.rtype) in RecordTypes()
    requires ParseLine(RecordLine(r, w)) == [Normal(r)]
    ensures LineSound(r)
  {
    hide *;
    OneLine(r, w, ip);
    LineReadsBack(r, w, ip);
  }

  /** Without a start of authority, the text of the records reads as them exactly when every line is sound. */
  lemma PlainTextReads(rs: seq<Record>, w: Widths, ip: Addresses)
    requires RecordsValid(rs, ip) && TtlsInRange(rs) && TtlsFit(rs, w)
    ensures ParseLines(Split(Unlines(RecordLines(rs, w)), '\n')) == Normals(rs) <==> LinesSound(rs)
  {
    hide *;
    var lines := RecordLines(rs, w);
    if LinesSound(rs) {
      SoundAreOk(rs, ip);
      RecordsParse(rs, w);
      LinesLack(rs, w);
      WrittenLines(lines);
    }
    if ParseLines(Split(Unlines(lines), '\n')) == Normals(rs) {
      TypesClean(rs, Split(Unlines(lines), '\n'));
      CleanLines(rs, w, ip);
      WrittenLines(lines);
      EachItsOwn(rs, w);
      OwnLines(rs, w, ip);
    }
  }

  lemma OwnLines(rs: seq<Record>, w: Widths, ip: Addresses)
    requires RecordsValid(rs, ip) && TtlsInRange(rs) && TtlsFit(rs, w)
    requires forall i :: 0 <= i < |rs| ==> Upper(rs[i].rtype) in RecordTypes()
    requires forall i :: 0 <= i < |rs| ==> ParseLine(RecordLine(rs[i], w)) == [Normal(rs[i])]
    ensures LinesSound(rs)
  {
    hide RecordValid, LineSound, ParseLine, RecordLine, Normal, Upper, RecordTypes;
    forall i | 0 <= i < |rs| ensures LineSound(rs[i]) {
      assert rs[i] in rs;
      OwnLine(rs[i], w, ip);
    }
  }

  /** A start of authority among validated records costs them a parenthesis. */
  lemma AuthorityCosts(rs: seq<Record>, w: Widths, ip: Addresses)
    requires RecordsValid(rs, ip) && TtlsInRange(rs) && TtlsFit(rs, w)
    requires FindSoa(Unlines(RecordLines(rs, w))).Some?
    ensures ParseLines(Split(StripSoa(Unlines(RecordLines(rs, w))), '\n')) != Normals(rs)
  {
    hide *;
    var text := Unlines(RecordLines(rs, w));
    StripShrinks(text);
    TextParts(StripSoa(text));
    WrittenLinesParens(rs, w, ip);
  }

  /** Validated records written to a zone file, of a zone with an authority or without, are read back, their types in
      capitals, exactly when every one has a sound line and there is no start of authority in them. */
  lemma RecordsSurvive(z: Zone, ip: Addresses)
    requires (HeadOk(z) || Nameless(z)) && RecordsValid(z.records, ip) && TtlsInRange(z.records)
    ensures ParseZone(z.name, ZoneText(z)).records == Normals(z.records) <==>
            LinesSound(z.records) && NoSoaIn(z.records)
  {
    hide *;
    var rs := z.records;
    var w := Fit(rs, Widths(1, 1, 0, false));
    FitTtls(rs, Widths(1, 1, 0, false));
    LinesOfIs(rs);
    LinesAre(z);
    if HeadOk(z) {
      ContentReads(z, LinesOf(rs));
    } else {
      NamelessRecords(z);
    }
    PlainTextReads(rs, w, ip);
    if NoSoaIn(rs) {
      NoSoaStrips(Unlines(LinesOf(rs)));
    } else {
      AuthorityCosts(rs, w, ip);
    }
  }

  // ---------------------------------------------------------------- a record that changes

  function Quoted(): Record {
    Record("x", "TXT", 0, "SOA a b (c)")
  }

  lemma QuotedIsSound(ip: Addresses)
    ensures RecordValid(Quoted(), ip) && LineSound(Quoted())
  {
    hide Trim, Upper;
    TypeLetters("TXT");
    TrimmedIsTrim("TXT");
    TrimmedIsTrim("x");
    TrimmedIsTrim(Quoted().value);
  }

  lemma BareIsOk()
    ensures RecordOk(Quoted().(value := "SOA")) && RecordPlain(Quoted().(value := "SOA"))
    ensures Upper("TXT") == "TXT"
  {
    hide Trim, Upper;
    TypeLetters("TXT");
    TrimmedIsTrim("x");
  }

  lemma QuotedFront(w: Widths)
    requires w == Widths(1, 3, 0, false)
    ensures RecordLine(Quoted(), w) == "x  IN  TXT  " + "SOA a b (c)"
    ensures RecordLine(Quoted().(value := "SOA"), w) == "x  IN  TXT  " + "SOA"
    ensures Quiet("x  IN  TXT  ")
  {
    hide Upper, IntText;
    TypeLetters("TXT");
    assert "x" + "  " + "" + "IN  " + "TXT" + "  " == "x  IN  TXT  ";
  }

  lemma QuotedWidths()
    ensures Fit([Quoted()], Widths(1, 1, 0, false)) == Widths(1, 3, 0, false)
  {
    assert [Quoted()][1..] == [];
  }

  /** A validated record whose line is sound, and which comes back with another value. */
  lemma QuotedIsStripped(z: Zone, ip: Addresses)
    requires HeadOk(z) && z.records == [Quoted()]
    ensures RecordsValid(z.records, ip) && LinesSound(z.records)
    ensures ParseZone(z.name, ZoneText(z)).records == [Quoted().(value := "SOA")]
  {
    hide *;
    QuotedIsSound(ip);
    QuotedLists(ip);
    QuotedText();
    LinesAre(z);
    ContentReads(z, LinesOf(z.records));
  }

  lemma QuotedLists(ip: Addresses)
    requires RecordValid(Quoted(), ip) && LineSound(Quoted())
    ensures RecordsValid([Quoted()], ip) && LinesSound([Quoted()])
  {
    hide RecordValid, LineSound;
  }

  lemma QuotedText()
    ensures ParseLines(Split(StripSoa(Unlines(LinesOf([Quoted()]))), '\n')) == [Quoted().(value := "SOA")]
  {
    hide *;
    var w := Widths(1, 3, 0, false);
    var bare := Quoted().(value := "SOA");
    QuotedWidths();
    QuotedFront(w);
    OneRecordLine(Quoted(), w);
    OneRecordLine(bare, w);
    LinesOfIs([Quoted()]);
    QuotedMatches();
    var s := "SOA a b (c)" + "\n";
    assert "x  IN  TXT  " + "SOA a b (c)" + "\n" == "x  IN  TXT  " + s;
    SoaSkips("x  IN  TXT  ", s);
    assert "x  IN  TXT  " + ("SOA" + "\n") == "x  IN  TXT  " + "SOA" + "\n";
    BareIsOk();
    BareReads(bare, w);
  }

  lemma OneRecordLine(r: Record, w: Widths)
    ensures RecordLines([r], w) == [RecordLine(r, w)] && Unlines([RecordLine(r, w)]) == RecordLine(r, w) + "\n"
  {
    hide RecordLine;
    assert [r][1..] == [];
    var l := RecordLine(r, w);
    assert [l][1..] == [] && l + "\n" + "" == l + "\n";
  }

  lemma QuotedMatches()
    ensures StripSoa("SOA a b (c)" + "\n") == "SOA" + "\n"
  {
    hide SoaAt, FindSoa;
    SoaMatches("a", "b", "c", "\n");
    assert "SOA" + (" " + ("a" + (" " + ("b" + (" " + ("(" + "c" + ")" + "\n")))))) == "SOA a b (c)" + "\n";
    NoParenNoSoa("\n");
    NoSoaStrips("\n");
  }

  lemma BareReads(bare: Record, w: Widths)
    requires bare == Quoted().(value := "SOA") && w == Widths(1, 3, 0, false)
    requires RecordOk(bare) && RecordPlain(bare) && Upper("TXT") == "TXT"
    ensures ParseLines(Split(RecordLine(bare, w) + "\n", '\n')) == [bare]
  {
    hide RecordOk, RecordPlain, ParseLines, RecordLine, Split, Upper;
    OneRecordLine(bare, w);
    assert RecordsOk([bare]) && TtlsFit([bare], w);
    RecordsParse([bare], w);
    LinesLack([bare], w);
    WrittenLines([RecordLine(bare, w)]);
    assert [bare][1..] == [];
    assert Normals([bare]) == [Normal(bare)];
  }
}
