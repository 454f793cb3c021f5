/** Zone files whose start of authority is found, and those where it is not. */
module ZoneAuthority {
  import opened Text
  import opened Decimal
  import opened Zones
  import opened ZoneFile
  import opened ZoneFileRoundTrip

  // ---------------------------------------------------------------- what is read of the head

  lemma {:induction false} SoaFields(s: string)
    requires FindSoa(s).Some?
    ensures NameOk(FindSoa(s).value.primaryNS) && NameOk(FindSoa(s).value.admin)
  {
    hide SoaAt;
    if SoaAt(s).Some? {
      SoaAtFields(s);
    } else {
      SoaFields(s[1..]);
    }
  }

  lemma SoaAtFields(s: string)
    requires SoaAt(s).Some?
    ensures NameOk(SoaAt(s).value.primaryNS) && NameOk(SoaAt(s).value.admin)
  {
    hide SoaBlock, Upper;
    var t := s[3..];
    var b := RunLen(t, IsBlank);
    var n := RunLen(t[b..], IsField);
    var u := t[b..][n..];
    var v := u[RunLen(u, IsBlank)..];
    assert NameOk(t[b..][..n]) by {
      FieldPrefix(t[b..], n);
    }
    AdminFields(t[b..][..n], v);
  }

  lemma FieldPrefix(t: string, n: nat)
    requires 0 < n <= RunLen(t, IsField)
    ensures NameOk(t[..n])
  {}

  lemma AdminFields(ns: string, v: string)
    requires SoaBlock(ns, v).Some?
    ensures SoaBlock(ns, v).value.primaryNS == ns && NameOk(SoaBlock(ns, v).value.admin)
  {
    hide RunLen, AdminLen, NameOk, IndexOf;
    FieldPrefix(v, AdminLen(v, RunLen(v, IsField)));
  }

  lemma ReadIntFits(s: string)
    ensures MIN_INT <= ReadInt(s) <= MAX_INT && (s != "" && IsDigit(s[0]) ==> ReadInt(s) >= 0)
  {
    hide RunLen, ReadDigits;
  }

  lemma {:induction false} TtlDigits(s: string)
    ensures FindTtl(s).Some? ==> FindTtl(s).value != "" && IsDigit(FindTtl(s).value[0])
    decreases |s|
  {
    hide TtlAt;
    TtlAtDigits(s);
    if TtlAt(s).None? && '\n' in s {
      TtlDigits(s[IndexOf(s, '\n') + 1..]);
    }
  }

  lemma TtlAtDigits(s: string)
    ensures TtlAt(s).Some? ==> TtlAt(s).value != "" && IsDigit(TtlAt(s).value[0])
  {
    hide Upper;
  }

  /** The head of a zone read from a file is sound exactly when the file has a start of authority with its values in
      parentheses; without one its two names are empty and its serial is zero. */
  lemma HeadIsRead(name: string, content: string)
    ensures var z := ParseZone(name, content);
      && (HeadOk(z) <==> FindSoa(content).Some?)
      && (FindSoa(content).None? ==> z.primaryNS == "" && z.admin == "" && z.serial == 0)
      && 0 <= z.ttl <= MAX_INT && MIN_INT <= z.serial <= MAX_INT
  {
    hide FindSoa, FindTtl, ReadInt, FirstField, ParseZone, NameOk;
    ZoneParts(name, content);
    TtlDigits(content);
    if FindTtl(content).Some? {
      ReadIntFits(FindTtl(content).value);
    }
    NoName();
    if FindSoa(content).Some? {
      SoaFields(content);
      ReadIntFits(FirstField(FindSoa(content).value.block));
    }
  }

  lemma NoName()
    ensures !NameOk("")
  {}

  // ---------------------------------------------------------------- a head without names

  lemma NoBlockBehindSerial(serial: int, rest: string, k: nat)
    requires 0 < k <= |IntText(serial)| && serial >= 0
    ensures !OpensBlock((IntText(serial) + (Note() + rest))[k..])
  {
    hide *;
    Printed(serial, "");
    PrintedDigits(serial);
    var t := IntText(serial);
    var s := t + (Note() + rest);
    if k < |t| {
      assert s[k..][0] == t[k];
      DigitFirst(s[k..]);
    } else {
      assert s[k..] == Note() + rest;
      SemicolonBehind(rest);
    }
  }

  lemma PrintedDigits(n: int)
    requires n >= 0
    ensures forall i :: 0 <= i < |IntText(n)| ==> IsDigit(IntText(n)[i])
  {
    Printed(n, "");
    forall i | 0 <= i < |IntText(n)| ensures IsDigit(IntText(n)[i]) {
      assert IntText(n)[i] in Itoa(n);
    }
  }

  lemma DigitFirst(s: string)
    requires s != "" && IsDigit(s[0])
    ensures !OpensBlock(s)
  {
    NoRun(s, IsBlank);
  }

  lemma SemicolonBehind(rest: string)
    ensures !OpensBlock(Note() + rest)
  {
    hide RunLen;
    var s := Note() + rest;
    var t := s[1..];
    assert Note()[0] == ' ' && Note()[1] == ';';
    assert s[0] == Note()[0] && t[0] == s[1] == Note()[1];
    assert s == " " + t;
    OneBlank(t);
  }

  lemma {:induction false} NoAdmin(v: string, n: nat)
    requires n <= |v| && forall k :: 0 < k <= n ==> !OpensBlock(v[k..])
    ensures AdminLen(v, n) == 0
  {
    hide OpensBlock;
    if n > 0 {
      NoAdmin(v, n - 1);
    }
  }

  lemma SoaAtParts(gap: string, f: string, gap': string, v: string)
    requires gap != "" && gap' != "" && NameOk(f) && v != "" && !IsBlank(v[0])
    requires (forall i :: 0 <= i < |gap| ==> IsBlank(gap[i])) && (forall i :: 0 <= i < |gap'| ==> IsBlank(gap'[i]))
    ensures SoaAt("SOA" + (gap + (f + (gap' + v)))) == SoaBlock(f, v)
  {
    hide RunLen, SoaBlock, IsBlank, NameOk, Upper;
    NameFirst(f);
    var u := gap' + v;
    var x := f + u;
    var t := gap + x;
    var s := "SOA" + t;
    assert s[0] == 'S' && s[1..3] == "OA" && s[3..] == t;
    UpperCapitals("OA");
    assert u[0] == gap'[0];
    FieldRun(f, u);
    assert x[0] == f[0];
    RunOf(gap, x, IsBlank);
    RunOf(gap', v, IsBlank);
  }

  lemma NameFirst(f: string)
    requires NameOk(f)
    ensures f != "" && !IsBlank(f[0])
  {
    assert f[0] in f;
  }

  lemma NamelessBlock(serial: int, rest: string)
    requires serial >= 0
    ensures SoaBlock("(", IntText(serial) + (Note() + rest)).None?
  {
    hide IntText, OpensBlock, AdminLen, Note;
    var t := IntText(serial);
    var v := t + (Note() + rest);
    Printed(serial, "");
    PrintedDigits(serial);
    NoteStarts();
    forall c | c in t ensures !IsBlank(c) {
      var i :| 0 <= i < |t| && t[i] == c;
    }
    FieldRun(t, Note() + rest);
    forall k | 0 < k <= |t| ensures !OpensBlock(v[k..]) {
      NoBlockBehindSerial(serial, rest, k);
    }
    NoAdmin(v, |t|);
  }

  lemma NoteStarts()
    ensures Note() != "" && Note()[0] == ' '
  {}

  /** A printed head without the two names is no start of authority: the parenthesis is taken for the first of them, and
      the serial for the second. */
  lemma NamelessAt(serial: int, rest: string)
    requires serial >= 0
    ensures SoaAt(NamelessText(serial, rest)).None?
  {
    hide IntText, SoaBlock, RunLen, Note, SoaAt;
    Printed(serial, "");
    NamelessBlock(serial, rest);
    SoaAtParts("   ", "(", "\n                ", IntText(serial) + (Note() + rest));
  }

  function NamelessText(serial: int, rest: string): string {
    "SOA" + ("   " + ("(" + ("\n                " + (IntText(serial) + (Note() + rest)))))
  }

  /** Nor does one start further on, but in what follows the block. */
  lemma NamelessIsLost(serial: int, rest: string)
    requires serial >= 0
    ensures FindSoa(NamelessText(serial, ")" + rest)) == FindSoa(rest)
    ensures StripSoa(NamelessText(serial, ")" + rest)) == NamelessText(serial, ")" + StripSoa(rest))
  {
    hide *;
    var s := NamelessText(serial, ")" + rest);
    NamelessAt(serial, ")" + rest);
    NamelessParts(serial, rest);
    NamelessParts(serial, StripSoa(rest));
    SoaStep(s);
    NamelessQuiet(serial);
    SoaSkips(NamelessLead(serial), rest);
    assert [s[0]] + (NamelessLead(serial) + StripSoa(rest)) == "S" + (NamelessLead(serial) + StripSoa(rest));
  }

  /** The head behind its first letter. */
  function NamelessLead(serial: int): string {
    "OA" + ("   " + ("(" + ("\n                " + (IntText(serial) + (Note() + ")")))))
  }

  lemma NamelessParts(serial: int, rest: string)
    ensures var s := NamelessText(serial, ")" + rest);
      s != "" && s[0] == 'S' && s[1..] == NamelessLead(serial) + rest && s == "S" + (NamelessLead(serial) + rest)
  {
    hide IntText, Note;
    assert "SOA" == "S" + "OA";
    NamelessGlue("OA", "   ", "(", "\n                ", IntText(serial), Note(), ")", rest);
    assert ("S" + (NamelessLead(serial) + rest))[1..] == NamelessLead(serial) + rest;
  }

  lemma NamelessGlue(a: string, b: string, c: string, d: string, e: string, f: string, g: string, h: string)
    ensures ("S" + a) + (b + (c + (d + (e + (f + (g + h)))))) == "S" + ((a + (b + (c + (d + (e + (f + g)))))) + h)
  {}

  lemma NamelessQuiet(serial: int)
    requires serial >= 0
    ensures Quiet(NamelessLead(serial))
  {
    hide Quiet, IntText, Note;
    var t, n := IntText(serial), Note();
    NumberQuiet(serial);
    NoteQuiet();
    HeadWords();
    QuietJoin(n, ")");
    QuietJoin(t, n + ")");
    QuietJoin("\n                ", t + (n + ")"));
    QuietJoin("(", "\n                " + (t + (n + ")")));
    QuietJoin("   ", "(" + ("\n                " + (t + (n + ")"))));
    QuietJoin("OA", "   " + ("(" + ("\n                " + (t + (n + ")")))));
  }

  lemma HeadWords()
    ensures Quiet("OA") && Quiet("   ") && Quiet("(") && Quiet("\n                ") && Quiet(")")
  {}

  lemma NoteQuiet()
    ensures Quiet(Note())
  {
    hide Quiet, Note;
    NoteWords();
    SerialWord();
    AgentWord();
    QuietJoin(" ; Serial (managed by ", "soteria-agent");
  }

  lemma NoteWords()
    ensures Note() == " ; Serial (managed by " + "soteria-agent"
  {}

  lemma SerialWord()
    ensures Quiet(" ; Serial (managed by ")
  {
    var p := " ; Serial (managed by ";
    assert p[3] == 'S' && p[4] == 'e';
    assert forall i :: 0 <= i < |p| && i != 3 ==> !IsS(p[i]);
    assert Breaks(p, 4, 'O');
  }

  lemma AgentWord()
    ensures Quiet("soteria-agent")
  {
    var p := "soteria-agent";
    assert p[0] == 's' && p[2] == 't';
    assert forall i :: 1 <= i < |p| ==> !IsS(p[i]);
    assert Breaks(p, 2, 'A');
  }

  // ---------------------------------------------------------------- a whole file

  predicate NoParens(rs: seq<Record>) {
    forall r :: r in rs ==> '(' !in r.name && '(' !in r.value
  }

  /** The TTLs are numbers of the width that the code has them in. */
  predicate TtlsInRange(rs: seq<Record>) {
    forall r :: r in rs ==> r.ttl <= MAX_INT
  }

  lemma {:induction false} TrimLeftKeeps(s: string, c: char)
    requires c in s && !IsSpace(c)
    ensures c in TrimLeft(s)
  {
    hide IsSpace;
    if IsSpace(s[0]) {
      TrimLeftKeeps(s[1..], c);
    }
  }

  lemma {:induction false} TrimRightKeeps(s: string, c: char)
    requires c in s && !IsSpace(c)
    ensures c in TrimRight(s)
  {
    hide IsSpace;
    if IsSpace(s[|s| - 1]) {
      TrimRightKeeps(s[..|s| - 1], c);
    }
  }

  lemma {:induction false} UpperHas(s: string)
    ensures '(' in s <==> '(' in Upper(s)
  {
    if s != "" {
      UpperHas(s[1..]);
      assert s == [s[0]] + s[1..];
    }
  }

  /** A type that passes validation holds no parenthesis, whatever stands around it. */
  lemma ValidType(r: Record, ip: Addresses)
    requires RecordValid(r, ip)
    ensures '(' !in Upper(r.rtype)
  {
    hide Upper, TrimLeft, TrimRight, RecordTypes;
    UpperHas(r.rtype);
    UpperHas(Trim(r.rtype));
    TypeLacks(Upper(Trim(r.rtype)), '(');
    if '(' in r.rtype {
      TrimLeftKeeps(r.rtype, '(');
      TrimRightKeeps(TrimLeft(r.rtype), '(');
    }
  }

  lemma {:induction false} NoParenLines(rs: seq<Record>, w: Widths, ip: Addresses)
    requires RecordsValid(rs, ip) && NoParens(rs) && TtlsInRange(rs) && TtlsFit(rs, w)
    ensures NoneHas(RecordLines(rs, w), '(')
  {
    hide RecordLine, RecordValid;
    if rs != [] {
      var r := rs[0];
      assert r in rs;
      ValidType(r, ip);
      LineLacks(r, w, '(');
      NoParenLines(rs[1..], w, ip);
    }
  }

  /** Validated records without a parenthesis do not read as a start of authority. */
  lemma ValidLines(rs: seq<Record>, ip: Addresses)
    requires RecordsValid(rs, ip) && NoParens(rs) && TtlsInRange(rs)
    ensures NoSoaIn(rs)
  {
    hide *;
    FitTtls(rs, Widths(1, 1, 0, false));
    NoParenLines(rs, Fit(rs, Widths(1, 1, 0, false)), ip);
    LinesOfIs(rs);
    UnlinesLacks(LinesOf(rs));
    NoParenNoSoa(Unlines(LinesOf(rs)));
  }

  /** A head whose two names are missing, as it is read from a file without an authority. */
  predicate Nameless(z: Zone) {
    z.primaryNS == "" && z.admin == "" && z.serial >= 0 && z.ttl >= 0
  }

  lemma NamelessIs(z: Zone)
    ensures Nameless(z) <==> z.primaryNS == "" && z.admin == "" && z.serial >= 0 && z.ttl >= 0
  {}

  /** The head of such a zone, rendered, is no start of authority: what is found and stripped is what its printed
      records hold. */
  lemma NamelessZone(z: Zone)
    requires Nameless(z)
    ensures var recs := Unlines(LinesOf(z.records));
      FindSoa(ZoneText(z)) == FindSoa(recs) && StripSoa(ZoneText(z)) == Unlines(HeadLines(z)) + StripSoa(recs)
  {
    hide *;
    NamelessIs(z);
    var recs := LinesOf(z.records);
    LinesAre(z);
    ContentShape(z, recs);
    var rest := "\n" + Unlines(TimerLines() + recs);
    TimersQuiet(recs);
    HeadParts(z);
    LeadQuiet(z);
    SoaSkips(Lead(z), SoaText(z, rest));
    NamelessSoa(z, rest);
    NamelessIsLost(z.serial, rest);
    NamelessSoa(z, StripSoa(rest));
    HeadBefore(z, StripSoa(Unlines(recs)));
  }

  /** The head and any text behind it. */
  lemma HeadBefore(z: Zone, more: string)
    ensures Lead(z) + SoaText(z, "\n" + (Unlines(TimerLines()) + more)) == Unlines(HeadLines(z)) + more
  {
    hide *;
    ContentShape(z, []);
    assert TimerLines() + [] == TimerLines() && HeadLines(z) + [] == HeadLines(z);
    SoaTextBefore(z, "\n" + Unlines(TimerLines()), more);
    Assoc("\n", Unlines(TimerLines()), more);
    Assoc(Lead(z), SoaText(z, "\n" + Unlines(TimerLines())), more);
  }

  lemma SoaTextBefore(z: Zone, a: string, b: string)
    ensures SoaText(z, a + b) == SoaText(z, a) + b
  {
    hide BlockText;
    var block := BlockText(z);
    assert "(" + block + ")" + (a + b) == ("(" + block + ")" + a) + b;
  }

  lemma LinesAre(z: Zone)
    ensures ZoneText(z) == Unlines(HeadLines(z) + LinesOf(z.records))
  {
    hide HeadLines, Fit, RecordLines, Unlines;
  }

  lemma NamelessSoa(z: Zone, rest: string)
    requires z.primaryNS == "" && z.admin == ""
    ensures SoaText(z, rest) == NamelessText(z.serial, ")" + rest)
  {
    hide IntText, Note;
    var block := BlockText(z);
    assert "   " == " " + (" " + " ");
    assert " " + ("" + (" " + ("" + (" " + ("(" + block + ")" + rest))))) == "   " + ("(" + (block + (")" + rest)));
    var t, n := IntText(z.serial), Note();
    assert ("\n                " + (t + n)) + (")" + rest) == "\n                " + (t + (n + (")" + rest)));
  }

  // ---------------------------------------------------------------- the records of such a file

  /** The second line of the head, when its names are missing: the word in it is no type of a record. */
  lemma NamelessLine(line: string)
    requires line == "@       IN  SOA " + "" + " " + "" + " ("
    ensures ParseLine(line) == []
  {
    hide *;
    NamelessLineShape(line);
    StartsIn(Spaces(2) + ("SOA" + (Spaces(3) + "(")));
    AtIsName();
    HeadReads("@", 7, "", 1, "IN" + (Spaces(2) + ("SOA" + (Spaces(3) + "("))));
    NamelessTail();
    NotType();
    LineCases(line);
  }

  lemma NamelessLineShape(line: string)
    requires line == "@       IN  SOA " + "" + " " + "" + " ("
    ensures line == "@" + (Spaces(7) + ("" + (Spaces(0) + ("IN" + (Spaces(2) + ("SOA" + (Spaces(3) + "(")))))))
  {
    assert Spaces(7) == "       " && Spaces(3) == "   " && Spaces(2) == "  " && Spaces(0) == "";
    hide Spaces;
    assert "SOA" + ("   " + "(") == "SOA   (";
    assert line == "@       IN  SOA   (";
  }

  lemma NamelessTail()
    ensures MatchTail("IN" + (Spaces(2) + ("SOA" + (Spaces(3) + "(")))).Some?
    ensures MatchTail("IN" + (Spaces(2) + ("SOA" + (Spaces(3) + "(")))).value.0 == "SOA"
  {
    hide RunLen, Spaces, Trim, ValueEnd, Upper;
    UpperCapitals("SOA");
    var s6 := Spaces(3) + "(";
    var s5 := "SOA" + s6;
    var s4 := Spaces(2) + s5;
    assert ("IN" + s4)[..2] == "IN" && ("IN" + s4)[2..] == s4;
    assert s6[0] == ' ';
    BlankRun(2, s5);
    RunOf("SOA", s6, IsLetter);
    BlankRun(3, "(");
  }

  lemma NotType()
    ensures "SOA" !in RecordTypes()
  {
    hide RecordTypes;
    if "SOA" in RecordTypes() {
      TypeCapitals("SOA");
    }
  }

  lemma NamelessHeadLines(z: Zone)
    requires z.primaryNS == "" && z.admin == "" && z.serial >= 0 && z.ttl >= 0
    ensures ParseLines(HeadLines(z)) == [] && NoneHas(HeadLines(z), '\n')
  {
    hide *;
    var soa := "@       IN  SOA " + z.primaryNS + " " + z.admin + " (";
    var first, serial := "$TTL " + IntText(ShownTtl(z)),
      "                " + IntText(z.serial) + " ; Serial (managed by soteria-agent)";
    var timers := TimerLines();
    HeadAre(z, first, soa, serial);
    NamelessLine(soa);
    NoNewlines(z, first, soa, serial);
    DollarLine(first);
    IndentedLine(serial);
    TimersParse();
    NoneParsed(HeadLines(z));
  }

  lemma TimersParse()
    ensures forall l :: l in TimerLines() ==> ParseLine(l) == []
  {
    hide ParseLine;
    var timers := TimerLines();
    IndentedLine(timers[0]);
    IndentedLine(timers[1]);
    IndentedLine(timers[2]);
    IndentedLine(timers[3]);
    IndentedLine(timers[4]);
  }

  lemma HeadAre(z: Zone, first: string, soa: string, serial: string)
    requires first == "$TTL " + IntText(ShownTtl(z)) && soa == "@       IN  SOA " + z.primaryNS + " " + z.admin + " ("
    requires serial == "                " + IntText(z.serial) + " ; Serial (managed by soteria-agent)"
    ensures HeadLines(z) == [first, soa, serial] + TimerLines() && first != "" && first[0] == '$' && serial != ""
    ensures serial[0] == ' '
  {
    hide IntText, TimerLines;
  }

  lemma NoNewlines(z: Zone, first: string, soa: string, serial: string)
    requires z.primaryNS == "" && z.admin == "" && z.serial >= 0 && z.ttl >= 0
    requires HeadLines(z) == [first, soa, serial] + TimerLines()
    requires first == "$TTL " + IntText(ShownTtl(z)) && soa == "@       IN  SOA " + z.primaryNS + " " + z.admin + " ("
    requires serial == "                " + IntText(z.serial) + " ; Serial (managed by soteria-agent)"
    ensures NoneHas(HeadLines(z), '\n')
  {
    hide *;
    PlainTimers();
    HeadParts(z);
    FirstLine(z);
    NamelessSoaLine(soa);
    SerialLine(z.serial);
    NoneHasThree(first, soa, serial);
    NoneHasBoth([first, soa, serial], TimerLines());
  }

  lemma NoneHasThree(a: string, b: string, c: string)
    requires '\n' !in a && '\n' !in b && '\n' !in c
    ensures NoneHas([a, b, c], '\n')
  {}

  lemma NamelessSoaLine(soa: string)
    requires soa == "@       IN  SOA " + "" + " " + "" + " ("
    ensures '\n' !in soa
  {
    assert '\n' !in "@       IN  SOA " && '\n' !in " (";
  }

  lemma SerialLine(n: int)
    requires n >= 0
    ensures '\n' !in "                " + IntText(n) + " ; Serial (managed by soteria-agent)"
  {
    PrintedDigits(n);
    hide IntText;
    assert '\n' !in "                " && '\n' !in " ; Serial (managed by " && '\n' !in "soteria-agent)";
    assert " ; Serial (managed by soteria-agent)" == " ; Serial (managed by " + "soteria-agent)";
  }

  /** The records of a file without an authority are read like those of any other. */
  lemma NamelessRecords(z: Zone)
    requires Nameless(z)
    ensures ParseZone(z.name, ZoneText(z)).records == ParseLines(Split(StripSoa(Unlines(LinesOf(z.records))), '\n'))
  {
    hide *;
    NamelessIs(z);
    var more := StripSoa(Unlines(LinesOf(z.records)));
    NamelessZone(z);
    NamelessHeadLines(z);
    SplitBehind(HeadLines(z), more);
    ParseLinesAppend(HeadLines(z), Split(more, '\n'));
    assert [] + ParseLines(Split(more, '\n')) == ParseLines(Split(more, '\n'));
    ZoneParts(z.name, ZoneText(z));
  }

  lemma NoneHasBoth(a: seq<string>, b: seq<string>)
    requires NoneHas(a, '\n') && NoneHas(b, '\n')
    ensures NoneHas(a + b, '\n')
  {}
}
