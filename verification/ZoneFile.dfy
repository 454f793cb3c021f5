/** Zone files: rendering a zone to text, and the matchers that read one back. */
module ZoneFile {
  import opened Text
  import opened Decimal
  import opened Zones
  import ReverseZones

  // ---------------------------------------------------------------- characters

  /** White space as regular expressions mean it. */
  predicate IsBlank(c: char) {
    c == ' ' || c == '\t' || c == '\n' || c == '\r' || c == '\U{0C}'
  }

  predicate IsField(c: char) {
    !IsBlank(c)
  }

  predicate IsLetter(c: char) {
    'A' <= c <= 'Z' || 'a' <= c <= 'z'
  }

  /** unicode.ToUpper wherever it yields a letter A to Z: the dotless i and the long s become such letters, too. */
  function UpperChar(c: char): char {
    if 'a' <= c <= 'z' then c - 'a' + 'A' else if c == '\U{131}' then 'I' else if c == '\U{17F}' then 'S' else c
  }

  /** strings.ToUpper */
  function Upper(s: string): (u: string)
    ensures |u| == |s|
  {
    if s == "" then "" else [UpperChar(s[0])] + Upper(s[1..])
  }

  // ---------------------------------------------------------------- validation

  /** What net.ParseIP says of a text. */
  datatype Addresses = Addresses(isV4: string -> bool, isV6: string -> bool)

  /** What validateRecords asks of one record. */
  predicate RecordValid(r: Record, ip: Addresses) {
    var t := Upper(Trim(r.rtype));
    && t in RecordTypes() && Trim(r.name) != "" && Trim(r.value) != ""
    && (forall c | c in r.name :: c !in " \t\r\n") && (forall c | c in r.value :: c !in "\r\n")
    && (t == "A" ==> ip.isV4(r.value)) && (t == "AAAA" ==> ip.isV6(r.value))
  }

  predicate RecordsValid(rs: seq<Record>, ip: Addresses) {
    forall i :: 0 <= i < |rs| ==> RecordValid(rs[i], ip)
  }

  // ---------------------------------------------------------------- integers

  const MAX_INT: int := 0x7FFF_FFFF_FFFF_FFFF
  const MIN_INT: int := -MAX_INT - 1

  function IntText(n: int): string {
    if n < 0 then "-" + Itoa(-n) else Itoa(n)
  }

  function Clamp(n: int): int {
    if n > MAX_INT then MAX_INT else if n < MIN_INT then MIN_INT else n
  }

  predicate IsNumber(s: string) {
    s != "" && RunLen(s, IsDigit) == |s|
  }

  /** The value strconv.ParseInt and Atoi return, whose error is ignored: zero on a syntax error, the nearest number
      in range when there is none in it. */
  function ReadInt(s: string): int {
    var t := if s != "" && (s[0] == '+' || s[0] == '-') then s[1..] else s;
    if !IsNumber(t) then 0
    else
      var n: int := ReadDigits(t, 0).0;
      Clamp(if s[0] == '-' then -n else n)
  }

  // ---------------------------------------------------------------- rendering

  function Pad(s: string, w: nat): string {
    if |s| < w then s + Spaces(w - |s|) else s
  }

  function ShownName(r: Record): string {
    if r.name == "" then "@" else r.name
  }

  function TtlText(r: Record): string {
    if r.ttl > 0 then IntText(r.ttl) else ""
  }

  datatype Widths = Widths(name: nat, rtype: nat, ttl: nat, hasTtl: bool)

  function Max(a: nat, b: nat): nat {
    if b > a then b else a
  }

  /** The column widths that the records of a list need, on top of others. */
  function Fit(rs: seq<Record>, w: Widths): Widths
    decreases rs
  {
    if rs == [] then w
    else
      var r := rs[0];
      Fit(rs[1..], Widths(Max(w.name, |ShownName(r)|), Max(w.rtype, |r.rtype|), Max(w.ttl, |TtlText(r)|),
                          w.hasTtl || r.ttl > 0))
  }

  function TtlColumn(r: Record, w: Widths): string {
    if w.hasTtl then Pad(TtlText(r), w.ttl) + "  " else ""
  }

  function RecordLine(r: Record, w: Widths): string {
    Pad(ShownName(r), w.name) + "  " + TtlColumn(r, w) + "IN  " + Pad(Upper(r.rtype), w.rtype) + "  " + r.value
  }

  function RecordLines(rs: seq<Record>, w: Widths): seq<string> {
    if rs == [] then [] else [RecordLine(rs[0], w)] + RecordLines(rs[1..], w)
  }

  function ShownTtl(z: Zone): int {
    if z.ttl == 0 then 3600 else z.ttl
  }

  function TimerLine(number: string, word: string): string {
    "                " + number + "; " + word
  }

  function TimerLines(): seq<string> {
    [TimerLine("3600       ", "Refresh"),
     TimerLine("1800       ", "Retry"),
     TimerLine("604800     ", "Expire"),
     TimerLine("300 )      ", "Negative cache TTL"),
     ""]
  }

  /** The lines before the records. */
  function HeadLines(z: Zone): seq<string> {
    ["$TTL " + IntText(ShownTtl(z)),
     "@       IN  SOA " + z.primaryNS + " " + z.admin + " (",
     "                " + IntText(z.serial) + " ; Serial (managed by soteria-agent)"] + TimerLines()
  }

  function ZoneText(z: Zone): string {
    Unlines(HeadLines(z) + RecordLines(z.records, Fit(z.records, Widths(1, 1, 0, false))))
  }

  /** renderZone */
  method RenderZone(zone: Zone) returns (text: string)
    ensures text == ZoneText(zone)
  {
    hide RecordLine, IntText, HeadLines, TimerLines, Unlines;
    var z := zone;
    if z.ttl == 0 {
      z := z.(ttl := 3600);
    }
    var nameW: nat, typeW: nat, ttlW: nat, hasTtl := 1, 1, 0, false;
    for i := 0 to |z.records|
      invariant Fit(z.records[i..], Widths(nameW, typeW, ttlW, hasTtl)) == Fit(z.records, Widths(1, 1, 0, false))
    {
      assert z.records[i..][1..] == z.records[i + 1..];
      var r := z.records[i];
      var name := if r.name == "" then "@" else r.name;
      if |name| > nameW {
        nameW := |name|;
      }
      if |r.rtype| > typeW {
        typeW := |r.rtype|;
      }
      if r.ttl > 0 {
        hasTtl := true;
        if |IntText(r.ttl)| > ttlW {
          ttlW := |IntText(r.ttl)|;
        }
      }
    }
    var w := Widths(nameW, typeW, ttlW, hasTtl);
    text := WriteHead(z);
    assert HeadLines(z) == HeadLines(zone) by {
      SameHead(zone);
    }
    ghost var head := text;
    for i := 0 to |z.records|
      invariant text + Unlines(RecordLines(z.records[i..], w)) == head + Unlines(RecordLines(z.records, w))
    {
      RecordStep(text, z.records, w, i);
      text := text + RecordLine(z.records[i], w) + "\n";
    }
    NoLines();
    assert text + "" == text;
    UnlinesAppend(HeadLines(z), RecordLines(z.records, w));
  }

  lemma SameHead(z: Zone)
    ensures HeadLines(z.(ttl := ShownTtl(z))) == HeadLines(z)
  {}

  lemma NoLines()
    ensures Unlines([]) == ""
  {}

  lemma RecordStep(text: string, rs: seq<Record>, w: Widths, i: nat)
    requires i < |rs|
    ensures text + Unlines(RecordLines(rs[i..], w)) ==
            text + RecordLine(rs[i], w) + "\n" + Unlines(RecordLines(rs[i + 1..], w))
  {
    hide RecordLine;
    assert rs[i..][1..] == rs[i + 1..];
    var more := RecordLines(rs[i + 1..], w);
    assert ([RecordLine(rs[i], w)] + more)[1..] == more;
  }

  method WriteHead(z: Zone) returns (sb: string)
    ensures sb == Unlines(HeadLines(z))
  {
    hide IntText, TimerLine, Unlines;
    var ttl := z.ttl;
    if ttl == 0 {
      ttl := 3600;
    }
    var first := "$TTL " + IntText(ttl);
    var soa := "@       IN  SOA " + z.primaryNS + " " + z.admin + " (";
    var serial := "                " + IntText(z.serial) + " ; Serial (managed by soteria-agent)";
    sb := first + "\n";
    sb := sb + soa + "\n";
    sb := sb + serial + "\n";
    sb := sb + TimerLine("3600       ", "Refresh") + "\n";
    sb := sb + TimerLine("1800       ", "Retry") + "\n";
    sb := sb + TimerLine("604800     ", "Expire") + "\n";
    sb := sb + TimerLine("300 )      ", "Negative cache TTL") + "\n";
    sb := sb + "" + "\n";
    HeadGlue(first, soa, serial);
  }

  lemma HeadGlue(first: string, soa: string, serial: string)
    ensures Unlines([first, soa, serial] + TimerLines()) ==
            first + "\n" + soa + "\n" + serial + "\n" +
            TimerLine("3600       ", "Refresh") + "\n" +
            TimerLine("1800       ", "Retry") + "\n" +
            TimerLine("604800     ", "Expire") + "\n" +
            TimerLine("300 )      ", "Negative cache TTL") + "\n" +
            "" + "\n"
  {
    hide Unlines, TimerLine;
    var t := TimerLines();
    UnlinesAppend([first, soa, serial], t);
    ThreeLines(first, soa, serial);
    ThreeLines(t[0], t[1], t[2]);
    UnlinesCons(t[3], [t[4]]);
    UnlinesCons(t[4], []);
    NoLines();
    assert [t[4]] + [] == [t[4]] && [t[3]] + [t[4]] == [t[3], t[4]];
    assert t == [t[0], t[1], t[2]] + [t[3], t[4]];
    UnlinesAppend([t[0], t[1], t[2]], [t[3], t[4]]);
  }

  lemma UnlinesCons(line: string, lines: seq<string>)
    ensures Unlines([line] + lines) == line + "\n" + Unlines(lines)
  {
    assert ([line] + lines)[1..] == lines;
  }

  lemma ThreeLines(a: string, b: string, c: string)
    ensures Unlines([a, b, c]) == a + "\n" + b + "\n" + c + "\n"
  {
    UnlinesCons(a, [b, c]);
    UnlinesCons(b, [c]);
    UnlinesCons(c, []);
    assert [a] + [b, c] == [a, b, c] && [b] + [c] == [b, c] && [c] + [] == [c];
    ThreePieces(a + "\n", b + "\n", c + "\n");
  }

  lemma ThreePieces(a: string, b: string, c: string)
    ensures a + (b + (c + "")) == a + b + c
  {}

  // ---------------------------------------------------------------- matchers

  /** The leftmost line that gives a default TTL: blanks, $TTL in either case, blanks, digits. */
  function TtlAt(s: string): Option<string> {
    var t := s[RunLen(s, IsBlank)..];
    if |t| < 4 || Upper(t[..4]) != "$TTL" then None
    else
      var u := t[4..];
      var b := RunLen(u, IsBlank);
      var d := RunLen(u[b..], IsDigit);
      if b == 0 || d == 0 then None else Some(u[b..b + d])
  }

  function FindTtl(s: string): Option<string>
    decreases |s|
  {
    if TtlAt(s).Some? then TtlAt(s)
    else if '\n' in s then FindTtl(s[IndexOf(s, '\n') + 1..])
    else None
  }

  predicate IsS(c: char) {
    c == 's' || c == 'S' || c == '\U{17F}'
  }

  /** Blanks, an opening parenthesis, and a closing one somewhere after it. */
  predicate OpensBlock(s: string) {
    var t := s[RunLen(s, IsBlank)..];
    t != "" && t[0] == '(' && ')' in t
  }

  /** The longest of the first n lengths of a field after which a block opens. */
  function AdminLen(s: string, n: nat): (k: nat)
    requires n <= |s|
    ensures k <= n && (k > 0 ==> OpensBlock(s[k..]))
  {
    if n == 0 || OpensBlock(s[n..]) then n else AdminLen(s, n - 1)
  }

  datatype Soa = Soa(primaryNS: string, admin: string, block: string, rest: string)

  /** The administrator's field and the block behind it. */
  function SoaBlock(ns: string, v: string): (r: Option<Soa>)
    ensures r.Some? ==> |r.value.rest| < |v|
  {
    var a := AdminLen(v, RunLen(v, IsField));
    if a == 0 then None
    else
      var x := v[a..];
      var y := x[RunLen(x, IsBlank)..];
      var close := IndexOf(y, ')');
      Some(Soa(ns, v[..a], y[1..close], y[close + 1..]))
  }

  /** The start of authority: the word, two fields and a block in parentheses, and what follows it. */
  function SoaAt(s: string): (r: Option<Soa>)
    ensures r.Some? ==> |r.value.rest| < |s|
  {
    if |s| < 3 || !IsS(s[0]) || Upper(s[1..3]) != "OA" then None
    else
      var t := s[3..];
      var b := RunLen(t, IsBlank);
      var n := RunLen(t[b..], IsField);
      var u := t[b..][n..];
      var b' := RunLen(u, IsBlank);
      if b == 0 || n == 0 || b' == 0 then None else SoaBlock(t[b..][..n], u[b'..])
  }

  function FindSoa(s: string): Option<Soa> {
    if SoaAt(s).Some? then SoaAt(s) else if s == "" then None else FindSoa(s[1..])
  }

  /** Every start of authority becomes the bare word. */
  function StripSoa(s: string): string
    decreases |s|
  {
    if SoaAt(s).Some? then "SOA" + StripSoa(SoaAt(s).value.rest)
    else if s == "" then ""
    else [s[0]] + StripSoa(s[1..])
  }

  predicate NotSpace(c: char) {
    !IsSpace(c)
  }

  /** The first of strings.Fields, or none. */
  function FirstField(s: string): string {
    var t := s[RunLen(s, IsSpace)..];
    t[..RunLen(t, NotSpace)]
  }

  /** Where the value of a record ends: before the first semicolon after its first character. */
  function ValueEnd(v: string): (k: nat)
    requires v != ""
    ensures 1 <= k <= |v| && ';' !in v[1..k] && (k < |v| ==> v[k] == ';')
  {
    if ';' in v[1..] then 1 + IndexOf(v[1..], ';') else |v|
  }

  /** recordRe: owner, optional TTL, IN, type, value, and a comment that is dropped. */
  function MatchRecord(line: string): Option<Record> {
    var n := RunLen(line, IsField);
    var s1 := line[n..];
    var b1 := RunLen(s1, IsBlank);
    if n == 0 || b1 == 0 then None
    else
      var s2 := s1[b1..];
      var d := RunLen(s2, IsDigit);
      var bd := RunLen(s2[d..], IsBlank);
      var ttl := if d > 0 && bd > 0 then s2[..d] else "";
      var s3 := if d > 0 && bd > 0 then s2[d..][bd..] else s2;
      var tail := MatchTail(s3);
      if tail.None? then None
      else Some(Record(line[..n], tail.value.0, if ttl == "" then 0 else ReadInt(ttl), tail.value.1))
  }

  /** The part of a record line from IN on: type and value. */
  function MatchTail(s: string): Option<(string, string)> {
    if !HasPrefix(s, "IN") then None
    else
      var s4 := s[2..];
      var b4 := RunLen(s4, IsBlank);
      var s5 := s4[b4..];
      var l := RunLen(s5, IsLetter);
      var s6 := s5[l..];
      var b6 := RunLen(s6, IsBlank);
      var v := s6[b6..];
      if b4 == 0 || l == 0 || b6 == 0 || (v == "" && b6 == 1) then None
      else Some((Upper(s5[..l]), if v == "" then "" else Trim(v[..ValueEnd(v)])))
  }

  /** What one line of a stripped zone file contributes. */
  function ParseLine(line: string): seq<Record> {
    var t := Trim(line);
    if t == "" || t[0] == ';' || t[0] == '$' then []
    else
      var m := MatchRecord(line);
      if m.None? || m.value.rtype !in RecordTypes() then [] else [m.value]
  }

  function ParseLines(lines: seq<string>): seq<Record> {
    if lines == [] then [] else ParseLine(lines[0]) + ParseLines(lines[1..])
  }

  /** What parseZoneFile yields for the content of a file. */
  function ParseZone(name: string, content: string): Zone {
    var ttl := FindTtl(content);
    var soa := FindSoa(content);
    Zone(name, ReverseZones.KindOf(name), ReverseZones.NetworkOf(name),
         if soa.Some? then soa.value.primaryNS else "",
         if soa.Some? then soa.value.admin else "",
         if soa.Some? && FirstField(soa.value.block) != "" then ReadInt(FirstField(soa.value.block)) else 0,
         if ttl.Some? then ReadInt(ttl.value) else 3600,
         ParseLines(Split(StripSoa(content), '\n')))
  }

  /** parseZoneFile, on the content of the file */
  method ParseZoneFile(name: string, content: string) returns (z: Zone)
    ensures z == ParseZone(name, content)
  {
    hide *;
    var network := ReverseZones.NetworkOfZone(name);
    z := Zone(name, ReverseZones.KindOf(name), network, "", "", 0, 3600, []);
    var ttl := FindTtl(content);
    if ttl.Some? {
      z := z.(ttl := ReadInt(ttl.value));
    }
    var soa := FindSoa(content);
    if soa.Some? {
      z := z.(primaryNS := soa.value.primaryNS, admin := soa.value.admin);
      var field := FirstField(soa.value.block);
      if field != "" {
        z := z.(serial := ReadInt(field));
      }
    }
    ghost var head := z;
    var lines := Split(StripSoa(content), '\n');
    for i := 0 to |lines|
      invariant z == head.(records := z.records)
      invariant z.records + ParseLines(lines[i..]) == ParseLines(lines)
    {
      var line := lines[i];
      LineStep(z.records, lines, i);
      var trimmed := Trim(line);
      LineCases(line);
      if trimmed == "" || trimmed[0] == ';' || trimmed[0] == '$' {
        assert z.records + [] == z.records;
        continue;
      }
      var m := MatchRecord(line);
      if m.None? || m.value.rtype !in RecordTypes() {
        assert z.records + [] == z.records;
        continue;
      }
      z := z.(records := z.records + [m.value]);
    }
    NoLinesParsed(lines[|lines|..]);
    assert z.records + [] == z.records;
    ZoneParts(name, content);
  }

  lemma LineStep(done: seq<Record>, lines: seq<string>, i: nat)
    requires i < |lines|
    ensures done + ParseLines(lines[i..]) == done + ParseLine(lines[i]) + ParseLines(lines[i + 1..])
  {
    hide ParseLine;
    assert lines[i..][1..] == lines[i + 1..];
    Assoc(done, ParseLine(lines[i]), ParseLines(lines[i + 1..]));
  }

  lemma LineCases(line: string)
    ensures var t := Trim(line);
      ParseLine(line) ==
      if t == "" || t[0] == ';' || t[0] == '$' then []
      else if MatchRecord(line).None? || MatchRecord(line).value.rtype !in RecordTypes() then []
      else [MatchRecord(line).value]
  {
    hide Trim, MatchRecord;
  }

  lemma NoLinesParsed(lines: seq<string>)
    requires lines == []
    ensures ParseLines(lines) == []
  {}

  lemma ZoneParts(name: string, content: string)
    ensures var soa := FindSoa(content); var ttl := FindTtl(content);
      ParseZone(name, content) ==
      Zone(name, ReverseZones.KindOf(name), ReverseZones.NetworkOf(name),
           if soa.Some? then soa.value.primaryNS else "",
           if soa.Some? then soa.value.admin else "",
           if soa.Some? && FirstField(soa.value.block) != "" then ReadInt(FirstField(soa.value.block)) else 0,
           if ttl.Some? then ReadInt(ttl.value) else 3600,
           ParseLines(Split(StripSoa(content), '\n')))
  {
    hide FindTtl, FindSoa, FirstField, ReadInt, ParseLines, Split, StripSoa, ReverseZones.KindOf,
      ReverseZones.NetworkOf;
  }

  /** What makes a record acceptable, by its type in any case and with white space around it: an address of its kind for
      A and AAAA, and for every type an owner without white space and a value on one line, neither of them blank. */
  lemma AcceptedRecords(r: Record, ip: Addresses)
    ensures var t := Upper(Trim(r.rtype));
      RecordValid(r, ip) <==>
      && Trim(r.name) != "" && Trim(r.value) != ""
      && (forall i :: 0 <= i < |r.name| ==>
            r.name[i] != ' ' && r.name[i] != '\t' && r.name[i] != '\r' && r.name[i] != '\n')
      && (forall i :: 0 <= i < |r.value| ==> r.value[i] != '\r' && r.value[i] != '\n')
      && (if t == "A" then ip.isV4(r.value) else if t == "AAAA" then ip.isV6(r.value)
          else t == "CNAME" || t == "TXT" || t == "NS" || t == "MX" || t == "PTR" || t == "SRV")
  {
    hide Trim, Upper;
    assert forall i :: 0 <= i < |r.name| ==> r.name[i] in r.name;
    assert forall i :: 0 <= i < |r.value| ==> r.value[i] in r.value;
  }

  /** A letter of either case becomes the upper-case one, and digits stay. */
  lemma {:induction false} UpperAt(s: string, i: nat)
    requires i < |s|
    ensures 'a' <= s[i] <= 'z' ==> Upper(s)[i] as int == s[i] as int - 32
    ensures 'A' <= s[i] <= 'Z' || '0' <= s[i] <= '9' ==> Upper(s)[i] == s[i]
  {
    if i > 0 {
      UpperAt(s[1..], i - 1);
    }
  }

  // ---------------------------------------------------------------- a zone written out

  lemma TimersAre()
    ensures TimerLine("3600       ", "Refresh") == "                3600       ; Refresh"
    ensures TimerLine("1800       ", "Retry") == "                1800       ; Retry"
  {}

  lemma LaterTimersAre()
    ensures TimerLine("604800     ", "Expire") == "                604800     ; Expire"
    ensures TimerLine("300 )      ", "Negative cache TTL") == "                300 )      ; Negative cache TTL"
  {}

  /** The lines in front of the records: the TTL, 3600 by default; the names and the serial; the timers, and a blank
      line. */
  lemma HeadWritten(z: Zone)
    ensures HeadLines(z) ==
            ["$TTL " + IntText(if z.ttl == 0 then 3600 else z.ttl),
             "@       IN  SOA " + z.primaryNS + " " + z.admin + " (",
             "                " + IntText(z.serial) + " ; Serial (managed by soteria-agent)",
             "                3600       ; Refresh",
             "                1800       ; Retry",
             "                604800     ; Expire",
             "                300 )      ; Negative cache TTL",
             ""]
  {
    hide IntText, TimerLine;
    TimersAre();
    LaterTimersAre();
  }

  lemma FewSpaces()
    ensures Spaces(0) == "" && Spaces(1) == " " && Spaces(2) == "  " && Spaces(3) == "   "
  {}

  lemma PadIs(s: string, w: nat)
    ensures Pad(s, w) == if |s| < w then s + Spaces(w - |s|) else s
  {}

  lemma RecordLineIs(r: Record, w: Widths)
    ensures RecordLine(r, w) ==
            Pad(if r.name == "" then "@" else r.name, w.name) + "  " +
            (if w.hasTtl then Pad(if r.ttl > 0 then IntText(r.ttl) else "", w.ttl) + "  " else "") +
            "IN  " + Pad(Upper(r.rtype), w.rtype) + "  " + r.value
  {
    hide Pad, IntText, Upper;
  }

  lemma Halves(f: string, t: string, gap: string, v: string)
    ensures f + t + gap + v == f + (t + gap + v)
  {}

  lemma AddressColumns()
    ensures "www" + "  " + ("" + "   " + "  ") + "IN  " == "www       IN  "
    ensures "A" + " " + "  " + "10.0.0.5" == "A   10.0.0.5"
  {}

  lemma AddressJoins()
    ensures "www       IN  " + "A   10.0.0.5" == "www       IN  A   10.0.0.5"
  {}

  lemma AddressWritten()
    ensures RecordLine(Record("www", "a", 0, "10.0.0.5"), Widths(3, 2, 3, true)) == "www       IN  A   10.0.0.5"
  {
    hide *;
    FewSpaces();
    ShortTexts();
    RecordLineIs(Record("www", "a", 0, "10.0.0.5"), Widths(3, 2, 3, true));
    PadIs("www", 3);
    PadIs("", 3);
    PadIs("A", 2);
    Halves("www" + "  " + ("" + "   " + "  ") + "IN  ", "A" + " ", "  ", "10.0.0.5");
    AddressColumns();
    AddressJoins();
  }

  lemma MailColumns()
    ensures "@" + "  " + "  " + ("300" + "  ") + "IN  " == "@    300  IN  "
    ensures "MX" + "  " + "10 mail" == "MX  10 mail"
  {}

  lemma MailJoins()
    ensures "@    300  IN  " + "MX  10 mail" == "@    300  IN  MX  10 mail"
  {}

  lemma MailWritten()
    ensures RecordLine(Record("", "MX", 300, "10 mail"), Widths(3, 2, 3, true)) == "@    300  IN  MX  10 mail"
  {
    hide *;
    FewSpaces();
    ShortTexts();
    RecordLineIs(Record("", "MX", 300, "10 mail"), Widths(3, 2, 3, true));
    PadIs("@", 3);
    PadIs("300", 3);
    PadIs("MX", 2);
    Halves("@" + "  " + "  " + ("300" + "  ") + "IN  ", "MX", "  ", "10 mail");
    MailColumns();
    MailJoins();
  }

  /** Two records of one zone, in columns as wide as their longest entries. */
  lemma RecordsWritten()
    ensures var a, b := Record("www", "a", 0, "10.0.0.5"), Record("", "MX", 300, "10 mail");
            var w := Fit([a, b], Widths(1, 1, 0, false));
      RecordLine(a, w) == "www       IN  A   10.0.0.5" && RecordLine(b, w) == "@    300  IN  MX  10 mail"
  {
    hide *;
    RecordsFit();
    AddressWritten();
    MailWritten();
  }

  lemma ShortTexts()
    ensures Upper("a") == "A" && Upper("MX") == "MX" && IntText(300) == "300"
  {
    assert Itoa(300) == "300";
  }

  lemma RecordsFit()
    ensures Fit([Record("www", "a", 0, "10.0.0.5"), Record("", "MX", 300, "10 mail")], Widths(1, 1, 0, false)) ==
            Widths(3, 2, 3, true)
  {
    var rs := [Record("www", "a", 0, "10.0.0.5"), Record("", "MX", 300, "10 mail")];
    ShortTexts();
    assert rs[1..] == [rs[1]] && rs[1..][1..] == [];
  }

  // ---------------------------------------------------------------- a file without a head

  lemma {:induction false} NoTtl(s: string)
    requires '$' !in s
    ensures FindTtl(s) == None
    decreases |s|
  {
    var t := s[RunLen(s, IsBlank)..];
    if |t| >= 4 {
      UpperDollar(t[..4]);
      assert t[0] in s;
    }
    if '\n' in s {
      NoTtl(s[IndexOf(s, '\n') + 1..]);
    }
  }

  lemma UpperDollar(s: string)
    requires s != "" && s[0] != '$'
    ensures Upper(s) != "$TTL"
  {
    assert Upper(s)[0] == UpperChar(s[0]);
  }

  lemma {:induction false} NoBlocks(s: string)
    requires '(' !in s
    ensures FindSoa(s) == None
  {
    NoBlockAt(s);
    if s != "" {
      NoBlocks(s[1..]);
    }
  }

  lemma NoBlockAt(s: string)
    requires '(' !in s
    ensures SoaAt(s) == None
  {
    hide Upper;
    if |s| >= 3 {
      var t := s[3..];
      var u := t[RunLen(t, IsBlank)..];
      var v := u[RunLen(u, IsField)..];
      var w := v[RunLen(v, IsBlank)..];
      NoAdmin(w, RunLen(w, IsField));
    }
  }

  lemma {:induction false} NoAdmin(s: string, n: nat)
    requires '(' !in s && n <= |s|
    ensures AdminLen(s, n) == 0
  {
    var t := s[n..][RunLen(s[n..], IsBlank)..];
    assert t != "" ==> t[0] in s;
    if n > 0 {
      NoAdmin(s, n - 1);
    }
  }

  /** A file without a parenthesis has no authority, one without a dollar sign the default TTL; kind and network go by
      the name alone. */
  lemma BareZone(name: string, content: string)
    ensures var z := ParseZone(name, content);
      && z.name == name && z.kind == ReverseZones.KindOf(name) && z.network == ReverseZones.NetworkOf(name)
      && ('$' !in content ==> z.ttl == 3600)
      && ('(' !in content ==> z.primaryNS == "" && z.admin == "" && z.serial == 0)
  {
    hide FindTtl, FindSoa, StripSoa, ParseLines;
    if '$' !in content {
      NoTtl(content);
    }
    if '(' !in content {
      NoBlocks(content);
    }
  }
}
