/** Replacing the records of zones: what a zone's serial does over any sequence of replacements. */
module ZoneRuns {
  import opened Text
  import opened Zones
  import opened ZoneFile
  import opened ZoneFileRoundTrip
  import opened ZoneAuthority
  import opened ZoneSurvival

  // ---------------------------------------------------------------- serials

  /** nextSerial, for a clock whose date reads YYYYMMDD; the sum wraps as 64-bit integers do. */
  function NextSerial(last: int, date: nat): int {
    var base := date * 100;
    if last < base then base + 1 else if last == MAX_INT then MIN_INT else last + 1
  }

  /** The order of 32-bit serial numbers (section 3.2 of RFC 1982). */
  predicate SerialGreater(s: int, than: int) {
    (s > than && s - than < 0x8000_0000) || (s < than && than - s > 0x8000_0000)
  }

  /** The serial grows exactly when it is not the greatest integer. */
  lemma SerialGrows(last: int, date: nat)
    requires last <= MAX_INT && (date + 1) * 100 <= MAX_INT
    ensures NextSerial(last, date) > last <==> last < MAX_INT
    ensures last < MAX_INT ==> date * 100 < NextSerial(last, date) <= MAX_INT
  {}

  /** Where the dated serial fits 32 bits, the new one is greater in their order exactly when the old one is less
      than half their range behind the date. */
  lemma SerialOrder(last: int, date: nat)
    requires 0 <= last < 0xFFFF_FFFF && date * 100 + 1 < 0x1_0000_0000
    ensures 0 <= NextSerial(last, date) < 0x1_0000_0000
    ensures SerialGreater(NextSerial(last, date), last) <==> date * 100 + 1 - last < 0x8000_0000
    ensures date <= 21471231 ==> SerialGreater(NextSerial(last, date), last)
  {}

  // ---------------------------------------------------------------- the provider

  function ReplacedText(name: string, content: string, records: seq<Record>, date: nat): string {
    var z := ParseZone(name, content);
    ZoneText(z.(records := records, serial := NextSerial(z.serial, date)))
  }

  /** The zone files after a replacement, by zone name. */
  function Replaced(files: map<string, string>, name: string, records: seq<Record>, date: nat,
                    ip: Addresses): map<string, string> {
    if !RecordsValid(records, ip) || name !in files then files
    else files[name := ReplacedText(name, files[name], records, date)]
  }

  class BindProvider {
    var files: map<string, string>

    constructor (files: map<string, string>)
      ensures this.files == files
    {
      this.files := files;
    }

    /** validateRecords */
    method ValidateRecords(records: seq<Record>, ip: Addresses) returns (ok: bool)
      ensures ok == RecordsValid(records, ip)
    {
      hide RecordValid;
      for i := 0 to |records|
        invariant forall j :: 0 <= j < i ==> RecordValid(records[j], ip)
      {
        if !RecordValid(records[i], ip) {
          return false;
        }
      }
      return true;
    }

    /** ReplaceRecords up to the reload, whose failure leaves the file as written. */
    method ReplaceRecords(name: string, records: seq<Record>, date: nat, ip: Addresses) returns (ok: bool)
      modifies this
      ensures files == Replaced(old(files), name, records, date, ip)
      ensures ok == (RecordsValid(records, ip) && name in old(files))
    {
      hide RecordsValid, ParseZone, ZoneText, NextSerial;
      var valid := ValidateRecords(records, ip);
      if !valid {
        return false;
      }
      if name !in files {
        return false;
      }
      var z := ParseZoneFile(name, files[name]);
      z := z.(records := records);
      z := z.(serial := NextSerial(z.serial, date));
      var text := RenderZone(z);
      files := files[name := text];
      ok := true;
    }
  }

  // ---------------------------------------------------------------- runs

  datatype Replacement = Replacement(name: string, records: seq<Record>, date: nat)

  predicate Accepted(files: map<string, string>, e: Replacement, ip: Addresses) {
    RecordsValid(e.records, ip) && e.name in files
  }

  function RunAll(files: map<string, string>, es: seq<Replacement>, ip: Addresses): map<string, string>
    decreases es
  {
    if es == [] then files else RunAll(Replaced(files, es[0].name, es[0].records, es[0].date, ip), es[1..], ip)
  }

  /** The accepted replacements of one zone. */
  function Count(es: seq<Replacement>, name: string, ip: Addresses): nat {
    if es == [] then 0
    else (if es[0].name == name && RecordsValid(es[0].records, ip) then 1 else 0) + Count(es[1..], name, ip)
  }

  function ZoneOf(files: map<string, string>, name: string): Zone
    requires name in files
  {
    ParseZone(name, files[name])
  }

  /** The authority, serial and default TTL of a rendered zone are read back whatever its records are. */
  lemma HeadSurvives(z: Zone)
    requires HeadOk(z)
    ensures var r := ParseZone(z.name, ZoneText(z));
      r.primaryNS == z.primaryNS && r.admin == z.admin && r.serial == z.serial && r.ttl == ShownTtl(z)
  {
    hide *;
    ZoneTextIs(z);
    var recs := RecordLines(z.records, Fit(z.records, Widths(1, 1, 0, false)));
    var rest := "\n" + Unlines(TimerLines() + recs);
    ContentShape(z, recs);
    HeadFits(z);
    SoaReads(z, rest);
    SerialReads(z);
    TtlReads(z, SoaText(z, rest));
    ZoneParts(z.name, ZoneText(z));
  }

  lemma HeadFits(z: Zone)
    requires HeadOk(z)
    ensures 0 <= z.ttl <= MAX_INT && MIN_INT <= z.serial <= MAX_INT
  {}

  /** A file whose start of authority is found. */
  predicate HasAuthority(content: string) {
    FindSoa(content).Some?
  }

  lemma AuthorityIs(name: string, content: string)
    ensures HasAuthority(content) <==> HeadOk(ParseZone(name, content))
    ensures !HasAuthority(content) ==>
              var z := ParseZone(name, content); z.primaryNS == "" && z.admin == "" && z.serial == 0
    ensures !HasAuthority(content) ==> Nameless(ParseZone(name, content))
    ensures MIN_INT <= ParseZone(name, content).serial <= MAX_INT
  {
    hide FindSoa, ParseZone, HeadOk;
    HeadIsRead(name, content);
  }

  /** One accepted replacement of a file with an authority, by any records: the same authority, and the next serial,
      which is greater unless the last was the greatest integer. */
  lemma ReplacementReads(name: string, content: string, records: seq<Record>, date: nat)
    requires HasAuthority(content) && (date + 1) * 100 <= MAX_INT
    ensures var before := ParseZone(name, content);
      var after := ParseZone(name, ReplacedText(name, content, records, date));
      && after.primaryNS == before.primaryNS && after.admin == before.admin && after.ttl == ShownTtl(before)
      && after.serial == NextSerial(before.serial, date) && (after.serial > before.serial <==> before.serial < MAX_INT)
    ensures HasAuthority(ReplacedText(name, content, records, date))
  {
    hide ParseZone, ZoneText, HeadOk, HasAuthority, NextSerial;
    AuthorityIs(name, content);
    SerialGrows(ParseZone(name, content).serial, date);
    ParseKeepsName(name, content);
    AuthorityStays(name, content, records, date);
    var before := ParseZone(name, content);
    HeadSurvives(before.(records := records, serial := NextSerial(before.serial, date)));
  }

  /** Also when the serial wraps. */
  lemma AuthorityStays(name: string, content: string, records: seq<Record>, date: nat)
    requires HasAuthority(content) && (date + 1) * 100 <= MAX_INT
    ensures HasAuthority(ReplacedText(name, content, records, date))
    ensures var before := ParseZone(name, content);
      HeadOk(before.(records := records, serial := NextSerial(before.serial, date)))
  {
    hide ParseZone, ZoneText, HeadOk, HasAuthority, NextSerial;
    AuthorityIs(name, content);
    ParseKeepsName(name, content);
    var before := ParseZone(name, content);
    var next := NextSerial(before.serial, date);
    NextInRange(before.serial, date);
    HeadCarries(before, records, next);
    var z := before.(records := records, serial := next);
    HeadSurvives(z);
    SameHead(z, ParseZone(name, ZoneText(z)));
    AuthorityIs(name, ZoneText(z));
  }

  lemma SameHead(z: Zone, z': Zone)
    requires HeadOk(z) && z'.primaryNS == z.primaryNS && z'.admin == z.admin && z'.serial == z.serial
    requires z'.ttl == ShownTtl(z)
    ensures HeadOk(z')
  {
    hide NameOk;
  }

  /** The serial a text is read to have. */
  function SerialIn(text: string): int {
    if FindSoa(text).Some? && FirstField(FindSoa(text).value.block) != "" then
      ReadInt(FirstField(FindSoa(text).value.block))
    else 0
  }

  lemma SerialOf(name: string, content: string)
    ensures ParseZone(name, content).serial == SerialIn(content)
    ensures ParseZone(name, content).primaryNS ==
            if FindSoa(content).Some? then FindSoa(content).value.primaryNS else ""
    ensures ParseZone(name, content).admin == if FindSoa(content).Some? then FindSoa(content).value.admin else ""
  {
    hide FindTtl, FindSoa, FirstField, ReadInt, ParseLines, Split, StripSoa;
  }

  /** Replacing a file without an authority: the authority and serial read back are those that the printed records
      hold. */
  lemma AuthorityOfRecords(name: string, content: string, records: seq<Record>, date: nat)
    requires !HasAuthority(content)
    ensures ParseZone(name, content).serial == 0
    ensures var text := ReplacedText(name, content, records, date); var printed := Unlines(LinesOf(records));
      FindSoa(text) == FindSoa(printed) && ParseZone(name, text).serial == SerialIn(printed)
  {
    hide ParseZone, ZoneText, FindSoa, FirstField, ReadInt, NextSerial, LinesOf, Unlines;
    AuthorityIs(name, content);
    var before := ParseZone(name, content);
    var next := NextSerial(before.serial, date);
    NextIsPositive(before.serial, date);
    var z := before.(records := records, serial := next);
    NamelessZone(z);
    SerialOf(name, ZoneText(z));
  }

  lemma NextIsPositive(last: int, date: nat)
    requires 0 <= last < MAX_INT
    ensures NextSerial(last, date) > 0
  {}

  /** Without an authority, a replacement leaves none unless the records hold one: the two names are lost, and the
      serial reads as zero again. */
  lemma NoAuthorityStays(name: string, content: string, records: seq<Record>, date: nat)
    requires !HasAuthority(content) && NoSoaIn(records)
    ensures ParseZone(name, content).serial == 0
    ensures var text := ReplacedText(name, content, records, date);
      !HasAuthority(text) && ParseZone(name, text).primaryNS == "" && ParseZone(name, text).serial == 0
  {
    hide ParseZone, ReplacedText, FindSoa, LinesOf, Unlines;
    AuthorityOfRecords(name, content, records, date);
    AuthorityIs(name, ReplacedText(name, content, records, date));
  }

  /** The serial read back after an accepted replacement, by any records, is greater exactly when a start of authority
      is found in the file that is replaced, its serial not the greatest integer, or when none is found there, but one
      with a positive serial in the records. */
  lemma SerialAdvances(name: string, content: string, records: seq<Record>, date: nat)
    requires (date + 1) * 100 <= MAX_INT
    ensures ParseZone(name, ReplacedText(name, content, records, date)).serial > ParseZone(name, content).serial <==>
            if HasAuthority(content) then ParseZone(name, content).serial < MAX_INT
            else SerialIn(Unlines(LinesOf(records))) > 0
  {
    hide *;
    if HasAuthority(content) {
      ReplacementReads(name, content, records, date);
    } else {
      AuthorityOfRecords(name, content, records, date);
    }
  }

  /** A replacement of such a file leaves no trace in the next one on the same date, which writes the same serial. */
  lemma NoAuthorityRepeats(name: string, content: string, records: seq<Record>, more: seq<Record>, date: nat)
    requires !HasAuthority(content) && NoSoaIn(records)
    ensures ReplacedText(name, ReplacedText(name, content, records, date), more, date) ==
            ReplacedText(name, content, more, date)
  {
    hide ParseZone, ZoneText, NoSoaIn, HasAuthority;
    var text := ReplacedText(name, content, records, date);
    NoAuthorityStays(name, content, records, date);
    AuthorityIs(name, content);
    AuthorityIs(name, text);
    TtlStays(name, content, records, date);
    var z := ParseZone(name, content).(records := more, serial := NextSerial(0, date));
    var z' := ParseZone(name, text).(records := more, serial := NextSerial(0, date));
    SameText(z, z');
  }

  lemma TtlStays(name: string, content: string, records: seq<Record>, date: nat)
    ensures ParseZone(name, ReplacedText(name, content, records, date)).ttl == ShownTtl(ParseZone(name, content))
  {
    hide FindSoa, FindTtl, ReadInt, FirstField, ParseLines, Split, StripSoa, SoaText, Lead, HeadLines, Unlines,
      RecordLines;
    HeadIsRead(name, content);
    var before := ParseZone(name, content);
    var z := before.(records := records, serial := NextSerial(before.serial, date));
    var recs := RecordLines(z.records, Fit(z.records, Widths(1, 1, 0, false)));
    var rest := "\n" + Unlines(TimerLines() + recs);
    ContentShape(z, recs);
    TtlReads(z, SoaText(z, rest));
  }

  lemma SameText(z: Zone, z': Zone)
    requires z.primaryNS == z'.primaryNS && z.admin == z'.admin && z.serial == z'.serial && ShownTtl(z) == ShownTtl(z')
    requires z.records == z'.records
    ensures ZoneText(z) == ZoneText(z')
  {
    hide IntText, Fit, RecordLines, TimerLines, Unlines;
  }

  /** A zone of legal form, with its authority on one line. */
  function OneLineZone(): string {
    "@ IN SOA ns. host. 7 3600 600 " + "86400 300\n"
  }

  /** Its records replaced twice on one day: the serial that secondaries go by stays, and the authority is gone. */
  lemma SameSerialTwice(name: string, date: nat, ip: Addresses)
    ensures var once := ReplacedText(name, OneLineZone(), [], date);
      && Replaced(map[name := once], name, [], date, ip) == map[name := once]
      && ParseZone(name, once).primaryNS == "" && ParseZone(name, once).serial == 0
  {
    hide ParseZone, ReplacedText, HasAuthority, RecordsValid;
    NoParenThere();
    NoRecords();
    NoAuthorityRepeats(name, OneLineZone(), [], [], date);
    NoAuthorityStays(name, OneLineZone(), [], date);
  }

  /** A record that reads as an authority, in a zone without one. */
  function AuthorityRecord(): Record {
    Record("x", "TXT", 0, "SOA a b (5)")
  }

  /** It passes validation, and its text becomes the name server, the administrator and the serial of the zone. */
  lemma RecordBecomesAuthority(name: string, date: nat, ip: Addresses)
    ensures RecordsValid([AuthorityRecord()], ip) && !HasAuthority(OneLineZone())
    ensures var z := ParseZone(name, ReplacedText(name, OneLineZone(), [AuthorityRecord()], date));
      z.primaryNS == "a" && z.admin == "b" && z.serial == 5 > ParseZone(name, OneLineZone()).serial
  {
    hide *;
    NoParenThere();
    var text := ReplacedText(name, OneLineZone(), [AuthorityRecord()], date);
    AuthorityRecordIsValid(ip);
    AuthorityOfRecords(name, OneLineZone(), [AuthorityRecord()], date);
    SerialOf(name, text);
    AuthorityFound();
  }

  lemma AuthorityRecordIsValid(ip: Addresses)
    ensures RecordsValid([AuthorityRecord()], ip)
  {
    hide Trim, Upper;
    TypeLetters("TXT");
    TrimmedIsTrim("TXT");
    TrimmedIsTrim("x");
    TrimmedIsTrim(AuthorityRecord().value);
  }

  lemma AuthorityFound()
    ensures var printed := Unlines(LinesOf([AuthorityRecord()]));
      FindSoa(printed) == Some(Soa("a", "b", "5", "\n")) && SerialIn(printed) == 5
  {
    hide *;
    var w := Widths(1, 3, 0, false);
    var r := AuthorityRecord();
    AuthorityWidths();
    AuthorityLine(w);
    OneRecordLine(r, w);
    LinesOfIs([r]);
    AuthorityMatches();
    var s := "SOA a b (5)" + "\n";
    assert "x  IN  TXT  " + "SOA a b (5)" + "\n" == "x  IN  TXT  " + s;
    SoaSkips("x  IN  TXT  ", s);
    FiveIsRead(Unlines(LinesOf([r])));
  }

  lemma AuthorityWidths()
    ensures Fit([AuthorityRecord()], Widths(1, 1, 0, false)) == Widths(1, 3, 0, false)
  {
    assert [AuthorityRecord()][1..] == [];
  }

  lemma AuthorityLine(w: Widths)
    requires w == Widths(1, 3, 0, false)
    ensures RecordLine(AuthorityRecord(), w) == "x  IN  TXT  " + "SOA a b (5)" && Quiet("x  IN  TXT  ")
  {
    hide Upper, IntText;
    TypeLetters("TXT");
    assert "x" + "  " + "" + "IN  " + "TXT" + "  " == "x  IN  TXT  ";
  }

  lemma AuthorityMatches()
    ensures FindSoa("SOA a b (5)" + "\n") == Some(Soa("a", "b", "5", "\n"))
  {
    hide SoaAt;
    SoaMatches("a", "b", "5", "\n");
    assert "SOA" + (" " + ("a" + (" " + ("b" + (" " + ("(" + "5" + ")" + "\n")))))) == "SOA a b (5)" + "\n";
  }

  lemma FiveIsRead(printed: string)
    requires FindSoa(printed) == Some(Soa("a", "b", "5", "\n"))
    ensures SerialIn(printed) == 5
  {
    hide FindSoa, ReadInt, RunLen;
    NoRun("5", IsSpace);
    RunOf("5", "", NotSpace);
    assert "5" + "" == "5";
    IntReads(5);
    assert IntText(5) == "5";
  }

  lemma NoRecords()
    ensures NoSoaIn([])
  {
    NoParenNoSoa("");
  }

  lemma NoParenThere()
    ensures !HasAuthority(OneLineZone())
  {
    hide FindSoa;
    assert '(' !in OneLineZone();
    NoParenNoSoa(OneLineZone());
  }

  lemma ParseKeepsName(name: string, content: string)
    ensures ParseZone(name, content).name == name
  {
    hide FindTtl, FindSoa, FirstField, ReadInt, ParseLines, Split, StripSoa;
  }

  /** Far from the end of the integers, for a run of this length. */
  predicate Room(serial: int, es: seq<Replacement>) {
    serial + |es| < MAX_INT && forall e :: e in es ==> (e.date + 1) * 100 + |es| < MAX_INT
  }

  /** Over any sequence of replacements, of any zones, with any clock readings: the serial of a zone grows by at least
      one for each accepted replacement of it, and its authority stays. */
  lemma {:induction false} SerialsIncrease(files: map<string, string>, es: seq<Replacement>, ip: Addresses, n: string)
    requires n in files && HasAuthority(files[n]) && Room(ZoneOf(files, n).serial, es)
    ensures var final := RunAll(files, es, ip);
      && n in final && HasAuthority(final[n])
      && ZoneOf(final, n).serial >= ZoneOf(files, n).serial + Count(es, n, ip)
      && ZoneOf(final, n).primaryNS == ZoneOf(files, n).primaryNS && ZoneOf(final, n).admin == ZoneOf(files, n).admin
      && ZoneOf(final, n).ttl == (if Count(es, n, ip) == 0 then ZoneOf(files, n).ttl else ShownTtl(ZoneOf(files, n)))
    decreases es
  {
    hide RecordsValid, ParseZone, ReplacedText, HasAuthority, NextSerial;
    if es != [] {
      var e := es[0];
      var next := Replaced(files, e.name, e.records, e.date, ip);
      assert e in es;
      if e.name == n && RecordsValid(e.records, ip) {
        ReplacementReads(n, files[n], e.records, e.date);
        NextIsNear(ZoneOf(files, n).serial, e.date);
      }
      assert Room(ZoneOf(next, n).serial, es[1..]);
      SerialsIncrease(next, es[1..], ip, n);
    }
  }

  /** An accepted replacement of the zone by records that read as an authority. */
  predicate Gains(es: seq<Replacement>, ip: Addresses, n: string) {
    exists e :: e in es && e.name == n && RecordsValid(e.records, ip) && !NoSoaIn(e.records)
  }

  lemma GainsCons(e: Replacement, es: seq<Replacement>, ip: Addresses, n: string)
    ensures Gains([e] + es, ip, n) <==>
            (e.name == n && RecordsValid(e.records, ip) && !NoSoaIn(e.records)) || Gains(es, ip, n)
  {
    hide RecordsValid, NoSoaIn;
    assert e in [e] + es;
    assert forall x :: x in es ==> x in [e] + es;
  }

  /** Over any sequence of replacements, of any zones and by any records, a zone ends with an authority exactly when it
      had one, or was once replaced by records that hold one. */
  lemma {:induction false} AuthorityOverRuns(files: map<string, string>, es: seq<Replacement>, ip: Addresses, n: string)
    requires n in files && forall e :: e in es ==> (e.date + 1) * 100 <= MAX_INT
    ensures var final := RunAll(files, es, ip);
      n in final && (HasAuthority(final[n]) <==> HasAuthority(files[n]) || Gains(es, ip, n))
    decreases es
  {
    hide RecordsValid, ParseZone, ReplacedText, HasAuthority, NoSoaIn, Gains, HeadOk, NextSerial;
    if es == [] {
      NothingGained(ip, n);
    } else {
      var e := es[0];
      assert e in es && es == [e] + es[1..];
      GainsCons(e, es[1..], ip, n);
      if e.name == n && RecordsValid(e.records, ip) {
        if HasAuthority(files[n]) {
          AuthorityStays(n, files[n], e.records, e.date);
        } else {
          AuthorityGained(n, files[n], e.records, e.date);
        }
      }
      AuthorityOverRuns(Replaced(files, e.name, e.records, e.date, ip), es[1..], ip, n);
    }
  }

  lemma AuthorityGained(name: string, content: string, records: seq<Record>, date: nat)
    requires !HasAuthority(content)
    ensures HasAuthority(ReplacedText(name, content, records, date)) <==> !NoSoaIn(records)
  {
    hide ParseZone, ReplacedText, FindSoa, LinesOf, Unlines;
    AuthorityOfRecords(name, content, records, date);
  }

  lemma NothingGained(ip: Addresses, n: string)
    ensures !Gains([], ip, n)
  {}

  /** And as long as it has none, its serial reads as zero. */
  lemma SerialsStuck(files: map<string, string>, es: seq<Replacement>, ip: Addresses, n: string)
    requires n in files && !HasAuthority(files[n]) && !Gains(es, ip, n)
    requires forall e :: e in es ==> (e.date + 1) * 100 <= MAX_INT
    ensures var final := RunAll(files, es, ip); n in final && !HasAuthority(final[n]) && ZoneOf(final, n).serial == 0
  {
    hide RunAll, ParseZone, HasAuthority, Gains;
    AuthorityOverRuns(files, es, ip, n);
    AuthorityIs(n, RunAll(files, es, ip)[n]);
  }

  lemma NextIsNear(last: int, date: nat)
    requires last < MAX_INT
    ensures NextSerial(last, date) <= (if last < date * 100 then date * 100 + 1 else last + 1)
  {}

  /** What is read back after a replacement by validated records is those records exactly when every one has a sound
      line and none of them reads as a start of authority, whatever was in the file. */
  lemma ReplacementSurvives(name: string, content: string, records: seq<Record>, date: nat, ip: Addresses)
    requires RecordsValid(records, ip) && TtlsInRange(records) && (date + 1) * 100 <= MAX_INT
    ensures ParseZone(name, ReplacedText(name, content, records, date)).records == Normals(records) <==>
            LinesSound(records) && NoSoaIn(records)
  {
    hide ParseZone, ZoneText, RecordsValid, TtlsInRange, NoSoaIn, HeadOk, Normals, HasAuthority, NextSerial, LinesSound;
    AuthorityIs(name, content);
    ParseKeepsName(name, content);
    var before := ParseZone(name, content);
    NextInRange(before.serial, date);
    if HasAuthority(content) {
      AuthorityStays(name, content, records, date);
    } else {
      NextIsPositive(before.serial, date);
    }
    RecordsSurvive(before.(records := records, serial := NextSerial(before.serial, date)), ip);
  }

  lemma HeadCarries(z: Zone, records: seq<Record>, serial: int)
    requires HeadOk(z) && MIN_INT <= serial <= MAX_INT
    ensures HeadOk(z.(records := records, serial := serial))
  {
    hide NameOk;
  }

  lemma NextInRange(last: int, date: nat)
    requires MIN_INT <= last <= MAX_INT && (date + 1) * 100 <= MAX_INT
    ensures MIN_INT <= NextSerial(last, date) <= MAX_INT
  {}

  /** After any run, a zone's records are those of its last accepted replacement exactly when those survive. */
  lemma LastReplacement(files: map<string, string>, es: seq<Replacement>, ip: Addresses, e: Replacement)
    requires e.name in files && RecordsValid(e.records, ip) && TtlsInRange(e.records) && (e.date + 1) * 100 <= MAX_INT
    ensures var final := RunAll(files, es + [e], ip);
      && e.name in final
      && (ZoneOf(final, e.name).records == Normals(e.records) <==> LinesSound(e.records) && NoSoaIn(e.records))
  {
    hide RecordsValid, ParseZone, ReplacedText, RunAll, TtlsInRange, Normals, LinesSound, NoSoaIn;
    var before := RunAll(files, es, ip);
    ZoneStays(files, es, ip, e.name);
    RunAppend(files, es, [e], ip);
    RunOne(before, e, ip);
    ReplacementSurvives(e.name, before[e.name], e.records, e.date, ip);
  }

  lemma {:induction false} ZoneStays(files: map<string, string>, es: seq<Replacement>, ip: Addresses, n: string)
    requires n in files
    ensures n in RunAll(files, es, ip)
    decreases es
  {
    hide RecordsValid, ReplacedText;
    if es != [] {
      ZoneStays(Replaced(files, es[0].name, es[0].records, es[0].date, ip), es[1..], ip, n);
    }
  }

  lemma RunOne(files: map<string, string>, e: Replacement, ip: Addresses)
    ensures RunAll(files, [e], ip) == Replaced(files, e.name, e.records, e.date, ip)
  {}

  lemma {:induction false} RunAppend(files: map<string, string>, a: seq<Replacement>, b: seq<Replacement>,
                                     ip: Addresses)
    ensures RunAll(files, a + b, ip) == RunAll(RunAll(files, a, ip), b, ip)
    decreases a
  {
    if a == [] {
      assert a + b == b;
    } else {
      hide Replaced;
      RunAppend(Replaced(files, a[0].name, a[0].records, a[0].date, ip), a[1..], b, ip);
      assert (a + b)[1..] == a[1..] + b;
    }
  }
}
