/** What a synchronisation writes, entry by entry: which entries become records, and which records they become. */
module SotSyncLaws {
  import opened Text
  import opened Zones
  import opened ReverseZones
  import opened SotMerge
  import opened SotSync

  // ---------------------------------------------------------------- names

  function WithoutDot(s: string): string {
    if s != "" && s[|s| - 1] == '.' then s[..|s| - 1] else s
  }

  /** The name an entry goes by, without white space around it and without one final dot: its DNS name, or that of its
      device when it has none. */
  function EntryName(e: IPEntry): string {
    WithoutDot(Trim(if e.dnsName == "" then e.deviceName else e.dnsName))
  }

  predicate HostChar(c: char) {
    'a' <= c <= 'z' || 'A' <= c <= 'Z' || '0' <= c <= '9' || c == '_' || c == '.' || c == '@' || c == '*' || c == '-'
  }

  predicate HostText(s: string) {
    forall i :: 0 <= i < |s| ==> HostChar(s[i])
  }

  /** A name with a label or more in front of the zone's name. */
  ghost predicate Under(n: string, zone: string) {
    exists host: string :: host != "" && HostText(host) && n == host + "." + zone
  }

  /** The names that get a record in a forward zone. */
  ghost predicate HasOwner(n: string, zone: string) {
    n != "" && (n == zone || Under(n, zone) || ('.' !in n && HostText(n)))
  }

  /** An owner name completed with the name of its zone (section 5.1 of RFC 1035). */
  function Completed(owner: string, zone: string): string {
    if owner == "@" then zone else owner + "." + zone
  }

  function FullName(n: string, zone: string): string {
    if n == zone || HasSuffix(n, "." + zone) then n else n + "." + zone
  }

  /** The record of an entry in a forward zone: of type AAAA for an IPv6 address and A otherwise, with the address as
      its value, under the owner that completes to the full name. A host called @ ends up at the zone's own name. */
  predicate AddressRecord(r: Record, e: IPEntry, zone: string) {
    var n := EntryName(e);
    && r.rtype == (if e.isV6 then "AAAA" else "A") && r.value == e.ip && r.ttl == 0 && r.name != ""
    && Completed(r.name, zone) == if n == "@" || n == "@." + zone then zone else FullName(n, zone)
  }

  /** The names that get a record in a reverse zone. */
  predicate HasPointer(n: string, domain: string) {
    n != "" && HostText(n) && ('.' in n || HostText(domain))
  }

  /** The record of an entry in a reverse zone: a pointer from the address to the absolute name. */
  predicate PointerRecord(r: Record, e: IPEntry, zone: string, domain: string) {
    var n := EntryName(e);
    && r.rtype == "PTR" && r.name == PtrOwner(e.ip, zone) && r.ttl == 0
    && r.value == if '.' in n || domain == "" then n + "." else n + "." + WithoutDot(domain) + "."
  }

  // ---------------------------------------------------------------- one entry

  lemma ValidIsHost(s: string)
    ensures ValidDNS(s) <==> s != "" && HostText(s)
  {
    assert forall c :: c in "_.@*-" <==> c == '_' || c == '.' || c == '@' || c == '*' || c == '-';
    assert forall i :: 0 <= i < |s| ==> s[i] in s;
  }

  lemma DotTrimmed(s: string)
    ensures TrimSuffix(s, ".") == WithoutDot(s)
  {
    if s != "" {
      assert s[|s| - 1..] == [s[|s| - 1]];
    }
  }

  lemma SuffixParts(n: string, zone: string)
    ensures HasSuffix(n, "." + zone) ==> n == TrimSuffix(n, "." + zone) + "." + zone
    ensures forall host: string :: n == host + "." + zone ==>
              HasSuffix(n, "." + zone) && TrimSuffix(n, "." + zone) == host
  {
    forall host: string | n == host + "." + zone
      ensures HasSuffix(n, "." + zone) && TrimSuffix(n, "." + zone) == host
    {
      TrimsSuffix(host, "." + zone);
      assert host + "." + zone == host + ("." + zone);
    }
  }

  lemma OwnerIs(e: IPEntry, zone: string)
    ensures var n := EntryName(e);
      ForwardOwner(e.Name(), zone) ==
      if n == "" then "" else if n == zone then "@"
      else if HasSuffix(n, "." + zone) then TrimSuffix(n, "." + zone) else if '.' in n then "" else n
  {
    hide Trim, HasSuffix;
    DotTrimmed(Trim(e.Name()));
  }

  lemma OwnerKept(e: IPEntry, zone: string)
    ensures var owner := ForwardOwner(e.Name(), zone);
      (owner != "" && ValidDNS(owner)) <==> HasOwner(EntryName(e), zone)
  {
    hide EntryName, ForwardOwner, ValidDNS, HostText, HasSuffix, TrimSuffix;
    var n := EntryName(e);
    OwnerIs(e, zone);
    SuffixParts(n, zone);
    ValidIsHost(ForwardOwner(e.Name(), zone));
    AtIsHost();
    if HasSuffix(n, "." + zone) {
      assert '.' in n by {
        SuffixHasDot(TrimSuffix(n, "." + zone), zone);
      }
    }
  }

  lemma AtIsHost()
    ensures HostText("@")
  {}

  lemma SuffixHasDot(host: string, zone: string)
    ensures '.' in host + "." + zone
  {
    assert (host + "." + zone)[|host|] == '.';
  }

  lemma OwnerCompletesName(e: IPEntry, zone: string)
    requires ForwardOwner(e.Name(), zone) != ""
    ensures var n := EntryName(e);
      Completed(ForwardOwner(e.Name(), zone), zone) ==
      if n == "@" || n == "@." + zone then zone else FullName(n, zone)
  {
    hide EntryName, ForwardOwner, HasSuffix, TrimSuffix;
    var n := EntryName(e);
    OwnerIs(e, zone);
    SuffixParts(n, zone);
    assert "@" + "." + zone == "@." + zone;
    if HasSuffix(n, "." + zone) {
      SuffixHasDot(TrimSuffix(n, "." + zone), zone);
    }
  }

  /** What becomes of one entry in a forward zone. */
  lemma ForwardEntry(e: IPEntry, zone: string)
    ensures var plan := PlanForward(e, zone);
      if HasOwner(EntryName(e), zone) then plan.Wanted? && AddressRecord(plan.rec, e, zone) else plan.Skipped?
  {
    hide EntryName, ForwardOwner, ValidDNS, HasOwner, Completed, FullName;
    OwnerKept(e, zone);
    if ForwardOwner(e.Name(), zone) != "" {
      OwnerCompletesName(e, zone);
    }
  }

  lemma ValueIs(e: IPEntry, domain: string)
    ensures var n := EntryName(e);
      Fqdn(e.Name(), domain) ==
      if n == "" then "" else if '.' in n || domain == "" then n + "." else n + "." + WithoutDot(domain) + "."
  {
    hide Trim, TrimSuffix, WithoutDot;
    DotTrimmed(Trim(e.Name()));
    DotTrimmed(domain);
  }

  lemma HostParts(a: string, b: string)
    ensures HostText(a + b) <==> HostText(a) && HostText(b)
  {
    forall i | 0 <= i < |a| ensures (a + b)[i] == a[i] {}
    forall i | 0 <= i < |b| ensures (a + b)[|a| + i] == b[i] {}
  }

  lemma DotIsHost()
    ensures HostText(".")
  {}

  lemma HostWithoutDot(s: string)
    ensures HostText(WithoutDot(s)) <==> HostText(s)
  {
    if s != "" && s[|s| - 1] == '.' {
      assert s == s[..|s| - 1] + ".";
      HostParts(s[..|s| - 1], ".");
    }
  }

  lemma ValueKept(e: IPEntry, domain: string)
    ensures var value := Fqdn(e.Name(), domain);
      (value != "" && ValidDNS(value)) <==> HasPointer(EntryName(e), domain)
  {
    hide EntryName, Fqdn, ValidDNS, HostText, WithoutDot;
    var n := EntryName(e);
    ValueIs(e, domain);
    ValidIsHost(Fqdn(e.Name(), domain));
    DotIsHost();
    HostParts(n, ".");
    HostParts(n + ".", WithoutDot(domain));
    HostParts(n + "." + WithoutDot(domain), ".");
    HostWithoutDot(domain);
    assert domain == "" ==> HostText(domain) by {
      NoHost();
    }
  }

  lemma NoHost()
    ensures HostText("")
  {}

  /** What becomes of one entry in a reverse zone. */
  lemma ReverseEntry(e: IPEntry, zone: string, domain: string)
    ensures var plan := PlanReverse(e, zone, domain);
      if e.isV6 then plan.Ignored?
      else if HasPointer(EntryName(e), domain) then plan.Wanted? && PointerRecord(plan.rec, e, zone, domain)
      else plan.Skipped?
  {
    hide EntryName, Fqdn, ValidDNS, HasPointer, WithoutDot, PtrOwner;
    ValueKept(e, domain);
    ValueIs(e, domain);
  }

  // ---------------------------------------------------------------- lists of entries

  /** The entries of a kind, in order. */
  function Only(es: seq<IPEntry>, kind: IPEntry -> bool): seq<IPEntry> {
    if es == [] then [] else (if kind(es[0]) then [es[0]] else []) + Only(es[1..], kind)
  }

  /** Records and entries that belong together one by one. */
  ghost predicate Pairs(recs: seq<Record>, es: seq<IPEntry>, belongs: (Record, IPEntry) -> bool) {
    |recs| == |es| && forall i :: 0 <= i < |es| ==> belongs(recs[i], es[i])
  }

  lemma PairsBefore(rec: Record, e: IPEntry, recs: seq<Record>, es: seq<IPEntry>, belongs: (Record, IPEntry) -> bool)
    requires belongs(rec, e) && Pairs(recs, es, belongs)
    ensures Pairs([rec] + recs, [e] + es, belongs)
  {}

  ghost function Named(zone: string): IPEntry -> bool {
    e => HasOwner(EntryName(e), zone)
  }

  function InZone(zone: string): (Record, IPEntry) -> bool {
    (r, e) => AddressRecord(r, e, zone)
  }

  function Pointing(domain: string): IPEntry -> bool {
    (e: IPEntry) => !e.isV6 && HasPointer(EntryName(e), domain)
  }

  function IsV4(): IPEntry -> bool {
    (e: IPEntry) => !e.isV6
  }

  function InReverse(zone: string, domain: string): (Record, IPEntry) -> bool {
    (r, e) => PointerRecord(r, e, zone, domain)
  }

  lemma {:induction false} ForwardList(es: seq<IPEntry>, zone: string)
    ensures Pairs(ForwardRecords(es, zone), Only(es, Named(zone)), InZone(zone))
    ensures ForwardSkips(es, zone) == |es| - |Only(es, Named(zone))|
  {
    hide PlanForward, HasOwner, AddressRecord, Pairs;
    if es == [] {
      assert Pairs([], [], InZone(zone)) by {
        NoPairs(InZone(zone));
      }
    } else {
      ForwardEntry(es[0], zone);
      ForwardList(es[1..], zone);
      var plan := PlanForward(es[0], zone);
      if plan.Wanted? {
        PairsBefore(plan.rec, es[0], ForwardRecords(es[1..], zone), Only(es[1..], Named(zone)), InZone(zone));
      } else {
        assert [] + ForwardRecords(es[1..], zone) == ForwardRecords(es[1..], zone);
        assert [] + Only(es[1..], Named(zone)) == Only(es[1..], Named(zone));
      }
    }
  }

  lemma NoPairs(belongs: (Record, IPEntry) -> bool)
    ensures Pairs([], [], belongs)
  {}

  lemma {:induction false} ReverseList(es: seq<IPEntry>, zone: string, domain: string)
    ensures Pairs(ReverseRecords(es, zone, domain), Only(es, Pointing(domain)), InReverse(zone, domain))
    ensures ReverseSkips(es, zone, domain) == |Only(es, IsV4())| - |Only(es, Pointing(domain))|
  {
    hide PlanReverse, HasPointer, PointerRecord, Pairs;
    if es == [] {
      assert Pairs([], [], InReverse(zone, domain)) by {
        NoPairs(InReverse(zone, domain));
      }
    } else {
      ReverseEntry(es[0], zone, domain);
      ReverseList(es[1..], zone, domain);
      var plan := PlanReverse(es[0], zone, domain);
      var more := Only(es[1..], Pointing(domain));
      if plan.Wanted? {
        PairsBefore(plan.rec, es[0], ReverseRecords(es[1..], zone, domain), more, InReverse(zone, domain));
      } else {
        assert [] + ReverseRecords(es[1..], zone, domain) == ReverseRecords(es[1..], zone, domain);
        assert [] + more == more;
      }
    }
  }

  // ---------------------------------------------------------------- additions and updates

  ghost predicate Known(rec: Record, rs: seq<Record>) {
    exists r :: r in rs && SameKey(r, rec)
  }

  /** Of records merged in order into others, those whose owner and type occur neither there nor earlier in the list. */
  ghost function NewOnes(rs: seq<Record>, recs: seq<Record>): seq<Record> {
    if recs == [] then []
    else
      var n := |recs| - 1;
      NewOnes(rs, recs[..n]) + if Known(recs[n], rs + recs[..n]) then [] else [recs[n]]
  }

  /** And the others. */
  ghost function KnownOnes(rs: seq<Record>, recs: seq<Record>): seq<Record> {
    if recs == [] then []
    else
      var n := |recs| - 1;
      KnownOnes(rs, recs[..n]) + if Known(recs[n], rs + recs[..n]) then [recs[n]] else []
  }

  lemma {:induction false} LastIsMember(recs: seq<Record>, rec: Record)
    requires Last(recs, rec).Some?
    ensures Known(rec, recs)
  {
    if SameKey(recs[0], rec) {
      assert recs[0] in recs;
    } else {
      LastIsMember(recs[1..], rec);
      var r :| r in recs[1..] && SameKey(r, rec);
      assert r in recs;
    }
  }

  lemma KnownInMerge(rs: seq<Record>, recs: seq<Record>, rec: Record)
    ensures Find(Merge(rs, recs), rec) < |Merge(rs, recs)| <==> Known(rec, rs + recs)
  {
    hide Merge, Find, Last, Known;
    MergeExactly(rs, recs);
    MergeExtends(rs, recs);
    var m := Merge(rs, recs);
    var i := Find(m, rec);
    if i < |m| {
      FoundIsKnown(rs, recs, rec);
    }
    if Known(rec, rs + recs) {
      KnownIsFound(rs, recs, rec);
    }
  }

  lemma FoundIsKnown(rs: seq<Record>, recs: seq<Record>, rec: Record)
    requires var m := Merge(rs, recs); Find(m, rec) < |m|
    ensures Known(rec, rs + recs)
  {
    hide Merge, Find, Last;
    var m := Merge(rs, recs);
    var i := Find(m, rec);
    MergeExtends(rs, recs);
    if i < |rs| {
      assert SameKey(rs[i], rec) && (rs + recs)[i] == rs[i];
    } else {
      MergeAppends(rs, recs, i);
      LastIsMember(recs, m[i]);
      var r :| r in recs && SameKey(r, m[i]);
      assert r in rs + recs && SameKey(r, rec);
    }
  }

  lemma KnownIsFound(rs: seq<Record>, recs: seq<Record>, rec: Record)
    requires Known(rec, rs + recs)
    ensures var m := Merge(rs, recs); Find(m, rec) < |m|
  {
    hide Merge, Last;
    var r :| r in rs + recs && SameKey(r, rec);
    var m := Merge(rs, recs);
    MergeExtends(rs, recs);
    FindByKey(m, r, rec);
    if r in recs {
      EveryMerged(rs, recs);
    } else {
      var j :| 0 <= j < |rs| && rs[j] == r;
      assert SameKey(m[j], r);
    }
  }

  lemma {:induction false} ChangesAre(rs: seq<Record>, recs: seq<Record>)
    ensures Additions(rs, recs) == NewOnes(rs, recs) && Updates(rs, recs) == KnownOnes(rs, recs)
    decreases |recs|
  {
    hide Merge, Find, Known;
    if recs == [] {
      NothingMerged(rs);
    } else {
      var n := |recs| - 1;
      var a, r := recs[..n], recs[n];
      assert recs == a + [r];
      ChangesAre(rs, a);
      MergeAppend(rs, a, [r]);
      KnownInMerge(rs, a, r);
      OneChange(Merge(rs, a), r);
    }
  }

  lemma OneChange(rs: seq<Record>, r: Record)
    ensures Additions(rs, [r]) == if Find(rs, r) < |rs| then [] else [r]
    ensures Updates(rs, [r]) == if Find(rs, r) < |rs| then [r] else []
  {
    hide Find, Upsert;
    assert [r][1..] == [];
    NothingMerged(Upsert(rs, r));
  }

  // ---------------------------------------------------------------- the whole operation

  /** All the records were merged into those of the zone, and reported as added or updated. */
  ghost predicate Merged(rs: seq<Record>, recs: seq<Record>, p: Progress) {
    p.records == Merge(rs, recs) && p.added == NewOnes(rs, recs) && p.updated == KnownOnes(rs, recs)
  }

  function Joined(answers: seq<seq<IPEntry>>): seq<IPEntry> {
    if answers == [] then [] else answers[0] + Joined(answers[1..])
  }

  /** The inventory answers for each of the prefixes. */
  predicate Answers(inv: Inventory, prefixes: seq<string>, answers: seq<seq<IPEntry>>) {
    |answers| == |prefixes| && forall i :: 0 <= i < |prefixes| ==> inv.inPrefix(prefixes[i]) == Some(answers[i])
  }

  lemma {:induction false} EntriesAre(prefixes: seq<string>, inv: Inventory, answers: seq<seq<IPEntry>>)
    requires Answers(inv, prefixes, answers)
    ensures EntriesOf(prefixes, inv) == Some(Joined(answers))
  {
    if prefixes != [] {
      EntriesAre(prefixes[1..], inv, answers[1..]);
      assert inv.inPrefix(prefixes[0]) == Some(answers[0]);
    }
  }

  lemma {:induction false} EntriesFail(prefixes: seq<string>, inv: Inventory)
    ensures EntriesOf(prefixes, inv).None? <==> exists p :: p in prefixes && inv.inPrefix(p).None?
  {
    if prefixes != [] {
      EntriesFail(prefixes[1..], inv);
      assert forall p :: p in prefixes <==> p == prefixes[0] || p in prefixes[1..];
    }
  }

  lemma StartsMerged(rs: seq<Record>, recs: seq<Record>, skips: nat)
    ensures var p := After(Progress(rs, [], [], 0), recs, skips); Merged(rs, recs, p) && p.skipped == skips
  {
    hide Merge, Additions, Updates, NewOnes, KnownOnes;
    ChangesAre(rs, recs);
    assert [] + Additions(rs, recs) == Additions(rs, recs) && [] + Updates(rs, recs) == Updates(rs, recs);
  }

  /** A forward zone is merged with one record for each entry, in the order of the prefixes and of the entries in them,
      that has a usable name; the others are counted as skipped. */
  lemma ForwardSync(zone: Zone, inv: Inventory, tag: string, domain: string, answers: seq<seq<IPEntry>>)
    requires zone.kind != "reverse" && Trim(tag) != ""
    requires inv.tagged(tag).Some? && Answers(inv, inv.tagged(tag).value, answers)
    ensures var a, es := SyncResult(zone, inv, tag, domain), Joined(answers);
            var kept, recs := Only(es, Named(zone.name)), ForwardRecords(es, zone.name);
      && a.Synced? && Merged(zone.records, recs, a.p)
      && Pairs(recs, kept, InZone(zone.name)) && a.p.skipped == |es| - |kept|
  {
    hide After, ForwardRecords, ForwardSkips, EntriesOf, Only, Pairs, Merged, Trim, NetworkOf;
    var es := Joined(answers);
    EntriesAre(inv.tagged(tag).value, inv, answers);
    ForwardList(es, zone.name);
    StartsMerged(zone.records, ForwardRecords(es, zone.name), ForwardSkips(es, zone.name));
  }

  /** A reverse zone is merged with one pointer for each IPv4 entry of its network that has a usable name; the others
      of IPv4 are counted as skipped, and those of IPv6 are not counted. */
  lemma ReverseSync(zone: Zone, inv: Inventory, tag: string, domain: string)
    requires zone.kind == "reverse" && NetworkOf(zone.name) != "" && inv.inPrefix(NetworkOf(zone.name)).Some?
    ensures var a, es := SyncResult(zone, inv, tag, domain), inv.inPrefix(NetworkOf(zone.name)).value;
            var kept, recs := Only(es, Pointing(domain)), ReverseRecords(es, zone.name, domain);
      && a.Synced? && Merged(zone.records, recs, a.p)
      && Pairs(recs, kept, InReverse(zone.name, domain)) && a.p.skipped == |Only(es, IsV4())| - |kept|
  {
    hide After, ReverseRecords, ReverseSkips, Only, Pairs, Merged, NetworkOf;
    var es := inv.inPrefix(NetworkOf(zone.name)).value;
    ReverseList(es, zone.name, domain);
    StartsMerged(zone.records, ReverseRecords(es, zone.name, domain), ReverseSkips(es, zone.name, domain));
  }

  /** In all other cases the zone is not synchronised: without a network or a tag, or when asking the inventory fails
      for the tag or for any one prefix. */
  lemma SyncRefused(zone: Zone, inv: Inventory, tag: string, domain: string)
    ensures var a := SyncResult(zone, inv, tag, domain);
            var bad := if zone.kind == "reverse" then NetworkOf(zone.name) == "" else Trim(tag) == "";
      && (a.BadRequest? <==> bad)
      && (a.FailedDependency? <==>
          !bad && if zone.kind == "reverse" then inv.inPrefix(NetworkOf(zone.name)).None?
                  else inv.tagged(tag).None? || exists p :: p in inv.tagged(tag).value && inv.inPrefix(p).None?)
  {
    hide After, Trim, NetworkOf, EntriesOf;
    if inv.tagged(tag).Some? {
      EntriesFail(inv.tagged(tag).value, inv);
    }
  }
}
