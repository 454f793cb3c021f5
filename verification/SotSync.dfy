/** Synchronising a zone with the addresses of the source of truth. */
module SotSync {
  import opened Text
  import opened Zones
  import opened ReverseZones
  import opened SotMerge

  /** An address entry of the inventory. */
  datatype IPEntry = IPEntry(ip: string, dnsName: string, deviceName: string, isV6: bool)
  {
    function Name(): string {
      if dnsName != "" then dnsName else deviceName
    }
  }

  /** validDNS */
  predicate ValidDNS(s: string) {
    s != "" && forall c | c in s :: 'A' <= c <= 'Z' || 'a' <= c <= 'z' || '0' <= c <= '9' || c in "_.@*-"
  }

  /** fqdn */
  function Fqdn(name: string, domain: string): string {
    var n := TrimSuffix(Trim(name), ".");
    if n == "" then ""
    else if '.' in n then n + "."
    else if domain != "" then n + "." + TrimSuffix(domain, ".") + "."
    else n + "."
  }

  /** forwardOwner */
  function ForwardOwner(name: string, zone: string): string {
    var n := TrimSuffix(Trim(name), ".");
    if n == "" then ""
    else if n == zone then "@"
    else if HasSuffix(n, "." + zone) then TrimSuffix(n, "." + zone)
    else if '.' in n then ""
    else n
  }

  /** What an entry becomes: a record, or nothing, which counts as skipped or not. */
  datatype Planned = Wanted(rec: Record) | Skipped | Ignored

  function PlanReverse(e: IPEntry, zone: string, domain: string): Planned {
    if e.isV6 then Ignored
    else
      var value := Fqdn(e.Name(), domain);
      if value == "" || !ValidDNS(value) then Skipped else Wanted(Record(PtrOwner(e.ip, zone), "PTR", 0, value))
  }

  function PlanForward(e: IPEntry, zone: string): Planned {
    var owner := ForwardOwner(e.Name(), zone);
    if owner == "" || !ValidDNS(owner) then Skipped
    else Wanted(Record(owner, if e.isV6 then "AAAA" else "A", 0, e.ip))
  }

  function ReverseRecords(es: seq<IPEntry>, zone: string, domain: string): seq<Record> {
    if es == [] then []
    else
      var p := PlanReverse(es[0], zone, domain);
      (if p.Wanted? then [p.rec] else []) + ReverseRecords(es[1..], zone, domain)
  }

  function ForwardRecords(es: seq<IPEntry>, zone: string): seq<Record> {
    if es == [] then []
    else
      var p := PlanForward(es[0], zone);
      (if p.Wanted? then [p.rec] else []) + ForwardRecords(es[1..], zone)
  }

  /** The records of a list that a merge adds, and those it counts as updates, in order. */
  function Additions(rs: seq<Record>, recs: seq<Record>): seq<Record>
    decreases recs
  {
    if recs == [] then []
    else (if Find(rs, recs[0]) == |rs| then [recs[0]] else []) + Additions(Upsert(rs, recs[0]), recs[1..])
  }

  function Updates(rs: seq<Record>, recs: seq<Record>): seq<Record>
    decreases recs
  {
    if recs == [] then []
    else (if Find(rs, recs[0]) == |rs| then [] else [recs[0]]) + Updates(Upsert(rs, recs[0]), recs[1..])
  }

  function ReverseSkips(es: seq<IPEntry>, zone: string, domain: string): nat {
    if es == [] then 0
    else (if PlanReverse(es[0], zone, domain).Skipped? then 1 else 0) + ReverseSkips(es[1..], zone, domain)
  }

  function ForwardSkips(es: seq<IPEntry>, zone: string): nat {
    if es == [] then 0 else (if PlanForward(es[0], zone).Skipped? then 1 else 0) + ForwardSkips(es[1..], zone)
  }

  // ---------------------------------------------------------------- the loops over entries

  /** The loops over inventory entries: records and changes so far, and what has been skipped. */
  datatype Progress = Progress(records: seq<Record>, added: seq<Record>, updated: seq<Record>, skipped: nat)

  /** Further records merged, and further entries skipped. */
  function After(p: Progress, recs: seq<Record>, skips: nat): Progress {
    Progress(Merge(p.records, recs), p.added + Additions(p.records, recs), p.updated + Updates(p.records, recs),
             p.skipped + skips)
  }

  method MergeOne(p: Progress, rec: Record) returns (q: Progress)
    ensures q == After(p, [rec], 0)
  {
    hide Find, Upsert;
    OneMerged(p, rec);
    var records, wasUpdate := UpsertRecord(p.records, rec);
    if wasUpdate {
      q := Progress(records, p.added, p.updated + [rec], p.skipped);
    } else {
      q := Progress(records, p.added + [rec], p.updated, p.skipped);
    }
  }

  lemma OneMerged(p: Progress, rec: Record)
    ensures var missing := Find(p.records, rec) == |p.records|;
      After(p, [rec], 0) ==
      Progress(Upsert(p.records, rec), if missing then p.added + [rec] else p.added,
               if missing then p.updated else p.updated + [rec], p.skipped)
  {
    hide Find, Upsert;
    NothingMerged(Upsert(p.records, rec));
    assert [rec][1..] == [];
    assert p.added + [] == p.added && p.updated + [] == p.updated;
    var none: seq<Record> := [];
    assert [rec] + none == [rec] && none + none == none;
  }

  lemma {:induction false} MergeAppend(rs: seq<Record>, a: seq<Record>, b: seq<Record>)
    ensures Merge(rs, a + b) == Merge(Merge(rs, a), b)
    ensures Additions(rs, a + b) == Additions(rs, a) + Additions(Merge(rs, a), b)
    ensures Updates(rs, a + b) == Updates(rs, a) + Updates(Merge(rs, a), b)
    decreases a
  {
    hide Find, Upsert;
    if a == [] {
      assert a + b == b;
      assert [] + Additions(rs, b) == Additions(rs, b) && [] + Updates(rs, b) == Updates(rs, b);
    } else {
      assert (a + b)[1..] == a[1..] + b;
      var rs' := Upsert(rs, a[0]);
      MergeAppend(rs', a[1..], b);
      var missing := Find(rs, a[0]) == |rs|;
      Assoc(if missing then [a[0]] else [], Additions(rs', a[1..]), Additions(Merge(rs, a), b));
      Assoc(if missing then [] else [a[0]], Updates(rs', a[1..]), Updates(Merge(rs, a), b));
    }
  }

  lemma AfterTwice(p: Progress, a: seq<Record>, m: nat, b: seq<Record>, n: nat)
    ensures After(After(p, a, m), b, n) == After(p, a + b, m + n)
  {
    hide Merge, Additions, Updates;
    MergeAppend(p.records, a, b);
    Assoc(p.added, Additions(p.records, a), Additions(Merge(p.records, a), b));
    Assoc(p.updated, Updates(p.records, a), Updates(Merge(p.records, a), b));
  }

  lemma AfterNothing(p: Progress)
    ensures After(p, [], 0) == p
  {
    NothingMerged(p.records);
    assert p.added + [] == p.added && p.updated + [] == p.updated;
  }

  lemma NothingMerged(rs: seq<Record>)
    ensures Merge(rs, []) == rs && Additions(rs, []) == [] && Updates(rs, []) == []
  {}

  /** What the first of the remaining entries comes to. */
  function AfterPlan(p: Progress, plan: Planned): Progress {
    if plan.Wanted? then After(p, [plan.rec], 0) else if plan.Skipped? then p.(skipped := p.skipped + 1) else p
  }

  lemma PlanStep(p: Progress, plan: Planned, more: seq<Record>, skips: nat)
    ensures After(AfterPlan(p, plan), more, skips) ==
            After(p, (if plan.Wanted? then [plan.rec] else []) + more, (if plan.Skipped? then 1 else 0) + skips)
  {
    hide Merge, Additions, Updates;
    if plan.Wanted? {
      AfterTwice(p, [plan.rec], 0, more, skips);
    } else {
      assert [] + more == more;
    }
  }

  /** The loop over the entries of a reverse zone's network. */
  method SyncReverse(start: Progress, es: seq<IPEntry>, zone: string, domain: string) returns (p: Progress)
    ensures p == After(start, ReverseRecords(es, zone, domain), ReverseSkips(es, zone, domain))
  {
    hide After, PtrOwner, Fqdn, ValidDNS;
    p := start;
    for i := 0 to |es|
      invariant After(p, ReverseRecords(es[i..], zone, domain), ReverseSkips(es[i..], zone, domain)) ==
                After(start, ReverseRecords(es, zone, domain), ReverseSkips(es, zone, domain))
    {
      assert es[i..][1..] == es[i + 1..];
      var ip := es[i];
      PlanStep(p, PlanReverse(ip, zone, domain), ReverseRecords(es[i + 1..], zone, domain),
               ReverseSkips(es[i + 1..], zone, domain));
      if ip.isV6 {
        continue;
      }
      var value := Fqdn(ip.Name(), domain);
      if value == "" || !ValidDNS(value) {
        p := p.(skipped := p.skipped + 1);
        continue;
      }
      p := MergeOne(p, Record(PtrOwner(ip.ip, zone), "PTR", 0, value));
    }
    AfterNothing(p);
  }

  /** The loop over the entries of one prefix of a forward zone. */
  method SyncPrefix(start: Progress, es: seq<IPEntry>, zone: string) returns (p: Progress)
    ensures p == After(start, ForwardRecords(es, zone), ForwardSkips(es, zone))
  {
    hide After, ForwardOwner, ValidDNS;
    p := start;
    for i := 0 to |es|
      invariant After(p, ForwardRecords(es[i..], zone), ForwardSkips(es[i..], zone)) ==
                After(start, ForwardRecords(es, zone), ForwardSkips(es, zone))
    {
      assert es[i..][1..] == es[i + 1..];
      var ip := es[i];
      PlanStep(p, PlanForward(ip, zone), ForwardRecords(es[i + 1..], zone), ForwardSkips(es[i + 1..], zone));
      var owner := ForwardOwner(ip.Name(), zone);
      if owner == "" || !ValidDNS(owner) {
        p := p.(skipped := p.skipped + 1);
        continue;
      }
      var rtype := "A";
      if ip.isV6 {
        rtype := "AAAA";
      }
      p := MergeOne(p, Record(owner, rtype, 0, ip.ip));
    }
    AfterNothing(p);
  }

  // ---------------------------------------------------------------- the whole operation

  /** What the source of truth answers: the entries in a prefix and the prefixes with a tag; None is a failed call. */
  datatype Inventory = Inventory(inPrefix: string -> Option<seq<IPEntry>>, tagged: string -> Option<seq<string>>)

  /** The entries of prefixes one after the other; None when asking for one of them fails. */
  function EntriesOf(prefixes: seq<string>, inv: Inventory): Option<seq<IPEntry>> {
    if prefixes == [] then Some([])
    else
      var first := inv.inPrefix(prefixes[0]);
      var more := EntriesOf(prefixes[1..], inv);
      if first.None? || more.None? then None else Some(first.value + more.value)
  }

  datatype Answer = BadRequest | FailedDependency | Synced(p: Progress)

  /** The entries that a zone is synchronised with. */
  function EntriesFor(zone: Zone, inv: Inventory, tag: string): Option<seq<IPEntry>> {
    if zone.kind == "reverse" then inv.inPrefix(NetworkOf(zone.name))
    else
      var prefixes := inv.tagged(tag);
      if prefixes.None? then None else EntriesOf(prefixes.value, inv)
  }

  /** The records that entries become in a zone, and how many of them are skipped. */
  function RecordsFor(zone: Zone, es: seq<IPEntry>, domain: string): seq<Record> {
    if zone.kind == "reverse" then ReverseRecords(es, zone.name, domain) else ForwardRecords(es, zone.name)
  }

  function SkipsFor(zone: Zone, es: seq<IPEntry>, domain: string): nat {
    if zone.kind == "reverse" then ReverseSkips(es, zone.name, domain) else ForwardSkips(es, zone.name)
  }

  /** The zone's records merged with those of all entries in their order. */
  function SyncResult(zone: Zone, inv: Inventory, tag: string, domain: string): Answer {
    if zone.kind == "reverse" && NetworkOf(zone.name) == "" then BadRequest
    else if zone.kind != "reverse" && Trim(tag) == "" then BadRequest
    else
      var es := EntriesFor(zone, inv, tag);
      if es.None? then FailedDependency
      else
        var start := Progress(zone.records, [], [], 0);
        Synced(After(start, RecordsFor(zone, es.value, domain), SkipsFor(zone, es.value, domain)))
  }

  /** The loops over the prefixes of a forward zone and their entries; None when a call fails. */
  method SyncForward(start: Progress, prefixes: seq<string>, inv: Inventory, zone: string) returns (r: Option<Progress>)
    ensures var es := EntriesOf(prefixes, inv);
      r == if es.None? then None else Some(After(start, ForwardRecords(es.value, zone), ForwardSkips(es.value, zone)))
  {
    hide After, ForwardRecords, ForwardSkips;
    var p := start;
    ghost var done: seq<IPEntry> := [];
    NoEntries(zone);
    AfterNothing(start);
    NothingDone(EntriesOf(prefixes, inv));
    assert prefixes[0..] == prefixes;
    for i := 0 to |prefixes|
      invariant p == After(start, ForwardRecords(done, zone), ForwardSkips(done, zone))
      invariant EntriesBehind(done, EntriesOf(prefixes[i..], inv)) == EntriesOf(prefixes, inv)
    {
      assert prefixes[i..][1..] == prefixes[i + 1..];
      var es := inv.inPrefix(prefixes[i]);
      if es.None? {
        return None;
      }
      p := SyncPrefix(p, es.value, zone);
      ForwardAppend(done, es.value, zone);
      AfterTwice(start, ForwardRecords(done, zone), ForwardSkips(done, zone),
                 ForwardRecords(es.value, zone), ForwardSkips(es.value, zone));
      BehindTwice(done, es.value, EntriesOf(prefixes[i + 1..], inv));
      done := done + es.value;
    }
    assert done + [] == done;
    r := Some(p);
  }

  function EntriesBehind(done: seq<IPEntry>, more: Option<seq<IPEntry>>): Option<seq<IPEntry>> {
    if more.None? then None else Some(done + more.value)
  }

  lemma NothingDone(more: Option<seq<IPEntry>>)
    ensures EntriesBehind([], more) == more
  {
    assert more.Some? ==> [] + more.value == more.value;
  }

  lemma BehindTwice(a: seq<IPEntry>, b: seq<IPEntry>, more: Option<seq<IPEntry>>)
    ensures EntriesBehind(a, EntriesBehind(b, more)) == EntriesBehind(a + b, more)
  {
    if more.Some? {
      Assoc(a, b, more.value);
    }
  }

  lemma NoEntries(zone: string)
    ensures ForwardRecords([], zone) == [] && ForwardSkips([], zone) == 0
  {}

  lemma {:induction false} ForwardAppend(a: seq<IPEntry>, b: seq<IPEntry>, zone: string)
    ensures ForwardRecords(a + b, zone) == ForwardRecords(a, zone) + ForwardRecords(b, zone)
    ensures ForwardSkips(a + b, zone) == ForwardSkips(a, zone) + ForwardSkips(b, zone)
  {
    hide PlanForward;
    if a == [] {
      assert a + b == b;
    } else {
      assert (a + b)[1..] == a[1..] + b;
      ForwardAppend(a[1..], b, zone);
      var plan := PlanForward(a[0], zone);
      Assoc(if plan.Wanted? then [plan.rec] else [], ForwardRecords(a[1..], zone), ForwardRecords(b, zone));
    }
  }

  /** syncZoneFromSot up to the reply; the records are written back unless it is a dry run or nothing changed. */
  method SyncZone(zone: Zone, inv: Inventory, tag: string, domain: string, dryRun: bool)
        returns (a: Answer, writes: bool)
    ensures a == SyncResult(zone, inv, tag, domain)
    ensures writes <==> a.Synced? && !dryRun && RecordsFor(zone, EntriesFor(zone, inv, tag).GetOr([]), domain) != []
  {
    hide After, ForwardRecords, ReverseRecords, ForwardSkips, ReverseSkips, EntriesOf, NetworkOf;
    writes := false;
    var p := Progress(zone.records, [], [], 0);
    if zone.kind == "reverse" {
      var network := NetworkOfZone(zone.name);
      if network == "" {
        return BadRequest, false;
      }
      var ips := inv.inPrefix(network);
      if ips.None? {
        return FailedDependency, false;
      }
      p := SyncReverse(p, ips.value, zone.name, domain);
    } else {
      if Trim(tag) == "" {
        return BadRequest, false;
      }
      var prefixes := inv.tagged(tag);
      if prefixes.None? {
        return FailedDependency, false;
      }
      var r := SyncForward(p, prefixes.value, inv, zone.name);
      if r.None? {
        return FailedDependency, false;
      }
      p := r.value;
    }
    a := Synced(p);
    ChangesCounted(zone.records, RecordsFor(zone, EntriesFor(zone, inv, tag).value, domain),
                   SkipsFor(zone, EntriesFor(zone, inv, tag).value, domain));
    writes := !dryRun && (|p.added| != 0 || |p.updated| != 0);
  }

  /** Every record that is merged is either an addition or an update. */
  lemma ChangesCounted(rs: seq<Record>, recs: seq<Record>, skips: nat)
    ensures var p := After(Progress(rs, [], [], 0), recs, skips);
      multiset(p.added) + multiset(p.updated) == multiset(recs) && |p.added| + |p.updated| == |recs|
  {
    hide Additions, Updates, Merge;
    AddedOrUpdated(rs, recs);
    assert [] + Additions(rs, recs) == Additions(rs, recs) && [] + Updates(rs, recs) == Updates(rs, recs);
    assert |multiset(Additions(rs, recs))| + |multiset(Updates(rs, recs))| == |multiset(recs)|;
  }

  lemma {:induction false} AddedOrUpdated(rs: seq<Record>, recs: seq<Record>)
    ensures multiset(Additions(rs, recs)) + multiset(Updates(rs, recs)) == multiset(recs)
    ensures |Additions(rs, recs)| + |Updates(rs, recs)| == |recs|
    decreases recs
  {
    if recs != [] {
      hide Find, Upsert;
      AddedOrUpdated(Upsert(rs, recs[0]), recs[1..]);
      assert recs == [recs[0]] + recs[1..];
    }
  }

  lemma {:induction false} NoAdditions(rs: seq<Record>, recs: seq<Record>)
    requires forall r :: r in recs ==> Find(rs, r) < |rs|
    ensures Additions(rs, recs) == [] && Updates(rs, recs) == recs
    decreases recs
  {
    if recs != [] {
      hide Find;
      var rs' := Upsert(rs, recs[0]);
      UpsertExtends(rs, recs[0]);
      forall r | r in recs[1..] ensures Find(rs', r) < |rs'| {
        FindKept(rs', rs, r);
      }
      NoAdditions(rs', recs[1..]);
    }
  }

  /** Synchronising any zone again with the same inventory adds nothing and leaves the records as they are, though every
      record of the inventory counts as updated. */
  lemma SyncTwice(zone: Zone, inv: Inventory, tag: string, domain: string)
    requires SyncResult(zone, inv, tag, domain).Synced?
    ensures var p := SyncResult(zone, inv, tag, domain).p;
            var again := SyncResult(zone.(records := p.records), inv, tag, domain);
      && again.Synced? && again.p.records == p.records && again.p.added == [] && again.p.skipped == p.skipped
      && again.p.updated == RecordsFor(zone, EntriesFor(zone, inv, tag).GetOr([]), domain)
      && (Unique(zone.records) ==> Unique(again.p.records))
  {
    hide Merge, Additions, Updates, ReverseRecords, ForwardRecords, ForwardSkips, ReverseSkips, EntriesOf, NetworkOf,
      Unique, Find;
    var recs := RecordsFor(zone, EntriesFor(zone, inv, tag).value, domain);
    MergeIdempotent(zone.records, recs);
    EveryMerged(zone.records, recs);
    NoAdditions(Merge(zone.records, recs), recs);
    assert [] + recs == recs;
    if Unique(zone.records) {
      MergeUnique(zone.records, recs);
    }
  }

  lemma EveryMerged(rs: seq<Record>, recs: seq<Record>)
    ensures forall r :: r in recs ==> Find(Merge(rs, recs), r) < |Merge(rs, recs)|
  {
    hide Merge, Find;
    forall r | r in recs ensures Find(Merge(rs, recs), r) < |Merge(rs, recs)| {
      LastOfMember(recs, r);
      MergeSettles(rs, recs, r);
    }
  }
}
