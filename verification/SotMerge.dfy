/** Merging records from the source of truth into a zone. */
module SotMerge {
  import opened Text
  import opened Zones

  /** The first record with the key of rec, or the length of the list. */
  function Find(rs: seq<Record>, rec: Record): (i: nat)
    ensures i <= |rs| && (i < |rs| ==> SameKey(rs[i], rec))
    ensures forall j :: 0 <= j < i ==> !SameKey(rs[j], rec)
  {
    if rs == [] || SameKey(rs[0], rec) then 0 else 1 + Find(rs[1..], rec)
  }

  function Upsert(rs: seq<Record>, rec: Record): seq<Record> {
    var i := Find(rs, rec);
    if i < |rs| then rs[i := rs[i].(value := rec.value)] else rs + [rec]
  }

  /** The merge: one upsert after the other. */
  function Merge(rs: seq<Record>, recs: seq<Record>): seq<Record>
    decreases recs
  {
    if recs == [] then rs else Merge(Upsert(rs, recs[0]), recs[1..])
  }

  method UpsertRecord(rs: seq<Record>, rec: Record) returns (r: seq<Record>, updated: bool)
    ensures r == Upsert(rs, rec) && updated == (Find(rs, rec) < |rs|)
  {
    for i := 0 to |rs|
      invariant Find(rs, rec) >= i
    {
      if rs[i].name == rec.name && rs[i].rtype == rec.rtype {
        return rs[i := rs[i].(value := rec.value)], true;
      }
      assert !SameKey(rs[i], rec);
    }
    return rs + [rec], false;
  }

  // ---------------------------------------------------------------- where records stay

  /** The value the last record with the key of rec carries. */
  function Last(recs: seq<Record>, rec: Record): Option<string> {
    if recs == [] then None
    else
      var later := Last(recs[1..], rec);
      if later.Some? then later else if SameKey(recs[0], rec) then Some(recs[0].value) else None
  }

  predicate Unique(rs: seq<Record>) {
    forall i, j :: 0 <= i < j < |rs| ==> !SameKey(rs[i], rs[j])
  }

  lemma {:induction false} LastByKey(recs: seq<Record>, a: Record, b: Record)
    requires SameKey(a, b)
    ensures Last(recs, a) == Last(recs, b)
  {
    if recs != [] {
      LastByKey(recs[1..], a, b);
    }
  }

  lemma {:induction false} LastOfMember(recs: seq<Record>, rec: Record)
    requires rec in recs
    ensures Last(recs, rec).Some?
  {
    if recs[0] != rec {
      LastOfMember(recs[1..], rec);
    }
  }

  /** Records keep their place, owner, type and TTL. */
  predicate Extends(m: seq<Record>, rs: seq<Record>) {
    |rs| <= |m| && forall i :: 0 <= i < |rs| ==> SameKey(m[i], rs[i]) && m[i].ttl == rs[i].ttl
  }

  lemma UpsertExtends(rs: seq<Record>, rec: Record)
    ensures Extends(Upsert(rs, rec), rs)
    ensures |Upsert(rs, rec)| == if Find(rs, rec) < |rs| then |rs| else |rs| + 1
  {}

  lemma {:induction false} MergeExtends(rs: seq<Record>, recs: seq<Record>)
    ensures Extends(Merge(rs, recs), rs)
    decreases recs
  {
    if recs != [] {
      hide Upsert;
      UpsertExtends(rs, recs[0]);
      MergeExtends(Upsert(rs, recs[0]), recs[1..]);
    }
  }

  lemma FindKept(m: seq<Record>, rs: seq<Record>, rec: Record)
    requires Extends(m, rs)
    ensures Find(rs, rec) < |rs| ==> Find(m, rec) == Find(rs, rec)
    ensures Find(rs, rec) == |rs| ==> Find(m, rec) >= |rs|
  {
    assert forall k :: 0 <= k < |rs| ==> (SameKey(m[k], rec) <==> SameKey(rs[k], rec));
  }

  /** A record already there changes its value only, and only when it is the first of its key and the key is merged:
      then to the last value. */
  lemma {:induction false} MergeAt(rs: seq<Record>, recs: seq<Record>, i: nat)
    requires i < |rs|
    ensures |Merge(rs, recs)| >= |rs|
    ensures Merge(rs, recs)[i] ==
            if Find(rs, rs[i]) == i && Last(recs, rs[i]).Some? then rs[i].(value := Last(recs, rs[i]).value) else rs[i]
    decreases recs
  {
    MergeExtends(rs, recs);
    if recs != [] {
      var rs' := Upsert(rs, recs[0]);
      UpsertExtends(rs, recs[0]);
      FindKept(rs', rs, rs[i]);
      FindByKey(rs', rs[i], rs'[i]);
      LastByKey(recs[1..], rs[i], rs'[i]);
      MergeAt(rs', recs[1..], i);
      if SameKey(recs[0], rs[i]) {
        FindByKey(rs, recs[0], rs[i]);
      }
    }
  }

  lemma {:induction false} FindByKey(rs: seq<Record>, a: Record, b: Record)
    requires SameKey(a, b)
    ensures Find(rs, a) == Find(rs, b)
  {
    if rs != [] {
      FindByKey(rs[1..], a, b);
    }
  }

  /** Every merged key is there afterwards, its first record with the last value. */
  lemma {:induction false} MergeSettles(rs: seq<Record>, recs: seq<Record>, rec: Record)
    requires Last(recs, rec).Some?
    ensures var m := Merge(rs, recs); Find(m, rec) < |m| && m[Find(m, rec)].value == Last(recs, rec).value
    decreases recs
  {
    var rs' := Upsert(rs, recs[0]);
    if Last(recs[1..], rec).Some? {
      MergeSettles(rs', recs[1..], rec);
    } else {
      var i := Find(rs, rec);
      FindByKey(rs, recs[0], rec);
      UpsertFinds(rs, recs[0]);
      FindByKey(rs', recs[0], rec);
      MergeAt(rs', recs[1..], i);
      LastByKey(recs[1..], rs'[i], rec);
      MergeExtends(rs', recs[1..]);
      FindKept(Merge(rs', recs[1..]), rs', rec);
    }
  }

  lemma UpsertFinds(rs: seq<Record>, rec: Record)
    ensures var m := Upsert(rs, rec); Find(m, rec) == Find(rs, rec) < |m| && m[Find(rs, rec)].value == rec.value
  {
    UpsertExtends(rs, rec);
    FindKept(Upsert(rs, rec), rs, rec);
    assert SameKey(Upsert(rs, rec)[Find(rs, rec)], rec);
  }

  /** What is appended has a merged key that occurs nowhere before it. */
  lemma {:induction false} MergeAppends(rs: seq<Record>, recs: seq<Record>, i: nat)
    requires |rs| <= i < |Merge(rs, recs)|
    ensures var m := Merge(rs, recs); Find(m, m[i]) == i && Last(recs, m[i]).Some?
    decreases recs
  {
    var rs' := Upsert(rs, recs[0]);
    var m := Merge(rs, recs);
    if i < |rs'| {
      UpsertFinds(rs, recs[0]);
      MergeExtends(rs', recs[1..]);
      FindByKey(rs', recs[0], m[i]);
      FindKept(m, rs', m[i]);
    } else {
      MergeAppends(rs', recs[1..], i);
    }
  }

  lemma {:induction false} NothingAppended(rs: seq<Record>, recs: seq<Record>)
    requires forall r :: r in recs ==> Find(rs, r) < |rs|
    ensures |Merge(rs, recs)| == |rs|
    decreases recs
  {
    if recs != [] {
      var rs' := Upsert(rs, recs[0]);
      UpsertExtends(rs, recs[0]);
      forall r | r in recs[1..] ensures Find(rs', r) < |rs'| {
        FindKept(rs', rs, r);
      }
      NothingAppended(rs', recs[1..]);
    }
  }

  /** The merge, exactly: what every old record becomes, and that the rest is one record for each new key. */
  lemma MergeExactly(rs: seq<Record>, recs: seq<Record>)
    ensures var m := Merge(rs, recs);
      && |rs| <= |m|
      && (forall i :: 0 <= i < |rs| ==>
            m[i] ==
            if Find(rs, rs[i]) == i && Last(recs, rs[i]).Some? then rs[i].(value := Last(recs, rs[i]).value) else rs[i])
      && (forall i :: |rs| <= i < |m| ==> Find(m, m[i]) == i && Last(recs, m[i]) == Some(m[i].value))
      && (forall r :: r in recs ==> Find(m, r) < |m|)
  {
    hide Merge, Find, Last;
    MergeExtends(rs, recs);
    var m := Merge(rs, recs);
    forall i | 0 <= i < |rs|
      ensures m[i] ==
              if Find(rs, rs[i]) == i && Last(recs, rs[i]).Some? then rs[i].(value := Last(recs, rs[i]).value)
              else rs[i]
    {
      MergeAt(rs, recs, i);
    }
    forall i | |rs| <= i < |m| ensures Find(m, m[i]) == i && Last(recs, m[i]) == Some(m[i].value) {
      MergeAppends(rs, recs, i);
      MergeSettles(rs, recs, m[i]);
    }
    forall r | r in recs ensures Find(m, r) < |m| {
      LastOfMember(recs, r);
      MergeSettles(rs, recs, r);
    }
  }

  /** Merging the same records again changes nothing. */
  lemma MergeIdempotent(rs: seq<Record>, recs: seq<Record>)
    ensures Merge(Merge(rs, recs), recs) == Merge(rs, recs)
  {
    hide Merge, Find, Last;
    var m := Merge(rs, recs);
    MergeExactly(rs, recs);
    NothingAppended(m, recs);
    forall i | 0 <= i < |m| ensures Merge(m, recs)[i] == m[i] {
      MergeAt(m, recs, i);
      if Last(recs, m[i]).Some? {
        MergeSettles(rs, recs, m[i]);
      }
    }
  }

  lemma {:induction false} MergeUnique(rs: seq<Record>, recs: seq<Record>)
    requires Unique(rs)
    ensures Unique(Merge(rs, recs))
    decreases recs
  {
    if recs != [] {
      MergeUnique(Upsert(rs, recs[0]), recs[1..]);
    }
  }

  /** Among unique records, a merged record keeps its value exactly when it is the last of its key: of two addresses
      of one host only the later survives. */
  lemma LastWins(rs: seq<Record>, recs: seq<Record>, rec: Record)
    requires Unique(rs) && rec in recs
    ensures (exists r :: r in Merge(rs, recs) && SameKey(r, rec) && r.value == rec.value) <==>
            Last(recs, rec) == Some(rec.value)
  {
    hide Merge, Find, Last;
    LastOfMember(recs, rec);
    MergeSettles(rs, recs, rec);
    MergeUnique(rs, recs);
    var m := Merge(rs, recs);
    var i := Find(m, rec);
    assert m[i] in m && SameKey(m[i], rec);
    forall r | r in m && SameKey(r, rec) ensures r == m[i] {
      var j :| 0 <= j < |m| && m[j] == r;
    }
  }
}
