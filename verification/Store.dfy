/** The staged-commit configuration store: what each exported operation does to the directory it owns. */
module Store {
  import opened Text

  type Files = map<string, string>

  function MainFile(): string { "tac_plus-ng.cfg" }
  function DevicesFile(): string { "conf.d/04-devices.cfg" }

  /** The managed files; the same list serves as the files of the staging workflow. */
  function ManagedFiles(): seq<string> {
    [MainFile(), "conf.d/01-logging.cfg", "conf.d/02-dns.cfg", "conf.d/03-mavis.cfg", DevicesFile(),
     "conf.d/05-local-users.cfg", "conf.d/06-groups.cfg", "conf.d/07-profiles.cfg", "conf.d/08-ruleset.cfg",
     "conf.d/09-tls.cfg", "agent-overrides.env"]
  }

  predicate IsManaged(file: string) {
    file in ManagedFiles()
  }

  /** Everything under the configuration directory. A backup is named by the second it was taken in. */
  datatype State = State(
    live: Files,
    staging: Option<Files>,
    marked: bool,
    backups: map<nat, Files>,
    golden: Option<Files>,
    retain: Option<int>)

  /** What does not change while the agent runs. */
  datatype Setup = Setup(devMode: bool, hasRestart: bool, defaultRetain: int)

  datatype Outcome =
    | Done
    | NoChanges
    | Skipped
    | NotManaged
    | Inactive
    | SessionOpen
    | NotFound
    | Rejected
    | NotApplied
    | OutOfRange

  // ---------------------------------------------------------------- files

  /** Files read from one directory and written over another; those missing from the source are skipped. */
  function Copy(src: Files, files: seq<string>, dst: Files): Files {
    dst + map f | f in files && f in src :: src[f]
  }

  function Content(files: Files, f: string): string {
    if f in files then files[f] else ""
  }

  /** The files whose staged content differs from the live one; a file missing live counts as empty. */
  function Changed(staged: Files, live: Files, files: seq<string>): seq<string> {
    if files == [] then []
    else if files[0] in staged && staged[files[0]] != Content(live, files[0]) then
      [files[0]] + Changed(staged, live, files[1..])
    else Changed(staged, live, files[1..])
  }

  lemma {:induction false} ChangedExactly(staged: Files, live: Files, files: seq<string>)
    ensures forall f :: f in Changed(staged, live, files) <==>
            f in files && f in staged && staged[f] != Content(live, f)
  {
    if files != [] {
      ChangedExactly(staged, live, files[1..]);
      assert forall f :: f in files <==> f == files[0] || f in files[1..];
    }
  }

  lemma {:induction false} NothingChanged(staged: Files, live: Files, files: seq<string>)
    requires forall f :: f in files && f in staged ==> staged[f] == Content(live, f)
    ensures Changed(staged, live, files) == []
  {
    if files != [] {
      assert files[0] in files;
      NothingChanged(staged, live, files[1..]);
    }
  }

  // ---------------------------------------------------------------- retention

  function Retention(s: State, c: Setup): (n: int)
    ensures n > 0
  {
    if s.retain.Some? && s.retain.value > 0 then s.retain.value
    else if c.defaultRetain > 0 then c.defaultRetain
    else 5
  }

  ghost function Oldest(ids: set<nat>): (m: nat)
    requires ids != {}
    ensures m in ids && forall x :: x in ids ==> m <= x
  {
    var x :| x in ids;
    if ids == {x} then x
    else
      var y := Oldest(ids - {x});
      assert forall z :: z in ids ==> z == x || z in ids - {x};
      if x < y then x else y
  }

  /** The backups left when the oldest are deleted until no more than keep remain. */
  ghost function Newest(b: map<nat, Files>, keep: nat): map<nat, Files>
    decreases |b|
  {
    if |b| <= keep then b
    else
      var id := Oldest(b.Keys);
      assert (b - {id}).Keys == b.Keys - {id};
      assert |(b - {id}).Keys| < |b.Keys|;
      Newest(b - {id}, keep)
  }

  lemma NewestAll(b: map<nat, Files>, keep: nat)
    requires |b| <= keep
    ensures Newest(b, keep) == b
  {}

  lemma NewestStep(b: map<nat, Files>, keep: nat)
    requires |b| > keep
    ensures b.Keys != {} && Newest(b, keep) == Newest(b - {Oldest(b.Keys)}, keep)
  {}

  /** Pruning deletes whole backups, keeps the wanted number, and every one kept is newer than every one deleted. */
  lemma {:induction false} NewestExactly(b: map<nat, Files>, keep: nat)
    ensures var r := Newest(b, keep);
      && r.Keys <= b.Keys && (forall id :: id in r ==> r[id] == b[id])
      && |r| == (if |b| <= keep then |b| else keep)
      && (forall id, gone :: id in r && gone in b && gone !in r ==> gone < id)
    decreases |b|
  {
    if |b| > keep {
      hide Newest, Oldest;
      NewestStep(b, keep);
      var id := Oldest(b.Keys);
      var less := b - {id};
      assert less.Keys == b.Keys - {id};
      assert |less.Keys| == |b.Keys| - 1;
      NewestExactly(less, keep);
      var r := Newest(less, keep);
      forall x, gone | x in r && gone in b && gone !in r ensures gone < x {
        assert x in less;
        if gone != id {
          assert gone in less;
        }
      }
    } else {
      NewestAll(b, keep);
    }
  }

  lemma OldestIsOlder(ids: set<nat>, now: nat)
    requires |ids| > 1 && now in ids && forall id :: id in ids ==> id <= now
    ensures Oldest(ids) < now
  {
    var others := ids - {now};
    assert |others| == |ids| - 1;
    var other :| other in others;
    assert Oldest(ids) <= other;
  }

  /** With room for at least one, the newest backup survives. */
  lemma {:induction false} NewestSurvives(b: map<nat, Files>, keep: nat, now: nat)
    requires keep > 0 && now in b && forall id :: id in b ==> id <= now
    ensures now in Newest(b, keep)
    decreases |b|
  {
    hide Newest;
    if |b| <= keep {
      NewestAll(b, keep);
    } else {
      NewestStep(b, keep);
      var id := Oldest(b.Keys);
      OldestIsOlder(b.Keys, now);
      assert (b - {id}).Keys == b.Keys - {id};
      NewestSurvives(b - {id}, keep, now);
    }
  }

  ghost function Prune(s: State, c: Setup): State {
    s.(backups := Newest(s.backups, Retention(s, c)))
  }

  // ---------------------------------------------------------------- operations

  /** snapshotLocked: the managed files, over whatever a backup of the same second already held. */
  function Snapshot(s: State, now: nat): State {
    var dir := if now in s.backups then s.backups[now] else map[];
    s.(backups := s.backups[now := Copy(s.live, ManagedFiles(), dir)])
  }

  /** BeginStaging: a copy of the live files; with none to copy the directory is never created. */
  function Begin(s: State): State {
    if s.staging.Some? then s
    else
      var copied := Copy(s.live, ManagedFiles(), map[]);
      if copied == map[] then s else s.(staging := Some(copied), marked := false)
  }

  function Discard(s: State): State {
    s.(staging := None, marked := false)
  }

  /** MarkRestart: writing the marker creates the staging directory. */
  function Mark(s: State): State {
    s.(staging := Some(s.staging.GetOr(map[])), marked := true)
  }

  function Write(s: State, file: string, content: string): (State, Outcome) {
    if !IsManaged(file) then (s, NotManaged)
    else if s.staging.None? then (s, Inactive)
    else (s.(staging := Some(s.staging.value[file := content])), Done)
  }

  /** CommitStaging, given the clock, the validator's verdict and whether the reload or restart succeeds. */
  ghost function Commit(s: State, c: Setup, now: nat, verdict: bool, applied: bool): (State, Outcome) {
    if s.staging.None? then (s, Inactive)
    else
      var staged := s.staging.value;
      var changed := Changed(staged, s.live, ManagedFiles());
      if changed == [] then (Discard(s), NoChanges)
      else
        var snapped := Snapshot(s, now);
        var written := snapped.(live := Copy(staged, changed, s.live));
        if c.devMode then (Prune(Discard(written), c), Skipped)
        else if !verdict then
          (written.(live := Copy(written.backups[now], changed, written.live), backups := written.backups - {now}),
           Rejected)
        else if (s.marked && !c.hasRestart) || !applied then (written, NotApplied)
        else (Prune(Discard(written), c), Done)
  }

  /** The common end of Restore and RestoreGolden, from a source directory. */
  ghost function Apply(snapped: State, c: Setup, src: Files, files: seq<string>, now: nat, verdict: bool,
                       applied: bool): (State, Outcome)
    requires now in snapped.backups
  {
    var written := snapped.(live := Copy(src, files, snapped.live));
    if c.devMode then (Prune(written, c), Skipped)
    else if !verdict then (written.(live := Copy(written.backups[now], ManagedFiles(), written.live)), Rejected)
    else if !applied then (written, NotApplied)
    else (Prune(written, c), Done)
  }

  /** Restore: the listed files, or all managed files when the list is empty. */
  ghost function Restore(s: State, c: Setup, id: nat, files: seq<string>, now: nat, verdict: bool,
                         applied: bool): (State, Outcome) {
    if s.staging.Some? then (s, SessionOpen)
    else if exists f :: f in files && !IsManaged(f) then (s, NotManaged)
    else if id !in s.backups then (s, NotFound)
    else
      var snapped := Snapshot(s, now);
      Apply(snapped, c, snapped.backups[id], if files == [] then ManagedFiles() else files, now, verdict, applied)
  }

  function SaveGolden(s: State): State {
    s.(golden := Some(Copy(s.live, ManagedFiles(), map[])))
  }

  ghost function RestoreGolden(s: State, c: Setup, now: nat, verdict: bool, applied: bool): (State, Outcome) {
    if s.staging.Some? then (s, SessionOpen)
    else if s.golden.None? then (s, NotFound)
    else Apply(Snapshot(s, now), c, s.golden.value, ManagedFiles(), now, verdict, applied)
  }

  ghost function SetRetention(s: State, c: Setup, n: int): (State, Outcome) {
    if n < 1 || n > 100 then (s, OutOfRange) else (Prune(s.(retain := Some(n)), c), Done)
  }

  /** ReadEffective: the staged content when there is one, the live content otherwise. */
  function Effective(s: State, file: string): Option<string> {
    if !IsManaged(file) then None
    else if s.staging.Some? && file in s.staging.value then Some(s.staging.value[file])
    else if file in s.live then Some(s.live[file])
    else None
  }

  // ---------------------------------------------------------------- the object

  /** The store object; its mutex makes every method one step. */
  class ConfigStore {
    const setup: Setup
    var live: Files
    var staging: Option<Files>
    var marked: bool
    var backups: map<nat, Files>
    var golden: Option<Files>
    var retain: Option<int>

    constructor (setup: Setup, live: Files)
      ensures this.setup == setup && Now() == State(live, None, false, map[], None, None)
    {
      this.setup := setup;
      this.live, staging, marked, backups, golden, retain := live, None, false, map[], None, None;
    }

    /** The directory as it is now. */
    function Now(): State
      reads this
    {
      State(live, staging, marked, backups, golden, retain)
    }

    method BeginStaging()
      modifies this
      ensures Now() == Begin(old(Now()))
    {
      if staging.Some? {
        return;
      }
      hide ManagedFiles;
      var copied := CopyFiles(live, ManagedFiles(), map[]);
      if copied != map[] {
        staging, marked := Some(copied), false;
      }
    }

    method DiscardStaging()
      modifies this
      ensures Now() == Discard(old(Now()))
    {
      staging, marked := None, false;
    }

    method MarkRestart()
      modifies this
      ensures Now() == Mark(old(Now()))
    {
      staging, marked := Some(staging.GetOr(map[])), true;
    }

    method WriteStaged(file: string, content: string) returns (o: Outcome)
      modifies this
      ensures (Now(), o) == Write(old(Now()), file, content)
    {
      if file !in ManagedFiles() {
        return NotManaged;
      }
      if staging.None? {
        return Inactive;
      }
      staging := Some(staging.value[file := content]);
      o := Done;
    }

    method ReadEffective(file: string) returns (r: Option<string>)
      ensures r == Effective(Now(), file)
    {
      if file !in ManagedFiles() {
        return None;
      }
      if staging.Some? && file in staging.value {
        return Some(staging.value[file]);
      }
      r := if file in live then Some(live[file]) else None;
    }

    method ChangedFiles() returns (changed: seq<string>)
      ensures changed == if staging.Some? then Changed(staging.value, live, ManagedFiles()) else []
    {
      hide ManagedFiles, Newest;
      changed := [];
      if staging.None? {
        return;
      }
      var files := ManagedFiles();
      for i := 0 to |files|
        invariant changed + Changed(staging.value, live, files[i..]) == Changed(staging.value, live, files)
      {
        assert files[i..][1..] == files[i + 1..];
        var f := files[i];
        ghost var more := Changed(staging.value, live, files[i + 1..]);
        if f in staging.value && staging.value[f] != (if f in live then live[f] else "") {
          Assoc(changed, [f], more);
          changed := changed + [f];
        }
      }
      assert changed + [] == changed;
    }

    method SnapshotLocked(now: nat)
      modifies this`backups
      ensures Now() == Snapshot(old(Now()), now)
    {
      hide ManagedFiles, Newest;
      var dir: Files := if now in backups then backups[now] else map[];
      var dir' := CopyFiles(live, ManagedFiles(), dir);
      backups := backups[now := dir'];
    }

    /** restoreFilesLocked, and copySnapshotLocked when the files are the managed ones. */
    method RestoreFiles(src: Files, files: seq<string>)
      modifies this`live
      ensures live == Copy(src, files, old(live))
    {
      var dst := CopyFiles(src, files, live);
      live := dst;
    }

    method PruneBackups()
      modifies this`backups
      ensures Now() == Prune(old(Now()), setup)
    {
      hide Newest, Oldest, IsListing;
      var ids := ReadDir(backups);
      var keep: nat := if retain.Some? && retain.value > 0 then retain.value
                       else if setup.defaultRetain > 0 then setup.defaultRetain else 5;
      assert keep == Retention(Now(), setup);
      ghost var goal := Newest(backups, keep);
      ListingLength(ids, backups.Keys);
      if |ids| <= keep {
        NewestAll(backups, keep);
        return;
      }
      for i := 0 to |ids| - keep
        invariant IsListing(ids[i..], backups.Keys) && Newest(backups, keep) == goal
      {
        ListingHead(ids[i..], backups.Keys);
        ListingLength(ids[i..], backups.Keys);
        assert ids[i..][1..] == ids[i + 1..];
        NewestStep(backups, keep);
        ghost var before := backups;
        backups := backups - {ids[i]};
        assert backups.Keys == before.Keys - {ids[i]};
      }
      ListingLength(ids[|ids| - keep..], backups.Keys);
      NewestAll(backups, keep);
    }

    method CommitStaging(now: nat, verdict: bool, applied: bool) returns (o: Outcome)
      modifies this
      ensures (Now(), o) == Commit(old(Now()), setup, now, verdict, applied)
    {
      hide ManagedFiles, Newest;
      if staging.None? {
        return Inactive;
      }
      var changed := ChangedFiles();
      if |changed| == 0 {
        DiscardStaging();
        return NoChanges;
      }
      SnapshotLocked(now);
      RestoreFiles(staging.value, changed);
      if setup.devMode {
        DiscardStaging();
        PruneBackups();
        return Skipped;
      }
      if !verdict {
        RestoreFiles(backups[now], changed);
        backups := backups - {now};
        return Rejected;
      }
      if marked {
        if !setup.hasRestart {
          return NotApplied;
        }
        if !applied {
          return NotApplied;
        }
      } else if !applied {
        return NotApplied;
      }
      DiscardStaging();
      PruneBackups();
      o := Done;
    }

    /** The part that Restore and RestoreGolden share, after their snapshot. */
    method ApplyFiles(src: Files, files: seq<string>, now: nat, verdict: bool, applied: bool) returns (o: Outcome)
      requires now in backups
      modifies this
      ensures (Now(), o) == Apply(old(Now()), setup, src, files, now, verdict, applied)
    {
      hide ManagedFiles, Newest;
      RestoreFiles(src, files);
      if setup.devMode {
        PruneBackups();
        return Skipped;
      }
      if !verdict {
        RestoreFiles(backups[now], ManagedFiles());
        return Rejected;
      }
      if !applied {
        return NotApplied;
      }
      PruneBackups();
      o := Done;
    }

    method RestoreBackup(id: nat, files: seq<string>, now: nat, verdict: bool, applied: bool) returns (o: Outcome)
      modifies this
      ensures (Now(), o) == Restore(old(Now()), setup, id, files, now, verdict, applied)
    {
      hide ManagedFiles, Newest;
      if staging.Some? {
        return SessionOpen;
      }
      for i := 0 to |files|
        invariant forall k :: 0 <= k < i ==> IsManaged(files[k])
      {
        if files[i] !in ManagedFiles() {
          assert files[i] in files && !IsManaged(files[i]);
          return NotManaged;
        }
      }
      if id !in backups {
        return NotFound;
      }
      SnapshotLocked(now);
      var list := files;
      if |files| == 0 {
        list := ManagedFiles();
      }
      o := ApplyFiles(backups[id], list, now, verdict, applied);
    }

    method SaveGoldenConfig()
      modifies this
      ensures Now() == SaveGolden(old(Now()))
    {
      hide ManagedFiles, Newest;
      var dir := CopyFiles(live, ManagedFiles(), map[]);
      golden := Some(dir);
    }

    method RestoreGoldenConfig(now: nat, verdict: bool, applied: bool) returns (o: Outcome)
      modifies this
      ensures (Now(), o) == RestoreGolden(old(Now()), setup, now, verdict, applied)
    {
      hide ManagedFiles, Newest;
      if staging.Some? {
        return SessionOpen;
      }
      if golden.None? {
        return NotFound;
      }
      SnapshotLocked(now);
      o := ApplyFiles(golden.value, ManagedFiles(), now, verdict, applied);
    }

    method SetRetentionCount(n: int) returns (o: Outcome)
      modifies this
      ensures (Now(), o) == SetRetention(old(Now()), setup, n)
    {
      if n < 1 || n > 100 {
        return OutOfRange;
      }
      retain := Some(n);
      PruneBackups();
      o := Done;
    }
  }

  /** The file loop of snapshots and restores. */
  method CopyFiles(src: Files, files: seq<string>, dst: Files) returns (r: Files)
    ensures r == Copy(src, files, dst)
  {
    r := dst;
    for i := 0 to |files|
      invariant r == Copy(src, files[..i], dst)
    {
      if files[i] in src {
        r := r[files[i] := src[files[i]]];
      }
      CopyOne(src, files, i, dst);
    }
    assert files[..|files|] == files;
  }

  lemma CopyOne(src: Files, files: seq<string>, i: nat, dst: Files)
    requires i < |files|
    ensures Copy(src, files[..i + 1], dst) ==
      if files[i] in src then Copy(src, files[..i], dst)[files[i] := src[files[i]]] else Copy(src, files[..i], dst)
  {
    assert files[..i + 1] == files[..i] + [files[i]];
  }

  // Directory listings.

  ghost predicate IsListing(ids: seq<nat>, names: set<nat>) {
    (forall i, j :: 0 <= i < j < |ids| ==> ids[i] < ids[j]) && (forall x :: x in names <==> x in ids)
  }

  lemma ListingHead(ids: seq<nat>, names: set<nat>)
    requires IsListing(ids, names) && ids != []
    ensures names != {} && ids[0] == Oldest(names) && IsListing(ids[1..], names - {ids[0]})
  {
    assert ids[0] in names;
    var m := Oldest(names);
    assert m in ids;
    forall x ensures x in names - {ids[0]} <==> x in ids[1..] {
      if x in ids && x != ids[0] {
        var k :| 0 <= k < |ids| && ids[k] == x;
        assert ids[1..][k - 1] == x;
      }
    }
  }

  lemma {:induction false} ListingLength(ids: seq<nat>, names: set<nat>)
    requires IsListing(ids, names)
    ensures |ids| == |names|
    decreases |ids|
  {
    if ids == [] {
      assert forall x :: x in names ==> x in ids;
      assert names == {};
    } else {
      ListingHead(ids, names);
      ListingLength(ids[1..], names - {ids[0]});
      assert ids[0] in names;
    }
  }

  /** The names in a directory, in ascending order. */
  method ReadDir(dir: map<nat, Files>) returns (ids: seq<nat>)
    ensures IsListing(ids, dir.Keys)
  {
    ids := [];
    var rest := dir.Keys;
    while rest != {}
      invariant rest <= dir.Keys && IsListing(ids, dir.Keys - rest)
      decreases rest
    {
      var x :| x in rest;
      var k := 0;
      while k < |ids| && ids[k] < x
        invariant 0 <= k <= |ids| && forall j :: 0 <= j < k ==> ids[j] < x
      {
        k := k + 1;
      }
      ListingInsert(ids, dir.Keys - rest, x, k);
      ids := ids[..k] + [x] + ids[k..];
      assert dir.Keys - (rest - {x}) == dir.Keys - rest + {x};
      rest := rest - {x};
    }
    assert dir.Keys - {} == dir.Keys;
  }

  lemma ListingInsert(ids: seq<nat>, names: set<nat>, x: nat, k: nat)
    requires IsListing(ids, names) && x !in names && k <= |ids|
    requires forall j :: 0 <= j < k ==> ids[j] < x
    requires k < |ids| ==> ids[k] >= x
    ensures IsListing(ids[..k] + [x] + ids[k..], names + {x})
  {
    var r := ids[..k] + [x] + ids[k..];
    assert k < |ids| ==> ids[k] in names;
    forall y ensures y in names + {x} <==> y in r {
      if y in ids {
        var j :| 0 <= j < |ids| && ids[j] == y;
        assert r[if j < k then j else j + 1] == y;
      }
      assert r[k] == x;
    }
  }
}
