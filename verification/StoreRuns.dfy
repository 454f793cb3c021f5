/** What every run of the store keeps, and what its commits, rollbacks and restores guarantee. */
module StoreRuns {
  import opened Text
  import opened Store

  /** One call of an exported method, with the clock reading and the outcomes of the foreign calls it makes. */
  datatype Event =
    | Begin
    | WriteFile(file: string, content: string)
    | MarkRestart
    | DiscardEdits
    | CommitEdits(now: nat, verdict: bool, applied: bool)
    | RestoreFrom(id: nat, files: seq<string>, now: nat, verdict: bool, applied: bool)
    | SaveBaseline
    | RestoreBaseline(now: nat, verdict: bool, applied: bool)
    | SetCount(n: int)

  ghost function Step(s: State, c: Setup, e: Event): State {
    match e
    case Begin => Store.Begin(s)
    case WriteFile(file, content) => Write(s, file, content).0
    case MarkRestart => Mark(s)
    case DiscardEdits => Discard(s)
    case CommitEdits(now, verdict, applied) => Commit(s, c, now, verdict, applied).0
    case RestoreFrom(id, files, now, verdict, applied) => Restore(s, c, id, files, now, verdict, applied).0
    case SaveBaseline => SaveGolden(s)
    case RestoreBaseline(now, verdict, applied) => RestoreGolden(s, c, now, verdict, applied).0
    case SetCount(n) => SetRetention(s, c, n).0
  }

  ghost function Run(s: State, c: Setup, es: seq<Event>): State
    decreases es
  {
    if es == [] then s else Run(Step(s, c, es[0]), c, es[1..])
  }

  // ---------------------------------------------------------------- only accepted configurations go live

  /** The live files at the moment the validator is asked; None when it is not asked. */
  ghost function Candidate(s: State, c: Setup, e: Event): Option<Files> {
    if c.devMode then None
    else match e
      case CommitEdits(now, _, _) =>
        if s.staging.None? || Changed(s.staging.value, s.live, ManagedFiles()) == [] then None
        else Some(Copy(s.staging.value, Changed(s.staging.value, s.live, ManagedFiles()), s.live))
      case RestoreFrom(id, files, now, _, _) =>
        if s.staging.Some? || (exists f :: f in files && !IsManaged(f)) || id !in s.backups then None
        else Some(Copy(Snapshot(s, now).backups[id], if files == [] then ManagedFiles() else files, s.live))
      case RestoreBaseline(now, _, _) =>
        if s.staging.Some? || s.golden.None? then None
        else Some(Copy(s.golden.value, ManagedFiles(), s.live))
      case _ => None
  }

  predicate Verdict(e: Event) {
    match e
    case CommitEdits(_, verdict, _) => verdict
    case RestoreFrom(_, _, _, verdict, _) => verdict
    case RestoreBaseline(_, verdict, _) => verdict
    case _ => false
  }

  ghost function AcceptedNow(s: State, c: Setup, e: Event): set<Files> {
    if Candidate(s, c, e).Some? && Verdict(e) then {Candidate(s, c, e).value} else {}
  }

  /** The configurations the validator accepted in the course of a run. */
  ghost function Accepted(s: State, c: Setup, es: seq<Event>): set<Files>
    decreases es
  {
    if es == [] then {} else AcceptedNow(s, c, es[0]) + Accepted(Step(s, c, es[0]), c, es[1..])
  }

  /** Every managed file is there. */
  predicate Complete(live: Files) {
    forall f :: f in ManagedFiles() ==> f in live
  }

  // Writing files over the live ones and then copying a snapshot of them back.

  lemma CopiedKey(src: Files, files: seq<string>, dst: Files, f: string)
    ensures f in Copy(src, files, dst) <==> f in dst || (f in files && f in src)
    ensures f in files && f in src ==> Copy(src, files, dst)[f] == src[f]
    ensures !(f in files && f in src) && f in dst ==> Copy(src, files, dst)[f] == dst[f]
  {}

  lemma RolledBackKey(src: Files, changed: seq<string>, live: Files, dir: Files, f: string)
    requires f in changed ==> f in src && IsManaged(f)
    ensures var t := Copy(Copy(live, ManagedFiles(), dir), changed, Copy(src, changed, live));
      (f in live ==> f in t && t[f] == live[f]) && (f in t <==> f in live || f in changed)
  {
    hide *;
    var dir' := Copy(live, ManagedFiles(), dir);
    var live' := Copy(src, changed, live);
    assert f in changed ==> f in ManagedFiles() by { ManagedMeans(f); }
    CopiedKey(live, ManagedFiles(), dir, f);
    CopiedKey(src, changed, live, f);
    CopiedKey(dir', changed, live', f);
  }

  lemma ManagedMeans(f: string)
    ensures IsManaged(f) <==> f in ManagedFiles()
  {}

  lemma RollbackOfChanged(src: Files, changed: seq<string>, live: Files, dir: Files)
    requires forall f :: f in changed ==> f in src && IsManaged(f)
    ensures var t := Copy(Copy(live, ManagedFiles(), dir), changed, Copy(src, changed, live));
      && (forall f :: f in live ==> f in t && t[f] == live[f])
      && t.Keys == live.Keys + (set f | f in changed)
      && (t == live <==> forall f :: f in changed ==> f in live)
  {
    hide *;
    var t := Copy(Copy(live, ManagedFiles(), dir), changed, Copy(src, changed, live));
    forall f
      ensures (f in live ==> f in t && t[f] == live[f]) && (f in t <==> f in live || f in changed)
    {
      RolledBackKey(src, changed, live, dir, f);
    }
    SameAsLive(t, live, changed);
  }

  lemma SameAsLive(t: Files, live: Files, extra: seq<string>)
    requires forall f :: (f in live ==> f in t && t[f] == live[f]) && (f in t <==> f in live || f in extra)
    ensures t.Keys == live.Keys + set f | f in extra
    ensures t == live <==> forall f :: f in extra ==> f in live
  {
    if forall f :: f in extra ==> f in live {
      assert t.Keys == live.Keys;
    }
  }

  lemma RolledBackFully(src: Files, files: seq<string>, live: Files, dir: Files, f: string)
    requires f in files ==> IsManaged(f)
    ensures var t := Copy(Copy(live, ManagedFiles(), dir), ManagedFiles(), Copy(src, files, live));
      && (f in live ==> f in t && t[f] == live[f])
      && (dir == map[] ==> (f in t <==> f in live || (f in files && f in src)))
      && (Complete(live) ==> (f in t <==> f in live))
  {
    hide *;
    var dir' := Copy(live, ManagedFiles(), dir);
    var live' := Copy(src, files, live);
    ManagedMeans(f);
    CompleteMeans(live, f);
    CopiedKey(live, ManagedFiles(), dir, f);
    CopiedKey(src, files, live, f);
    CopiedKey(dir', ManagedFiles(), live', f);
  }

  lemma CompleteMeans(live: Files, f: string)
    ensures Complete(live) && f in ManagedFiles() ==> f in live
  {
    hide ManagedFiles;
  }

  lemma RollbackOfAll(src: Files, files: seq<string>, live: Files, dir: Files)
    requires forall f :: f in files ==> IsManaged(f)
    ensures var t := Copy(Copy(live, ManagedFiles(), dir), ManagedFiles(), Copy(src, files, live));
      && (forall f :: f in live ==> f in t && t[f] == live[f])
      && (dir == map[] ==> (t == live <==> forall f :: f in files && f in src ==> f in live))
      && (Complete(live) ==> t == live)
  {
    hide *;
    var t := Copy(Copy(live, ManagedFiles(), dir), ManagedFiles(), Copy(src, files, live));
    forall f
      ensures && (f in live ==> f in t && t[f] == live[f])
        && (dir == map[] ==> (f in t <==> f in live || (f in files && f in src)))
        && (Complete(live) ==> (f in t <==> f in live))
    {
      RolledBackFully(src, files, live, dir, f);
    }
    if Complete(live) || (dir == map[] && forall f :: f in files && f in src ==> f in live) {
      assert t.Keys == live.Keys;
    }
  }

  ghost predicate Trusted(s: State, c: Setup, e: Event, live: Files) {
    && Complete(live)
    && live == (if Candidate(s, c, e).Some? && Verdict(e) then Candidate(s, c, e).value else s.live)
  }

  lemma CompleteStays(src: Files, files: seq<string>, live: Files)
    requires Complete(live)
    ensures Complete(Copy(src, files, live))
  {
    hide ManagedFiles;
  }

  lemma CommitTrusted(s: State, c: Setup, e: Event)
    requires Complete(s.live) && !c.devMode && e.CommitEdits?
    ensures Trusted(s, c, e, Step(s, c, e).live)
  {
    hide ManagedFiles, Newest, Changed, Copy, Complete;
    if s.staging.Some? {
      var staged := s.staging.value;
      var changed := Changed(staged, s.live, ManagedFiles());
      ChangedLive(staged, s.live);
      CompleteStays(staged, changed, s.live);
      RollbackOfChanged(staged, changed, s.live, if e.now in s.backups then s.backups[e.now] else map[]);
    }
  }

  /** With every managed file live, a changed file is one of them. */
  lemma ChangedLive(staged: Files, live: Files)
    requires Complete(live)
    ensures forall f :: f in Changed(staged, live, ManagedFiles()) ==> f in staged && IsManaged(f) && f in live
  {
    hide ManagedFiles, Changed;
    ChangedExactly(staged, live, ManagedFiles());
  }

  lemma RestoreTrusted(s: State, c: Setup, e: Event)
    requires Complete(s.live) && !c.devMode && e.RestoreFrom?
    ensures Trusted(s, c, e, Step(s, c, e).live)
  {
    hide ManagedFiles, Newest, Copy, Complete;
    if s.staging.None? && e.id in s.backups && !exists f :: f in e.files && !IsManaged(f) {
      var list := if e.files == [] then ManagedFiles() else e.files;
      var src := Snapshot(s, e.now).backups[e.id];
      CompleteStays(src, list, s.live);
      RollbackOfAll(src, list, s.live, if e.now in s.backups then s.backups[e.now] else map[]);
    }
  }

  lemma BaselineTrusted(s: State, c: Setup, e: Event)
    requires Complete(s.live) && !c.devMode && e.RestoreBaseline?
    ensures Trusted(s, c, e, Step(s, c, e).live)
  {
    hide ManagedFiles, Newest, Copy, Complete;
    if s.staging.None? && s.golden.Some? {
      CompleteStays(s.golden.value, ManagedFiles(), s.live);
      RollbackOfAll(s.golden.value, ManagedFiles(), s.live, if e.now in s.backups then s.backups[e.now] else map[]);
    }
  }

  /** One step: the live files become what the validator accepted, or stay as they were. */
  lemma StepTrusted(s: State, c: Setup, e: Event)
    requires Complete(s.live) && !c.devMode
    ensures Trusted(s, c, e, Step(s, c, e).live)
  {
    hide ManagedFiles, Newest, Commit, Restore, RestoreGolden;
    match e
    case CommitEdits(_, _, _) => CommitTrusted(s, c, e);
    case RestoreFrom(_, _, _, _, _) => RestoreTrusted(s, c, e);
    case RestoreBaseline(_, _, _) => BaselineTrusted(s, c, e);
    case _ =>
  }

  /** Safety over every run, for any clock and any outcomes of the validator, the reload and the restart:
      the live configuration is the initial one or one the validator accepted. */
  lemma {:induction false} LiveIsTrusted(s: State, c: Setup, es: seq<Event>)
    requires Complete(s.live) && !c.devMode
    ensures Run(s, c, es).live in {s.live} + Accepted(s, c, es)
    ensures Complete(Run(s, c, es).live)
    decreases es
  {
    if es != [] {
      hide Step, Candidate, Verdict, Complete;
      StepTrusted(s, c, es[0]);
      LiveIsTrusted(Step(s, c, es[0]), c, es[1..]);
    }
  }

  // ---------------------------------------------------------------- rejected commits and restores

  /** A rejected commit: files that existed live are as before, staging is kept, and the live files are wholly
      unchanged exactly when every changed file already existed live. The other backups are unchanged exactly
      when no backup was taken in the same second. */
  lemma RejectedCommit(s: State, c: Setup, now: nat, applied: bool)
    requires s.staging.Some? && !c.devMode
    requires Changed(s.staging.value, s.live, ManagedFiles()) != []
    ensures var (t, o) := Commit(s, c, now, false, applied);
            var changed := Changed(s.staging.value, s.live, ManagedFiles());
      && o == Rejected && t.staging == s.staging && t.marked == s.marked && t.golden == s.golden && t.retain == s.retain
      && (forall f :: f in s.live ==> f in t.live && t.live[f] == s.live[f])
      && t.live.Keys == s.live.Keys + set f | f in changed
      && (t.live == s.live <==> forall f :: f in changed ==> f in s.live)
      && t.backups == s.backups - {now}
      && (t.backups == s.backups <==> now !in s.backups)
  {
    hide ManagedFiles, Newest, Changed, Copy;
    var changed := Changed(s.staging.value, s.live, ManagedFiles());
    ChangedExactly(s.staging.value, s.live, ManagedFiles());
    RollbackOfChanged(s.staging.value, changed, s.live, if now in s.backups then s.backups[now] else map[]);
    var t := Commit(s, c, now, false, applied).0;
    var dir := Snapshot(s, now).backups[now];
    assert t.backups == s.backups[now := dir] - {now} == s.backups - {now};
    if now !in s.backups {
      assert s.backups - {now} == s.backups;
    } else {
      assert now !in t.backups;
    }
  }

  lemma TwoManaged()
    ensures IsManaged(MainFile()) && IsManaged(DevicesFile()) && MainFile() != DevicesFile()
  {
    assert ManagedFiles()[0] == MainFile() && ManagedFiles()[4] == DevicesFile();
  }

  /** A session in which the devices file was created, on top of one live file. */
  function FirstDevices(before: string, devices: string): State {
    State(map[MainFile() := before], Some(map[MainFile() := before, DevicesFile() := devices]), false, map[], None,
          None)
  }

  /** Its commit is rejected, and the rejected file is live. */
  lemma RejectedFileIsLive(c: Setup, before: string, devices: string, now: nat, applied: bool)
    requires !c.devMode && devices != ""
    ensures var (t, o) := Commit(FirstDevices(before, devices), c, now, false, applied);
      o == Rejected && DevicesFile() !in FirstDevices(before, devices).live
      && DevicesFile() in t.live && t.live[DevicesFile()] == devices
  {
    hide ManagedFiles, Newest, MainFile, DevicesFile, Changed, Copy;
    TwoManaged();
    var s := FirstDevices(before, devices);
    var staged := s.staging.value;
    var f := DevicesFile();
    ChangedExactly(staged, s.live, ManagedFiles());
    var changed := Changed(staged, s.live, ManagedFiles());
    assert f in changed;
    CopiedKey(staged, changed, s.live, f);
    CopiedKey(s.live, ManagedFiles(), map[], f);
    CopiedKey(Copy(s.live, ManagedFiles(), map[]), changed, Copy(staged, changed, s.live), f);
  }

  /** A rejected restore, of a backup or of the baseline, with its own fresh snapshot: the same guarantee, and
      the snapshot stays. */
  lemma RejectedApply(s: State, c: Setup, src: Files, files: seq<string>, now: nat, applied: bool)
    requires !c.devMode && now !in s.backups && forall f :: f in files ==> IsManaged(f)
    ensures var (t, o) := Apply(Snapshot(s, now), c, src, files, now, false, applied);
      && o == Rejected && t.staging == s.staging && t.golden == s.golden && t.retain == s.retain
      && t.backups.Keys == s.backups.Keys + {now} && (forall id :: id in s.backups ==> t.backups[id] == s.backups[id])
      && (forall f :: f in s.live ==> f in t.live && t.live[f] == s.live[f])
      && (t.live == s.live <==> forall f :: f in files && f in src ==> f in s.live)
  {
    hide ManagedFiles, Newest, Copy;
    RollbackOfAll(src, files, s.live, map[]);
  }

  /** After a commit whose reload or restart failed, committing again neither reloads nor restarts: it finds
      nothing changed and closes the session. */
  lemma RetryOnlyCloses(s: State, c: Setup, now: nat, applied: bool, now': nat, verdict': bool, applied': bool)
    requires Commit(s, c, now, true, applied).1 == NotApplied
    ensures var t := Commit(s, c, now, true, applied).0;
      Commit(t, c, now', verdict', applied') == (Discard(t), NoChanges)
  {
    hide ManagedFiles, Newest, Changed;
    var t := Commit(s, c, now, true, applied).0;
    var staged := s.staging.value;
    ChangedExactly(staged, s.live, ManagedFiles());
    forall f | f in ManagedFiles() && f in staged ensures staged[f] == Content(t.live, f) {
      assert f !in Changed(staged, s.live, ManagedFiles()) ==> staged[f] == Content(s.live, f);
    }
    NothingChanged(staged, t.live, ManagedFiles());
  }

  /** A session with one changed file, whose reload fails: the file is live, and the retry, for which the reload would
      succeed, makes none. */
  lemma RetryMakesNoReload(c: Setup, before: string, after: string, now: nat, now': nat)
    requires !c.devMode && after != before
    ensures var s := State(map[MainFile() := before], Some(map[MainFile() := after]), false, map[], None, None);
      var (t, o) := Commit(s, c, now, true, false);
      o == NotApplied && MainFile() in t.live && t.live[MainFile()] == after &&
        Commit(t, c, now', true, true).1 == NoChanges
  {
    hide ManagedFiles, Newest, MainFile, Changed, Copy;
    TwoManaged();
    var s := State(map[MainFile() := before], Some(map[MainFile() := after]), false, map[], None, None);
    var changed := Changed(s.staging.value, s.live, ManagedFiles());
    ChangedExactly(s.staging.value, s.live, ManagedFiles());
    assert MainFile() in changed;
    CopiedKey(s.staging.value, changed, s.live, MainFile());
    RetryOnlyCloses(s, c, now, false, now', true, true);
  }

  // ---------------------------------------------------------------- accepted commits

  /** An accepted and applied commit at a time later than every backup: its snapshot is the newest backup and
      survives pruning, exactly the newest min(count, retention) remain, and the baseline is untouched. */
  lemma AcceptedCommit(s: State, c: Setup, now: nat)
    requires s.staging.Some? && !c.devMode && (s.marked ==> c.hasRestart)
    requires Changed(s.staging.value, s.live, ManagedFiles()) != []
    requires forall id :: id in s.backups ==> id < now
    ensures var (t, o) := Commit(s, c, now, true, true); var keep := Retention(s, c);
      && o == Done && t.staging.None? && t.golden == s.golden
      && t.live == Copy(s.staging.value, Changed(s.staging.value, s.live, ManagedFiles()), s.live)
      && now in t.backups && t.backups[now] == Copy(s.live, ManagedFiles(), map[])
      && |t.backups| == (if |s.backups| + 1 <= keep then |s.backups| + 1 else keep)
      && (forall id :: id in t.backups && id != now ==> id in s.backups && t.backups[id] == s.backups[id] && id < now)
      && (forall id, gone :: id in t.backups && gone in s.backups && gone !in t.backups ==> gone < id)
  {
    hide ManagedFiles, Newest, Changed, Copy;
    SnapshotKept(s.backups, now, Copy(s.live, ManagedFiles(), map[]), Retention(s, c));
    assert Commit(s, c, now, true, true).0.backups == Newest(Snapshot(s, now).backups, Retention(s, c));
  }

  /** A new backup, later than all the others, under pruning. */
  lemma SnapshotKept(b: map<nat, Files>, now: nat, dir: Files, keep: nat)
    requires keep > 0 && forall id :: id in b ==> id < now
    ensures var t := Newest(b[now := dir], keep);
      && now in t && t[now] == dir
      && |t| == (if |b| + 1 <= keep then |b| + 1 else keep)
      && (forall id :: id in t && id != now ==> id in b && t[id] == b[id] && id < now)
      && (forall id, gone :: id in t && gone in b && gone !in t ==> gone < id)
  {
    hide *;
    var b' := b[now := dir];
    NewestSurvives(b', keep, now);
    OneMore(b, now, dir);
    NewestExactly(b', keep);
    var t := Newest(b', keep);
    forall id | id in t && id != now ensures id in b && t[id] == b[id] && id < now {
      assert id in b';
    }
    forall id, gone | id in t && gone in b && gone !in t ensures gone < id {
      assert gone in b';
    }
  }

  lemma OneMore(b: map<nat, Files>, now: nat, dir: Files)
    requires now !in b
    ensures |b[now := dir]| == |b| + 1
  {
    assert b[now := dir].Keys == b.Keys + {now};
  }

  /** Restoring in full the snapshot of an accepted commit gives every managed file that was live before the
      commit its earlier content; files the commit created stay. */
  lemma CommitIsReversible(s: State, c: Setup, now: nat, later: nat, applied: bool)
    requires s.staging.Some? && !c.devMode && (s.marked ==> c.hasRestart)
    requires Changed(s.staging.value, s.live, ManagedFiles()) != []
    requires forall id :: id in s.backups ==> id < now
    requires later != now
    ensures var t := Commit(s, c, now, true, true).0; var (u, o) := Restore(t, c, now, [], later, true, applied);
      && o == (if applied then Done else NotApplied)
      && (forall f :: f in s.live && IsManaged(f) ==> f in u.live && u.live[f] == s.live[f])
      && u.live.Keys == t.live.Keys
      && (Complete(s.live) && (forall f :: f in s.live ==> IsManaged(f)) ==> u.live == s.live)
  {
    hide ManagedFiles, Newest, Changed, Commit, Copy;
    AcceptedCommit(s, c, now);
    var changed := Changed(s.staging.value, s.live, ManagedFiles());
    ChangedExactly(s.staging.value, s.live, ManagedFiles());
    var t := Commit(s, c, now, true, true).0;
    assert Snapshot(t, later).backups[now] == t.backups[now];
    ThereAndBack(s.staging.value, changed, s.live);
  }

  lemma ThereAndBackKey(src: Files, changed: seq<string>, live: Files, f: string)
    requires f in changed ==> f in src && IsManaged(f)
    ensures var t := Copy(src, changed, live); var u := Copy(Copy(live, ManagedFiles(), map[]), ManagedFiles(), t);
      && (f in live && IsManaged(f) ==> f in u && u[f] == live[f])
      && (f in u <==> f in t)
      && (Complete(live) && (f in live ==> IsManaged(f)) ==> (f in u <==> f in live))
  {
    hide *;
    ManagedMeans(f);
    CompleteMeans(live, f);
    CopiedKey(src, changed, live, f);
    CopiedKey(live, ManagedFiles(), map[], f);
    CopiedKey(Copy(live, ManagedFiles(), map[]), ManagedFiles(), Copy(src, changed, live), f);
  }

  lemma ThereAndBack(src: Files, changed: seq<string>, live: Files)
    requires forall f :: f in changed ==> f in src && IsManaged(f)
    ensures var t := Copy(src, changed, live); var u := Copy(Copy(live, ManagedFiles(), map[]), ManagedFiles(), t);
      && (forall f :: f in live && IsManaged(f) ==> f in u && u[f] == live[f])
      && u.Keys == t.Keys
      && (Complete(live) && (forall f :: f in live ==> IsManaged(f)) ==> u == live)
  {
    hide *;
    var t := Copy(src, changed, live);
    var u := Copy(Copy(live, ManagedFiles(), map[]), ManagedFiles(), t);
    forall f
      ensures f in live && IsManaged(f) ==> f in u && u[f] == live[f]
      ensures f in u <==> f in t
      ensures Complete(live) && (f in live ==> IsManaged(f)) ==> (f in u <==> f in live)
    {
      ThereAndBackKey(src, changed, live, f);
    }
    if Complete(live) && (forall f :: f in live ==> IsManaged(f)) {
      assert u.Keys == live.Keys;
    }
  }

  /** An accepted full restore puts back what the backup holds, except that a backup of the very second of the restore
      has been overwritten by the snapshot the restore takes first: then the live files stay as they are. */
  lemma RestoredContents(s: State, c: Setup, id: nat, now: nat, applied: bool, f: string)
    requires s.staging.None? && id in s.backups && !c.devMode && IsManaged(f) && f in s.backups[id]
    ensures var u := Restore(s, c, id, [], now, true, applied).0;
      f in u.live && u.live[f] == if id == now && f in s.live then s.live[f] else s.backups[id][f]
  {
    hide ManagedFiles, Newest, Copy;
    ManagedMeans(f);
    var dir := if now in s.backups then s.backups[now] else map[];
    CopiedKey(s.live, ManagedFiles(), dir, f);
    CopiedKey(Snapshot(s, now).backups[id], ManagedFiles(), s.live, f);
  }

  /** A backup restored in the second it was taken: it is overwritten first, and what was live stays. */
  lemma RestoredNothing(c: Setup, kept: string, broken: string, now: nat)
    requires !c.devMode
    ensures var s := State(map[MainFile() := broken], None, false, map[now := map[MainFile() := kept]], None, None);
      var (u, o) := Restore(s, c, now, [], now, true, true);
      o == Done && MainFile() in u.live && u.live[MainFile()] == broken
  {
    hide ManagedFiles, Newest, MainFile, Copy;
    TwoManaged();
    var s := State(map[MainFile() := broken], None, false, map[now := map[MainFile() := kept]], None, None);
    RestoredContents(s, c, now, now, true, MainFile());
  }

  // ---------------------------------------------------------------- editing leaves no trace until the commit

  predicate IsEdit(e: Event) {
    e.Begin? || e.WriteFile? || e.MarkRestart?
  }

  /** Edits touch nothing but the staging area. */
  lemma {:induction false} EditsStayStaged(s: State, c: Setup, es: seq<Event>)
    requires forall e :: e in es ==> IsEdit(e)
    ensures var t := Run(s, c, es);
      t.live == s.live && t.backups == s.backups && t.golden == s.golden && t.retain == s.retain
    decreases es
  {
    if es != [] {
      assert IsEdit(es[0]);
      EditsStayStaged(Step(s, c, es[0]), c, es[1..]);
    }
  }

  lemma {:induction false} RunAppend(s: State, c: Setup, a: seq<Event>, b: seq<Event>)
    ensures Run(s, c, a + b) == Run(Run(s, c, a), c, b)
    decreases a
  {
    if a == [] {
      assert a + b == b;
    } else {
      hide Step;
      RunAppend(Step(s, c, a[0]), c, a[1..], b);
      assert (a + b)[1..] == a[1..] + b;
    }
  }

  /** Discarding undoes any editing session that started with none open. */
  lemma DiscardUndoes(s: State, c: Setup, es: seq<Event>)
    requires s.staging.None? && !s.marked && forall e :: e in es ==> IsEdit(e)
    ensures Run(s, c, es + [DiscardEdits]) == s
  {
    EditsStayStaged(s, c, es);
    RunAppend(s, c, es, [DiscardEdits]);
  }

  /** Within a session a file reads as last written, or as it was when the session was opened. */
  lemma SessionView(s: State, file: string, content: string, f: string)
    requires IsManaged(f)
    ensures Effective(Store.Begin(s), f) == Effective(s, f)
    ensures var (t, o) := Write(s, file, content);
      Effective(t, f) == if o == Done && f == file then Some(content) else Effective(s, f)
  {
    hide ManagedFiles, Copy;
    ManagedMeans(f);
    CopiedKey(s.live, ManagedFiles(), map[], f);
  }

  /** Opening a session and committing it at once finds no changes and leaves everything as it was. */
  lemma EmptySession(s: State, c: Setup, now: nat, verdict: bool, applied: bool)
    requires s.staging.None? && !s.marked && Store.Begin(s).staging.Some?
    ensures Commit(Store.Begin(s), c, now, verdict, applied) == (s, NoChanges)
  {
    hide ManagedFiles, Newest, Changed, Copy;
    var staged := Store.Begin(s).staging.value;
    forall f | f in ManagedFiles() && f in staged ensures staged[f] == Content(s.live, f) {
      CopiedKey(s.live, ManagedFiles(), map[], f);
    }
    NothingChanged(staged, s.live, ManagedFiles());
  }

  // ---------------------------------------------------------------- where contents come from

  /** Some version of the configuration - live, staged, baseline or backup - holds this content for the file. */
  ghost predicate Holds(s: State, f: string, v: string) {
    || (f in s.live && s.live[f] == v)
    || (s.staging.Some? && f in s.staging.value && s.staging.value[f] == v)
    || (s.golden.Some? && f in s.golden.value && s.golden.value[f] == v)
    || exists id :: id in s.backups && f in s.backups[id] && s.backups[id][f] == v
  }

  lemma PruneHoldsNoMore(s: State, c: Setup, f: string, v: string)
    requires Holds(Prune(s, c), f, v)
    ensures Holds(s, f, v)
  {
    hide Newest;
    NewestExactly(s.backups, Retention(s, c));
  }

  lemma SnapshotHoldsNoMore(s: State, now: nat, f: string, v: string)
    requires Holds(Snapshot(s, now), f, v)
    ensures Holds(s, f, v)
  {
    hide ManagedFiles;
  }

  lemma CopyHoldsNoMore(s: State, src: Files, files: seq<string>, f: string, v: string)
    requires Holds(s.(live := Copy(src, files, s.live)), f, v)
    requires f in src ==> Holds(s, f, src[f])
    ensures Holds(s, f, v)
  {}

  lemma CommitHoldsNoMore(s: State, c: Setup, now: nat, verdict: bool, applied: bool, f: string, v: string)
    requires Holds(Commit(s, c, now, verdict, applied).0, f, v)
    ensures Holds(s, f, v)
  {
    hide ManagedFiles, Newest, Changed, Copy, Snapshot, Holds;
    if s.staging.Some? {
      var staged := s.staging.value;
      var changed := Changed(staged, s.live, ManagedFiles());
      if changed == [] {
        DiscardHoldsNoMore(s, f, v);
      } else {
        var snapped := Snapshot(s, now);
        var written := snapped.(live := Copy(staged, changed, s.live));
        SnapshotFields(s, now);
        assert Holds(written, f, v) by {
          if c.devMode || (verdict && !((s.marked && !c.hasRestart) || !applied)) {
            PruneHoldsNoMore(Discard(written), c, f, v);
            DiscardHoldsNoMore(written, f, v);
          } else if !verdict {
            RollbackHoldsNoMore(written, now, changed, f, v);
          }
        }
        StagedHolds(snapped, f);
        CopyHoldsNoMore(snapped, staged, changed, f, v);
        SnapshotHoldsNoMore(s, now, f, v);
      }
    }
  }

  lemma SnapshotFields(s: State, now: nat)
    ensures var t := Snapshot(s, now); t == s.(backups := t.backups) && t.backups.Keys == s.backups.Keys + {now}
  {}

  lemma StagedHolds(s: State, f: string)
    ensures s.staging.Some? && f in s.staging.value ==> Holds(s, f, s.staging.value[f])
    ensures s.golden.Some? && f in s.golden.value ==> Holds(s, f, s.golden.value[f])
    ensures forall id :: id in s.backups && f in s.backups[id] ==> Holds(s, f, s.backups[id][f])
  {}

  lemma DiscardHoldsNoMore(s: State, f: string, v: string)
    requires Holds(Discard(s), f, v)
    ensures Holds(s, f, v)
  {}

  lemma RollbackHoldsNoMore(s: State, now: nat, files: seq<string>, f: string, v: string)
    requires now in s.backups
    requires Holds(s.(live := Copy(s.backups[now], files, s.live), backups := s.backups - {now}), f, v)
    ensures Holds(s, f, v)
  {}

  lemma ApplyHoldsNoMore(s: State, c: Setup, src: Files, files: seq<string>, now: nat, verdict: bool, applied: bool,
                         f: string, v: string)
    requires now in s.backups && Holds(Apply(s, c, src, files, now, verdict, applied).0, f, v)
    requires f in src ==> Holds(s, f, src[f])
    ensures Holds(s, f, v)
  {
    hide ManagedFiles, Newest, Copy, Holds;
    var written := s.(live := Copy(src, files, s.live));
    assert Holds(written, f, v) by {
      if c.devMode || (verdict && applied) {
        PruneHoldsNoMore(written, c, f, v);
      } else if !verdict {
        StagedHolds(written, f);
        CopyHoldsNoMore(written, written.backups[now], ManagedFiles(), f, v);
      }
    }
    CopyHoldsNoMore(s, src, files, f, v);
  }

  /** No step invents a content: what any version holds after it was held before, or was just written. */
  lemma StepProvenance(s: State, c: Setup, e: Event, f: string, v: string)
    requires Holds(Step(s, c, e), f, v)
    ensures Holds(s, f, v) || e == WriteFile(f, v)
  {
    hide ManagedFiles, Newest, Changed, Commit, Apply, Prune;
    match e
    case Begin =>
    case WriteFile(_, _) =>
    case MarkRestart =>
    case DiscardEdits => DiscardHoldsNoMore(s, f, v);
    case CommitEdits(now, verdict, applied) => CommitHoldsNoMore(s, c, now, verdict, applied, f, v);
    case RestoreFrom(id, files, now, verdict, applied) => RestoreProvenance(s, c, e, f, v);
    case SaveBaseline =>
    case RestoreBaseline(now, verdict, applied) => RestoreProvenance(s, c, e, f, v);
    case SetCount(n) =>
      if 1 <= n <= 100 {
        PruneHoldsNoMore(s.(retain := Some(n)), c, f, v);
      }
  }

  lemma RestoreProvenance(s: State, c: Setup, e: Event, f: string, v: string)
    requires e.RestoreFrom? || e.RestoreBaseline?
    requires Holds(Step(s, c, e), f, v)
    ensures Holds(s, f, v)
  {
    hide ManagedFiles, Newest, Apply, Holds, Snapshot;
    if Step(s, c, e) != s {
      var snapped := Snapshot(s, e.now);
      SnapshotFields(s, e.now);
      StagedHolds(snapped, f);
      if e.RestoreFrom? {
        ApplyHoldsNoMore(snapped, c, snapped.backups[e.id], if e.files == [] then ManagedFiles() else e.files, e.now,
                         e.verdict, e.applied, f, v);
      } else {
        ApplyHoldsNoMore(snapped, c, s.golden.value, ManagedFiles(), e.now, e.verdict, e.applied, f, v);
      }
      SnapshotHoldsNoMore(s, e.now, f, v);
    }
  }
}
