/** What single calls of the store do, and what its baseline, marker and retention setting are for. */
module StoreLaws {
  import opened Text
  import opened Store
  import opened StoreRuns

  // ---------------------------------------------------------------- the baseline

  predicate NoSave(es: seq<Event>) {
    forall e :: e in es ==> !e.SaveBaseline?
  }

  lemma StepKeepsGolden(s: State, c: Setup, e: Event)
    requires !e.SaveBaseline?
    ensures Step(s, c, e).golden == s.golden
  {
    hide ManagedFiles, Newest, Changed, Copy;
  }

  lemma {:induction false} RunKeepsGolden(s: State, c: Setup, es: seq<Event>)
    requires NoSave(es)
    ensures Run(s, c, es).golden == s.golden
    decreases es
  {
    if es != [] {
      hide Step;
      assert es[0] in es;
      StepKeepsGolden(s, c, es[0]);
      RunKeepsGolden(Step(s, c, es[0]), c, es[1..]);
    }
  }

  /** A managed file that was live when the baseline was saved. */
  predicate InBaseline(saved: State, f: string) {
    IsManaged(f) && f in saved.live
  }

  /** A baseline saved now, whatever baseline there was before, and restored after any calls that save none: where no
      session is open and the validator accepts, every managed file that was live at the save has its content of that
      moment, and every other file, also one that only an older baseline held, is as it was before the restore. */
  lemma BaselineRestored(saved: State, c: Setup, es: seq<Event>, now: nat, applied: bool)
    requires NoSave(es)
    requires Run(SaveGolden(saved), c, es).staging.None?
    ensures var t := Run(SaveGolden(saved), c, es); var (u, o) := RestoreGolden(t, c, now, true, applied);
      && o == (if c.devMode then Skipped else if applied then Done else NotApplied)
      && (forall f :: InBaseline(saved, f) ==> f in u.live && u.live[f] == saved.live[f])
      && (forall f :: !InBaseline(saved, f) ==>
            (f in u.live <==> f in t.live) && (f in t.live ==> u.live[f] == t.live[f]))
  {
    hide ManagedFiles, Newest, Copy, Run;
    RunKeepsGolden(SaveGolden(saved), c, es);
    var t := Run(SaveGolden(saved), c, es);
    var golden := Copy(saved.live, ManagedFiles(), map[]);
    var u := RestoreGolden(t, c, now, true, applied).0;
    forall f ensures
      && (InBaseline(saved, f) ==> f in u.live && u.live[f] == saved.live[f])
      && (!InBaseline(saved, f) ==> (f in u.live <==> f in t.live) && (f in t.live ==> u.live[f] == t.live[f]))
    {
      ManagedMeans(f);
      CopiedKey(saved.live, ManagedFiles(), map[], f);
      CopiedKey(golden, ManagedFiles(), t.live, f);
    }
  }

  /** Saving a baseline touches nothing else. */
  lemma SavingIsQuiet(s: State)
    ensures SaveGolden(s) == s.(golden := SaveGolden(s).golden) && SaveGolden(s).golden.Some?
    ensures forall f :: f in SaveGolden(s).golden.value <==> InBaseline(s, f)
  {
    hide ManagedFiles, Copy;
    forall f ensures f in SaveGolden(s).golden.value <==> InBaseline(s, f) {
      ManagedMeans(f);
      CopiedKey(s.live, ManagedFiles(), map[], f);
    }
  }

  /** Restoring is refused in a session, and without a baseline. */
  lemma RestoreRefused(s: State, c: Setup, id: nat, files: seq<string>, now: nat, verdict: bool, applied: bool)
    ensures s.staging.Some? ==>
              RestoreGolden(s, c, now, verdict, applied) == (s, SessionOpen) &&
              Restore(s, c, id, files, now, verdict, applied) == (s, SessionOpen)
    ensures s.staging.None? && s.golden.None? ==> RestoreGolden(s, c, now, verdict, applied) == (s, NotFound)
    ensures s.staging.None? && (exists f :: f in files && !IsManaged(f)) ==>
              Restore(s, c, id, files, now, verdict, applied) == (s, NotManaged)
    ensures s.staging.None? && (forall f :: f in files ==> IsManaged(f)) && id !in s.backups ==>
              Restore(s, c, id, files, now, verdict, applied) == (s, NotFound)
  {
    hide ManagedFiles, Newest, Copy;
  }

  /** A restore of some files, accepted and applied, from a backup of another second: those of them that the backup
      holds get its content, and all other files stay. */
  lemma PartialRestore(s: State, c: Setup, id: nat, files: seq<string>, now: nat)
    requires s.staging.None? && id in s.backups && id != now && !c.devMode
    requires files != [] && forall f :: f in files ==> IsManaged(f)
    ensures var (u, o) := Restore(s, c, id, files, now, true, true);
      && o == Done
      && (forall f :: f in files && f in s.backups[id] ==> f in u.live && u.live[f] == s.backups[id][f])
      && (forall f :: !(f in files && f in s.backups[id]) ==>
            (f in u.live <==> f in s.live) && (f in s.live ==> u.live[f] == s.live[f]))
  {
    hide ManagedFiles, Newest, Copy;
    var u := Restore(s, c, id, files, now, true, true).0;
    forall f ensures
      && (f in files && f in s.backups[id] ==> f in u.live && u.live[f] == s.backups[id][f])
      && (!(f in files && f in s.backups[id]) ==>
            (f in u.live <==> f in s.live) && (f in s.live ==> u.live[f] == s.live[f]))
    {
      CopiedKey(s.backups[id], files, s.live, f);
    }
  }

  // ---------------------------------------------------------------- sessions

  /** Opening a session copies the managed live files, and nothing when there are none; an open one stays as it is. */
  lemma BeginCopies(s: State)
    ensures s.staging.Some? ==> Store.Begin(s) == s
    ensures s.staging.None? && (exists f :: IsManaged(f) && f in s.live) ==>
              var t := Store.Begin(s);
              && t.staging.Some? && !t.marked && t == s.(staging := t.staging, marked := false)
              && (forall f :: f in t.staging.value <==> IsManaged(f) && f in s.live)
              && (forall f :: f in t.staging.value ==> t.staging.value[f] == s.live[f])
    ensures s.staging.None? && (forall f :: IsManaged(f) ==> f !in s.live) ==> Store.Begin(s) == s
  {
    hide ManagedFiles, Copy;
    var copied := Copy(s.live, ManagedFiles(), map[]);
    forall f ensures (f in copied <==> IsManaged(f) && f in s.live) && (f in copied ==> copied[f] == s.live[f]) {
      ManagedMeans(f);
      CopiedKey(s.live, ManagedFiles(), map[], f);
    }
    if f :| IsManaged(f) && f in s.live {
      assert f in copied;
    } else {
      assert copied == map[];
    }
  }

  /** A file is staged only when it is managed and a session is open; otherwise nothing happens. */
  lemma WriteReplies(s: State, file: string, content: string)
    ensures !IsManaged(file) ==> Write(s, file, content) == (s, NotManaged)
    ensures IsManaged(file) && s.staging.None? ==> Write(s, file, content) == (s, Inactive)
    ensures IsManaged(file) && s.staging.Some? ==>
              var (t, o) := Write(s, file, content);
              && o == Done && Effective(t, file) == Some(content) && t.live == s.live
              && forall f :: f != file ==> Effective(t, f) == Effective(s, f)
  {
    hide ManagedFiles;
  }

  /** What is read: nothing for a file that is not managed, the staged content first, then the live one. */
  lemma ReadOrder(s: State, file: string)
    ensures !IsManaged(file) ==> Effective(s, file).None?
    ensures IsManaged(file) && s.staging.None? ==>
              Effective(s, file) == if file in s.live then Some(s.live[file]) else None
  {
    hide ManagedFiles;
  }

  /** The marker stays through edits. */
  lemma {:induction false} MarkerStays(s: State, c: Setup, es: seq<Event>)
    requires s.marked && s.staging.Some? && forall e :: e in es ==> IsEdit(e)
    ensures Run(s, c, es).marked && Run(s, c, es).staging.Some?
    decreases es
  {
    hide ManagedFiles, Copy;
    if es != [] {
      assert IsEdit(es[0]);
      assert Step(s, c, es[0]).marked && Step(s, c, es[0]).staging.Some?;
      MarkerStays(Step(s, c, es[0]), c, es[1..]);
    }
  }

  /** What the marker is for: in a session marked for a restart, an accepted commit with changes is not applied by an
      agent that cannot restart, whatever a reload would do; in one that is not marked it is applied when the reload
      succeeds. */
  lemma MarkerForcesRestart(s: State, c: Setup, es: seq<Event>, now: nat)
    requires !c.devMode && !c.hasRestart && forall e :: e in es ==> IsEdit(e)
    ensures var t := Run(Mark(s), c, es);
      && t.staging.Some?
      && (Changed(t.staging.value, t.live, ManagedFiles()) != [] ==> Commit(t, c, now, true, true).1 == NotApplied)
    ensures s.staging.Some? && !s.marked && Changed(s.staging.value, s.live, ManagedFiles()) != [] ==>
              Commit(s, c, now, true, true).1 == Done && Commit(s, c, now, true, false).1 == NotApplied
  {
    hide ManagedFiles, Changed, Copy, Newest, Run;
    MarkerStays(Mark(s), c, es);
  }

  /** Marking opens a session when none is open, and changes no file of an open one. */
  lemma MarkKeepsFiles(s: State)
    ensures var t := Mark(s);
      t.marked && t.live == s.live && t.backups == s.backups && t.golden == s.golden && t.retain == s.retain
      && t.staging == Some(if s.staging.Some? then s.staging.value else map[])
  {}

  /** In developer mode a commit goes live unasked and ends the session. */
  lemma UnaskedCommit(s: State, c: Setup, now: nat, verdict: bool, applied: bool)
    requires c.devMode && s.staging.Some? && Changed(s.staging.value, s.live, ManagedFiles()) != []
    ensures var (t, o) := Commit(s, c, now, verdict, applied);
      && o == Skipped && t.staging.None? && !t.marked
      && (forall f :: IsManaged(f) && f in s.staging.value && s.staging.value[f] != "" ==>
            f in t.live && t.live[f] == s.staging.value[f])
  {
    hide ManagedFiles, Newest, Copy, Changed;
    var changed := Changed(s.staging.value, s.live, ManagedFiles());
    ChangedExactly(s.staging.value, s.live, ManagedFiles());
    var t := Commit(s, c, now, verdict, applied).0;
    forall f | IsManaged(f) && f in s.staging.value && s.staging.value[f] != ""
      ensures f in t.live && t.live[f] == s.staging.value[f]
    {
      ManagedMeans(f);
      CopiedKey(s.staging.value, changed, s.live, f);
      assert f !in changed ==> s.staging.value[f] == Content(s.live, f);
    }
  }

  lemma CommitWithoutSession(s: State, c: Setup, now: nat, verdict: bool, applied: bool)
    requires s.staging.None?
    ensures Commit(s, c, now, verdict, applied) == (s, Inactive)
  {}

  // ---------------------------------------------------------------- retention

  /** How many backups are kept: the number set, else the one the agent was started with, else five. */
  lemma KeptNumber(s: State, c: Setup)
    ensures s.retain.Some? && s.retain.value > 0 ==> Retention(s, c) == s.retain.value
    ensures s.retain.None? && c.defaultRetain > 0 ==> Retention(s, c) == c.defaultRetain
    ensures s.retain.None? && c.defaultRetain <= 0 ==> Retention(s, c) == 5
  {}

  /** A number from one to a hundred is stored, counts from then on, and prunes at once; any other is refused. */
  lemma CountIsKept(s: State, c: Setup, n: int)
    ensures 1 <= n <= 100 ==>
              var (t, o) := SetRetention(s, c, n);
              && o == Done && Retention(t, c) == n && |t.backups| == (if |s.backups| <= n then |s.backups| else n)
              && (forall id :: id in t.backups ==> id in s.backups && t.backups[id] == s.backups[id])
              && t == s.(retain := Some(n), backups := t.backups)
    ensures n < 1 || n > 100 ==> SetRetention(s, c, n) == (s, OutOfRange)
  {
    hide Newest;
    if 1 <= n <= 100 {
      NewestExactly(s.backups, n);
    }
  }

  /** The files under the store's care. */
  lemma TheManagedFiles(f: string)
    ensures IsManaged(f) <==>
            || f == "tac_plus-ng.cfg" || f == "agent-overrides.env"
            || f == "conf.d/01-logging.cfg" || f == "conf.d/02-dns.cfg" || f == "conf.d/03-mavis.cfg"
            || f == "conf.d/04-devices.cfg" || f == "conf.d/05-local-users.cfg" || f == "conf.d/06-groups.cfg"
            || f == "conf.d/07-profiles.cfg" || f == "conf.d/08-ruleset.cfg" || f == "conf.d/09-tls.cfg"
  {}

  // ---------------------------------------------------------------- snapshots and restores

  /** A snapshot holds the managed live files, and what a backup of the same second held besides. */
  lemma SnapshotHolds(s: State, now: nat)
    ensures var t := Snapshot(s, now);
      && t == s.(backups := t.backups) && now in t.backups
      && (forall id :: id != now ==> (id in t.backups <==> id in s.backups))
      && (forall id :: id != now && id in s.backups ==> t.backups[id] == s.backups[id])
      && (forall f :: IsManaged(f) && f in s.live ==> f in t.backups[now] && t.backups[now][f] == s.live[f])
      && (forall f :: !(IsManaged(f) && f in s.live) ==>
            (f in t.backups[now] <==> now in s.backups && f in s.backups[now]) &&
            (f in t.backups[now] ==> t.backups[now][f] == s.backups[now][f]))
  {
    hide ManagedFiles, Copy;
    var dir := if now in s.backups then s.backups[now] else map[];
    forall f
      ensures IsManaged(f) && f in s.live ==> f in Copy(s.live, ManagedFiles(), dir)
      ensures IsManaged(f) && f in s.live ==> Copy(s.live, ManagedFiles(), dir)[f] == s.live[f]
      ensures !(IsManaged(f) && f in s.live) ==> (f in Copy(s.live, ManagedFiles(), dir) <==> f in dir)
      ensures !(IsManaged(f) && f in s.live) && f in dir ==> Copy(s.live, ManagedFiles(), dir)[f] == dir[f]
    {
      ManagedMeans(f);
      CopiedKey(s.live, ManagedFiles(), dir, f);
    }
  }

  /** What pruning leaves: as many as are wanted, unchanged, and none older than one that is gone. */
  ghost predicate PrunedTo(after: map<nat, Files>, before: map<nat, Files>, n: nat) {
    && |after| == (if |before| <= n then |before| else n)
    && (forall id :: id in after ==> id in before && after[id] == before[id])
    && (forall id, gone :: id in after && gone in before && gone !in after ==> gone < id)
  }

  lemma ApplyPrunes(t: State, c: Setup, src: Files, files: seq<string>, now: nat, verdict: bool, applied: bool)
    requires now in t.backups
    ensures var (u, o) := Apply(t, c, src, files, now, verdict, applied);
      && u == t.(live := u.live, backups := u.backups)
      && (o == Done || o == Skipped ==> PrunedTo(u.backups, t.backups, Retention(t, c)))
      && (o == Rejected || o == NotApplied ==> u.backups == t.backups)
      && o == if c.devMode then Skipped else if !verdict then Rejected else if applied then Done else NotApplied
  {
    hide ManagedFiles, Copy, Newest;
    NewestExactly(t.backups, Retention(t, c));
  }

  /** A restore that goes live and is applied, or is not asked about, prunes like a commit; one that is rejected or not
      applied keeps every backup and the snapshot. Nothing but live files and backups changes. */
  lemma RestorePrunes(s: State, c: Setup, id: nat, files: seq<string>, now: nat, verdict: bool, applied: bool)
    ensures var (u, o) := Restore(s, c, id, files, now, verdict, applied); var t := Snapshot(s, now);
      && u == s.(live := u.live, backups := u.backups)
      && (o == Done || o == Skipped ==> PrunedTo(u.backups, t.backups, Retention(s, c)))
      && (o == Rejected || o == NotApplied ==> u.backups == t.backups)
      && (o == SessionOpen || o == NotManaged || o == NotFound ==> u == s)
      && (s.staging.None? && id in s.backups && (forall f :: f in files ==> IsManaged(f)) ==>
            o == if c.devMode then Skipped else if !verdict then Rejected else if applied then Done else NotApplied)
  {
    hide ManagedFiles, Copy, Newest, PrunedTo, Apply;
    if id in s.backups {
      var t := Snapshot(s, now);
      ApplyPrunes(t, c, t.backups[id], if files == [] then ManagedFiles() else files, now, verdict, applied);
    }
  }
}
