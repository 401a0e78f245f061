/** What every run of the upgrade protocol keeps, whatever fails and wherever a call is killed.

    A run is any sequence of calls by any processes of any versions, one at a time. A startup
    needs an installed binary to execute. */
module UpgradeSafety {
  import opened Text
  import opened Version
  import opened FileSystem
  import opened Upgrade

  datatype Call =
    | Startup(cfg: ManagerConfig, se: StartupEnv)
    | Check(cfg: ManagerConfig, ce: CheckEnv)
    | Shutdown(cfg: ManagerConfig, de: ShutdownEnv)
  {
    /** No file operation of the call falls back to removing its target. */
    predicate Atomic() {
      match this
      case Startup(_, e) => e.rollback.Atomic() && e.save.replace.Atomic()
      case Check(_, e) => e.Atomic()
      case Shutdown(_, e) => e.save.replace.Atomic()
    }
  }

  function Apply(w: World, d: Disk, c: Call): Disk {
    match c
    case Startup(cfg, e) => if Binary in d then AfterStartup(w, cfg, d, e).disk else d
    case Check(cfg, e) => AfterCheck(w, cfg, d, e).disk
    case Shutdown(cfg, e) => AfterShutdown(w, cfg, d, e).disk
  }

  function Run(w: World, d: Disk, calls: seq<Call>): Disk {
    if calls == [] then d else Apply(w, Run(w, d, calls[..|calls| - 1]), calls[|calls| - 1])
  }

  /** The call is a startup that put the previous binary back and said so. */
  predicate RollsBack(w: World, d: Disk, c: Call) {
    c.Startup? && Binary in d && AfterStartup(w, c.cfg, d, c.se).io == Done(true)
  }

  /** The call is a startup that reports a rollback, or changes the installed bytes without living to
      report it. */
  predicate Reverts(w: World, d: Disk, c: Call) {
    RollsBack(w, d, c) || (c.Startup? && !SameAt(d, Apply(w, d, c), Binary))
  }

  /** The call put a new backup in place. */
  predicate Commits(w: World, d: Disk, c: Call) {
    c.Check? && AfterCheck(w, c.cfg, d, c.ce).committed
  }

  predicate Replaces(w: World, d: Disk, c: Call) {
    c.Check? && AfterCheck(w, c.cfg, d, c.ce).replaced
  }

  // ---- what one call does to the binary and its backup -------------------------------------

  lemma StartupEffects(w: World, cfg: ManagerConfig, d: Disk, e: StartupEnv)
    requires Binary in d
    ensures var o := AfterStartup(w, cfg, d, e);
      && (SameAt(d, o.disk, Backup) || Backup !in o.disk)
      && (|| SameAt(d, o.disk, Binary)
          || (Backup in d && Backup !in o.disk && Binary in o.disk && o.disk[Binary] == d[Backup])
          || (!e.rollback.Atomic() && Binary !in o.disk && Backup in d && SameAt(d, o.disk, Backup)
              && State in d))
      && (o.io == Done(true) ==>
            Backup in d && Backup !in o.disk && Binary in o.disk && o.disk[Binary] == d[Backup])
      && (State !in d ==> o.disk == d)
  {
    hide Normalize, AfterForget, AfterClearState, AfterReplace, AfterSaveState;
  }

  lemma ShutdownEffects(w: World, cfg: ManagerConfig, d: Disk, e: ShutdownEnv)
    ensures var d' := AfterShutdown(w, cfg, d, e).disk;
      SameAt(d, d', Binary) && SameAt(d, d', Backup) && (State in d' ==> State in d)
  {
  }

  /** A check either stops with the binary, the backup and the record untouched, or installs a
      download that matched the release. The result is the disk holding that download. */
  lemma VerifiedDownload(w: World, cfg: ManagerConfig, d: Disk, e: CheckEnv) returns (m: Option<Disk>)
    ensures m.None? ==>
              var o := AfterCheck(w, cfg, d, e);
              && !o.committed && !o.replaced && !o.result.applied
              && SameAt(d, o.disk, Binary) && SameAt(d, o.disk, State) && SameAt(d, o.disk, Backup)
    ensures m.Some? ==>
              && e.release.Some? && cfg.enabled
              && NeedsUpgrade(w, cfg, d, e.release.value, e.installedSum) == Done(true)
              && Pending in m.value && Matches(w, e.release.value, m.value[Pending])
              && SameAt(d, m.value, Binary) && SameAt(d, m.value, State) && SameAt(d, m.value, Backup)
              && AfterCheck(w, cfg, d, e) == AfterInstall(w, cfg, m.value, e.release.value, e)
  {
    hide AfterInstall, AfterDownload, Newer, Matches;
    m := None;
    if e.release.Some? && ValidRelease(e.release.value) {
      var r := e.release.value;
      if cfg.enabled && NeedsUpgrade(w, cfg, d, r, e.installedSum) == Done(true) {
        var fetched := AfterDownload(d, e);
        assert SameAt(d, fetched.disk, Binary) && SameAt(d, fetched.disk, State)
               && SameAt(d, fetched.disk, Backup);
        if fetched.io.Done? {
          var sum := AfterRead(fetched.disk, Pending, e.pendingSum);
          if sum.Done? && Matches(w, r, sum.value) {
            m := Some(fetched.disk);
          }
        }
      }
    }
  }

  /** What a check does: nothing to the binary before the backup is committed, and after that the
      backup is the binary it found and the new binary is a download that matched the release. */
  lemma CheckEffects(w: World, cfg: ManagerConfig, d: Disk, e: CheckEnv)
    ensures var o := AfterCheck(w, cfg, d, e);
      && (!o.committed ==>
            && SameAt(d, o.disk, Binary) && SameAt(d, o.disk, State)
            && (SameAt(d, o.disk, Backup) || (Binary in d && Backup !in o.disk && !e.backup.Atomic())))
      && (o.replaced ==> o.committed)
      && (o.result.applied ==> o.replaced)
      && (o.committed ==>
            && e.release.Some? && cfg.enabled
            && NeedsUpgrade(w, cfg, d, e.release.value, e.installedSum) == Done(true)
            && Binary in d && Backup in o.disk && o.disk[Backup] == d[Binary]
            && ((!o.replaced && SameAt(d, o.disk, Binary))
                || (!o.replaced && Binary !in o.disk && !e.install.Atomic()
                    && Pending in o.disk && Matches(w, e.release.value, o.disk[Pending]))
                || (o.replaced && Binary in o.disk && Matches(w, e.release.value, o.disk[Binary]))))
  {
    hide AfterCheck, AfterInstall, NeedsUpgrade, Matches;
    var m := VerifiedDownload(w, cfg, d, e);
    if m.Some? {
      InstallEffects(w, cfg, m.value, e.release.value, e);
    }
  }

  lemma InstallEffects(w: World, cfg: ManagerConfig, d: Disk, r: ReleaseInfo, e: CheckEnv)
    requires Pending in d
    ensures var o := AfterInstall(w, cfg, d, r, e);
      && (!o.committed ==>
            && !o.replaced && SameAt(d, o.disk, Binary) && SameAt(d, o.disk, State)
            && (SameAt(d, o.disk, Backup) || (Binary in d && Backup !in o.disk && !e.backup.Atomic())))
      && (o.result.applied ==> o.replaced)
      && (o.committed ==>
            && Binary in d && Backup in o.disk && o.disk[Backup] == d[Binary]
            && ((!o.replaced && SameAt(d, o.disk, Binary))
                || (!o.replaced && Binary !in o.disk && !e.install.Atomic() && SameAt(d, o.disk, Pending))
                || (o.replaced && Binary in o.disk && o.disk[Binary] == d[Pending])))
  {
    hide AfterCopy, AfterSaveState, AfterReplace;
    var copied := AfterCopy(d, e);
    assert SameAt(d, copied.disk, Binary) && SameAt(d, copied.disk, Pending) && SameAt(d, copied.disk, State);
    if copied.io.Done? {
      var s := UpgradeState(e.now, cfg.currentVersion, r.version, false, 0, false);
      var saved := AfterSaveState(w, copied.disk, s, e.save);
      assert SameAt(copied.disk, saved.disk, Binary) && SameAt(copied.disk, saved.disk, Pending)
             && SameAt(copied.disk, saved.disk, Backup);
    }
  }

  // ---- crash safety ------------------------------------------------------------------------

  /** Bytes that may be installed: the original ones, or ones whose checksum a release announced. */
  ghost predicate Trusted(w: World, original: Bytes, releases: set<ReleaseInfo>, data: Bytes) {
    data == original || exists r | r in releases :: Matches(w, r, data)
  }

  ghost predicate TrustedAt(w: World, original: Bytes, releases: set<ReleaseInfo>, d: Disk, p: Path) {
    p in d && Trusted(w, original, releases, d[p])
  }

  /** The binary is trusted, or it is missing and a trusted backup is left; and a backup that an
      upgrade record points to is trusted. */
  ghost predicate Recoverable(w: World, original: Bytes, releases: set<ReleaseInfo>, d: Disk) {
    && (if Binary in d then Trusted(w, original, releases, d[Binary])
        else TrustedAt(w, original, releases, d, Backup))
    && (State in d && Backup in d ==> Trusted(w, original, releases, d[Backup]))
  }

  /** The releases the calls fetched. */
  function Fetched(calls: seq<Call>): set<ReleaseInfo> {
    set c | c in calls && c.Check? && c.ce.release.Some? :: c.ce.release.value
  }

  lemma StepIsSafe(w: World, original: Bytes, releases: set<ReleaseInfo>, d: Disk, c: Call)
    requires Recoverable(w, original, releases, d)
    requires c.Check? && c.ce.release.Some? ==> c.ce.release.value in releases
    ensures Recoverable(w, original, releases, Apply(w, d, c))
    ensures Binary in d && c.Atomic() ==> Binary in Apply(w, d, c)
    // the call that loses the binary leaves the file it was about to put there
    ensures Binary in d && Binary !in Apply(w, d, c) ==>
              && !c.Shutdown?
              && TrustedAt(w, original, releases, Apply(w, d, c), if c.Check? then Pending else Backup)
  {
    match c
    case Startup(cfg, e) => if Binary in d { StartupEffects(w, cfg, d, e); }
    case Shutdown(cfg, e) => ShutdownEffects(w, cfg, d, e);
    case Check(cfg, e) => CheckEffects(w, cfg, d, e);
  }

  /** Crash safety: from a trusted installation, in every state of every run the binary is the
      original one or one that matched a fetched release; it can be missing only after a replacement
      fell back to removing it, and then the backup holds such bytes. */
  lemma CrashSafety(w: World, d: Disk, calls: seq<Call>)
    requires Binary in d && State !in d
    ensures var d' := Run(w, d, calls);
      && Recoverable(w, d[Binary], Fetched(calls), d')
      && ((forall c | c in calls :: c.Atomic()) ==> TrustedAt(w, d[Binary], Fetched(calls), d', Binary))
  {
    SafeWith(w, d, calls, Fetched(calls));
  }

  lemma {:induction false} SafeWith(w: World, d: Disk, calls: seq<Call>, releases: set<ReleaseInfo>)
    requires Binary in d && State !in d
    requires Fetched(calls) <= releases
    ensures Recoverable(w, d[Binary], releases, Run(w, d, calls))
    ensures (forall c | c in calls :: c.Atomic()) ==> Binary in Run(w, d, calls)
  {
    if calls != [] {
      var n := |calls| - 1;
      assert calls == calls[..n] + [calls[n]];
      forall r | r in Fetched(calls[..n])
        ensures r in releases
      {
        var c :| c in calls[..n] && c.Check? && c.ce.release.Some? && c.ce.release.value == r;
        assert c in calls;
      }
      SafeWith(w, d, calls[..n], releases);
      if calls[n].Check? && calls[n].ce.release.Some? {
        assert calls[n].ce.release.value in Fetched(calls);
      }
      StepIsSafe(w, d[Binary], releases, Run(w, d, calls[..n]), calls[n]);
    }
  }

  // ---- rollback ----------------------------------------------------------------------------

  /** No call of the run commits a backup. */
  predicate NoCommit(w: World, d: Disk, calls: seq<Call>) {
    calls == [] ||
    var before := calls[..|calls| - 1];
    NoCommit(w, d, before) && !Commits(w, Run(w, d, before), calls[|calls| - 1])
  }

  lemma {:induction false} BackupOnlyLeaves(w: World, d: Disk, calls: seq<Call>)
    requires NoCommit(w, d, calls)
    ensures Backup in Run(w, d, calls) ==> Backup in d && Run(w, d, calls)[Backup] == d[Backup]
  {
    if calls != [] {
      var n := |calls| - 1;
      var before := Run(w, d, calls[..n]);
      BackupOnlyLeaves(w, d, calls[..n]);
      match calls[n]
      case Startup(cfg, e) => if Binary in before { StartupEffects(w, cfg, before, e); }
      case Shutdown(cfg, e) => ShutdownEffects(w, cfg, before, e);
      case Check(cfg, e) => CheckEffects(w, cfg, before, e);
    }
  }

  /** Rollback exactness: once an upgrade has replaced the installed bytes, any later startup that
      reports a rollback or changes the bytes, with no backup committed in between, leaves exactly the
      replaced ones installed; or, killed in the fallback and so not reported, in the backup. */
  lemma RollbackRestores(w: World, d: Disk, upgrade: Call, calls: seq<Call>, start: Call)
    requires Replaces(w, d, upgrade)
    requires NoCommit(w, Apply(w, d, upgrade), calls)
    requires Reverts(w, Run(w, Apply(w, d, upgrade), calls), start)
    ensures Binary in d
    ensures var before := Run(w, Apply(w, d, upgrade), calls);
      var d' := Apply(w, before, start);
      if Binary in d' then d'[Binary] == d[Binary] && Backup !in d'
      else !RollsBack(w, before, start) && !start.Atomic() && Backup in d' && d'[Backup] == d[Binary]
  {
    hide AfterCheck, AfterStartup, Run, NoCommit;
    CheckEffects(w, upgrade.cfg, d, upgrade.ce);
    BackupOnlyLeaves(w, Apply(w, d, upgrade), calls);
    StartupEffects(w, start.cfg, Run(w, Apply(w, d, upgrade), calls), start.se);
  }

  /** Until the next backup is committed, nothing but the new bytes or the replaced ones is ever
      installed, and the binary is missing only while the replaced bytes are in the backup. */
  lemma {:induction false} OnlyOldOrNew(w: World, d: Disk, upgrade: Call, calls: seq<Call>)
    requires Replaces(w, d, upgrade)
    requires NoCommit(w, Apply(w, d, upgrade), calls)
    ensures Binary in d && Binary in Apply(w, d, upgrade)
    ensures var d' := Run(w, Apply(w, d, upgrade), calls);
      if Binary in d' then d'[Binary] == Apply(w, d, upgrade)[Binary] || d'[Binary] == d[Binary]
      else Backup in d' && d'[Backup] == d[Binary]
  {
    hide AfterCheck, AfterStartup, AfterShutdown;
    CheckEffects(w, upgrade.cfg, d, upgrade.ce);
    if calls != [] {
      var n := |calls| - 1;
      var before := Run(w, Apply(w, d, upgrade), calls[..n]);
      OnlyOldOrNew(w, d, upgrade, calls[..n]);
      BackupOnlyLeaves(w, Apply(w, d, upgrade), calls[..n]);
      match calls[n]
      case Startup(cfg, e) => if Binary in before { StartupEffects(w, cfg, before, e); }
      case Shutdown(cfg, e) => ShutdownEffects(w, cfg, before, e);
      case Check(cfg, e) => CheckEffects(w, cfg, before, e);
    }
  }

  /** The backup, if any, is the installed binary, so rolling back changes nothing. */
  predicate BackupIsBinary(d: Disk, o: Bytes) {
    (Binary in d ==> d[Binary] == o) && (Backup in d ==> d[Backup] == o)
  }

  lemma {:induction false} NothingToRollBack(w: World, d: Disk, o: Bytes, calls: seq<Call>)
    requires BackupIsBinary(d, o)
    requires NoCommit(w, d, calls)
    ensures BackupIsBinary(Run(w, d, calls), o)
    ensures Binary in d && (forall c | c in calls :: c.Atomic()) ==> Binary in Run(w, d, calls)
  {
    if calls != [] {
      var n := |calls| - 1;
      var before := Run(w, d, calls[..n]);
      assert calls[n] in calls && forall c | c in calls[..n] :: c in calls;
      NothingToRollBack(w, d, o, calls[..n]);
      match calls[n]
      case Startup(cfg, e) => if Binary in before { StartupEffects(w, cfg, before, e); }
      case Shutdown(cfg, e) => ShutdownEffects(w, cfg, before, e);
      case Check(cfg, e) => CheckEffects(w, cfg, before, e);
    }
  }

  /** An upgrade cut between committing the backup and placing the new binary is harmless: with
      atomic renames no later call without a new commit changes the installed bytes, whatever the
      versions on record say. */
  lemma InterruptedUpgradeIsHarmless(w: World, d: Disk, upgrade: Call, calls: seq<Call>)
    requires Commits(w, d, upgrade) && !Replaces(w, d, upgrade) && upgrade.Atomic()
    requires NoCommit(w, Apply(w, d, upgrade), calls)
    requires forall c | c in calls :: c.Atomic()
    ensures Binary in d
    ensures var d' := Run(w, Apply(w, d, upgrade), calls);
      Binary in d' && d'[Binary] == d[Binary]
  {
    CheckEffects(w, upgrade.cfg, d, upgrade.ce);
    NothingToRollBack(w, Apply(w, d, upgrade), d[Binary], calls);
  }

  /** What a startup finds when it can no longer change the installed bytes. */
  predicate NothingLeft(d: Disk) {
    Backup !in d || Binary !in d
  }

  lemma {:induction false} NothingIsLeft(w: World, d: Disk, calls: seq<Call>)
    requires NothingLeft(d) && NoCommit(w, d, calls)
    ensures NothingLeft(Run(w, d, calls))
  {
    hide AfterCheck, AfterStartup, AfterShutdown;
    if calls != [] {
      var n := |calls| - 1;
      var before := Run(w, d, calls[..n]);
      NothingIsLeft(w, d, calls[..n]);
      match calls[n]
      case Startup(cfg, e) => if Binary in before { StartupEffects(w, cfg, before, e); }
      case Shutdown(cfg, e) => ShutdownEffects(w, cfg, before, e);
      case Check(cfg, e) => CheckEffects(w, cfg, before, e);
    }
  }

  /** Two startups that revert, reported or not, are separated by a backup committed in between. */
  lemma RollbacksNeedCommits(w: World, d: Disk, first: Call, calls: seq<Call>, second: Call)
    requires Reverts(w, d, first)
    requires Reverts(w, Run(w, Apply(w, d, first), calls), second)
    ensures !NoCommit(w, Apply(w, d, first), calls)
  {
    hide AfterStartup, Run, NoCommit;
    var between := Run(w, Apply(w, d, first), calls);
    StartupEffects(w, first.cfg, d, first.se);
    if NoCommit(w, Apply(w, d, first), calls) {
      NothingIsLeft(w, Apply(w, d, first), calls);
      if Binary in between {
        StartupEffects(w, second.cfg, between, second.se);
      }
      assert false;
    }
  }
}
