/** What the calls of internal/upgrade/manager.go answer, and when: the conditions are stated on the
    record, the release and the bytes, not on the steps of the calls. */
module UpgradeReports {
  import opened Text
  import opened Version
  import opened FileSystem
  import opened Upgrade
  import opened UpgradeSafety

  /** What upgrade.json says, if it is there and can be decoded. */
  function Record(w: World, d: Disk): Option<UpgradeState> {
    if State in d then w.decode(d[State]) else None
  }

  /** There is a file, but it says nothing. */
  predicate Garbled(w: World, d: Disk) {
    State in d && w.decode(d[State]).None?
  }

  predicate OfVersion(s: UpgradeState, version: string) {
    Normalize(s.toVersion) == Normalize(version)
  }

  /** A rollback is due: this version has started before, less than the window ago, and not stopped. */
  predicate Due(w: World, cfg: ManagerConfig, d: Disk, now: int) {
    match Record(w, d)
    case Some(s) =>
      OfVersion(s, cfg.currentVersion) && s.startedOnce && !s.cleanShutdown && now < s.startedAt + cfg.rollbackWindow
    case None => false
  }

  // ---- HandleStartup -----------------------------------------------------------------------

  /** Without a record there is nothing to do and nothing wrong. */
  lemma StartupWithoutRecord(w: World, cfg: ManagerConfig, d: Disk, e: StartupEnv)
    requires State !in d && !e.load.Crashes?
    ensures AfterStartup(w, cfg, d, e) == Outcome(d, Done(false))
  {
  }

  /** A record that cannot be read is an error, and nothing is touched. */
  lemma StartupUnreadable(w: World, cfg: ManagerConfig, d: Disk, e: StartupEnv)
    requires State in d && (e.load.Fails? || (e.load.Works? && Garbled(w, d)))
    ensures AfterStartup(w, cfg, d, e).disk == d && AfterStartup(w, cfg, d, e).io.Error?
  {
  }

  /** When reading, saving and the rollback's rename work, a startup is an error exactly when the record
      is garbled or a rollback is due without a backup; otherwise it says whether a rollback was due.
      That the record or the backup could not be removed is never an error. */
  lemma StartupReports(w: World, cfg: ManagerConfig, d: Disk, e: StartupEnv)
    requires e.load.Works? && e.save.Clean() && e.rollback.Clean() && !e.clear.Crashes? && !e.prune.Crashes?
    ensures var io, due := AfterStartup(w, cfg, d, e).io, Due(w, cfg, d, e.now);
      && (io.Error? <==> Garbled(w, d) || (due && Backup !in d))
      && (!io.Error? ==> io == Done(due))
  {
    hide Normalize, AfterSaveState;
  }

  /** What is left when nothing fails: a record of another version goes, and only it; the first startup is
      recorded; a rollback moves the backup over the binary and the record goes; and in the other cases
      record and backup go. */
  lemma StartupLeaves(w: World, cfg: ManagerConfig, d: Disk, e: StartupEnv)
    requires e.Clean() && Record(w, d).Some?
    ensures var s, d' := Record(w, d).value, AfterStartup(w, cfg, d, e).disk;
      if !OfVersion(s, cfg.currentVersion) then d' == d - {State}
      else if !s.startedOnce then
        && State in d' && d'[State] == w.encode(s.(startedOnce := true, startedAt := e.now, cleanShutdown := false))
        && forall p :: p !in {State, StateTmp} ==> SameAt(d, d', p)
      else if Due(w, cfg, d, e.now) then
        if Backup in d then d' == d[Binary := d[Backup]] - {Backup, State} else d' == d
      else d' == d - {State, Backup}
  {
    hide Normalize, AfterSaveState;
  }

  // ---- MarkCleanShutdown -------------------------------------------------------------------

  lemma ShutdownWithoutRecord(w: World, cfg: ManagerConfig, d: Disk, e: ShutdownEnv)
    requires State !in d && !e.load.Crashes?
    ensures AfterShutdown(w, cfg, d, e) == Outcome(d, Done(()))
  {
  }

  /** When reading and saving work, a shutdown is an error exactly when the record is garbled; it marks a
      record that says this version has started and not stopped, and leaves every other as it is. */
  lemma ShutdownReports(w: World, cfg: ManagerConfig, d: Disk, e: ShutdownEnv)
    requires e.Clean()
    ensures var o := AfterShutdown(w, cfg, d, e);
      && (o.io.Error? <==> Garbled(w, d)) && !o.io.Crash?
      && (match Record(w, d)
          case None => o.disk == d
          case Some(s) =>
            if OfVersion(s, cfg.currentVersion) && s.startedOnce && !s.cleanShutdown
            then
              && State in o.disk && o.disk[State] == w.encode(s.(cleanShutdown := true))
              && forall p :: p !in {State, StateTmp} ==> SameAt(d, o.disk, p)
            else o.disk == d)
  {
    hide Normalize, AfterSaveState;
  }

  lemma ShutdownUnreadable(w: World, cfg: ManagerConfig, d: Disk, e: ShutdownEnv)
    requires State in d && e.load.Fails?
    ensures AfterShutdown(w, cfg, d, e).disk == d && AfterShutdown(w, cfg, d, e).io.Error?
  {
  }

  // ---- CheckAndUpgrade ---------------------------------------------------------------------

  /** A release is needed exactly when it is newer, or of this version while other bytes are installed. An
      installed binary that has to be read for this and cannot be is an error. */
  lemma NeededIff(w: World, cfg: ManagerConfig, d: Disk, r: ReleaseInfo, f: Fault)
    ensures var newer, same := Newer(cfg.currentVersion, r.version), Normalize(cfg.currentVersion) == Normalize(r.version);
      var io := NeedsUpgrade(w, cfg, d, r, f);
      && (io == Done(true) <==> newer || (same && f.Works? && Binary in d && !Matches(w, r, d[Binary])))
      && (io.Error? <==> !newer && same && !f.Crashes? && (f.Fails? || Binary !in d))
      && (io.Crash? <==> !newer && same && f.Crashes?)
  {
    hide Newer, Normalize, Matches;
  }

  /** A check that says nothing went wrong had a valid release, and then it found that the release is not
      needed, or that upgrades are disabled, or it applied it: in particular a download that does not
      match the release is never a success. It names the release exactly when it is needed, and with
      upgrades disabled it touches nothing. */
  lemma CheckReports(w: World, cfg: ManagerConfig, d: Disk, e: CheckEnv)
    ensures var o := AfterCheck(w, cfg, d, e);
      var valid := e.release.Some? && ValidRelease(e.release.value);
      && (o.io.Done? <==>
            && valid && NeedsUpgrade(w, cfg, d, e.release.value, e.installedSum).Done?
            && (NeedsUpgrade(w, cfg, d, e.release.value, e.installedSum).value ==> !cfg.enabled || o.result.applied))
      && (o.result.availableVersion
          == if valid && NeedsUpgrade(w, cfg, d, e.release.value, e.installedSum) == Done(true)
             then e.release.value.version else "")
      && (o.result.applied ==> cfg.enabled && o.replaced && o.io.Done?)
      && (!cfg.enabled ==> o.disk == d)
  {
    hide NeedsUpgrade, Matches, ValidRelease, AfterDownload, AfterCopy, AfterSaveState, AfterReplace;
  }

  /** A complete download of other bytes than the release announces: an error, nothing installed, and no
      backup or record made. */
  lemma MismatchIsError(w: World, cfg: ManagerConfig, d: Disk, e: CheckEnv)
    requires e.release.Some? && ValidRelease(e.release.value) && cfg.enabled
    requires NeedsUpgrade(w, cfg, d, e.release.value, e.installedSum) == Done(true)
    requires e.body.Some? && e.download.Written? && e.keep.Clean() && e.pendingSum.Works?
    requires !Matches(w, e.release.value, e.body.value)
    ensures var o := AfterCheck(w, cfg, d, e);
      && o.io.Error? && o.result == CheckResult(e.release.value.version, false)
      && SameAt(d, o.disk, Binary) && SameAt(d, o.disk, Backup) && SameAt(d, o.disk, State)
  {
    hide NeedsUpgrade, Matches, ValidRelease;
    assert AfterDownload(d, e).io.Done?;
    hide AfterDownload;
  }

  /** Blanks around the announced checksum and the case of its letters do not matter. */
  lemma ChecksumSpelling(w: World, r: ReleaseInfo, data: Bytes, pre: string, post: string, sum: string)
    requires r.checksumSHA256 == pre + sum + post && Blank(pre) && Blank(post) && Trimmed(sum)
    ensures Matches(w, r, data) <==>
            |sum| == |w.hash(data)| && forall i | 0 <= i < |sum| :: LowerChar(sum[i]) == LowerChar(w.hash(data)[i])
  {
    TrimSpaceOf(pre, sum, post);
    hide TrimSpace, LowerChar;
    var a, b := w.hash(data), sum;
    if |a| == |b| && forall i | 0 <= i < |b| :: LowerChar(b[i]) == LowerChar(a[i]) {
      assert ToLower(a) == ToLower(b);
    }
    if ToLower(a) == ToLower(b) {
      assert forall i | 0 <= i < |b| :: ToLower(a)[i] == LowerChar(a[i]) && ToLower(b)[i] == LowerChar(b[i]);
    }
  }

  /** Each letter of one case has one of the other; every other character is only itself. */
  lemma LowerCharPairs(c: char, c': char)
    ensures LowerChar(c) == LowerChar(c') <==>
            || c == c'
            || ('a' <= c <= 'z' && c' as int == c as int - 32)
            || ('A' <= c <= 'Z' && c' as int == c as int + 32)
  {
  }

  /** A release payload is refused exactly when one of its fields is nothing but blanks. */
  lemma ValidReleaseIff(r: ReleaseInfo)
    ensures ValidRelease(r) <==> !Blank(r.version) && !Blank(r.downloadURL) && !Blank(r.checksumSHA256)
  {
    BlankIff(r.version);
    BlankIff(r.downloadURL);
    BlankIff(r.checksumSHA256);
  }
}
