/** What upgrade.json remembers of a run: a rollback is always justified by an earlier startup, and
    two completed startups use the record up. */
module UpgradeHistory {
  import opened Text
  import opened Version
  import opened FileSystem
  import opened Upgrade
  import opened UpgradeSafety

  predicate SameVersion(a: string, b: string) {
    Normalize(a) == Normalize(b)
  }

  /** A startup of that version that ran to its end without a rollback. */
  predicate Starts(w: World, d: Disk, c: Call, version: string) {
    && c.Startup? && SameVersion(c.cfg.currentVersion, version)
    && Binary in d && AfterStartup(w, c.cfg, d, c.se).io == Done(false)
  }

  /** A clean shutdown of that version that ran to its end. */
  predicate Stops(w: World, d: Disk, c: Call, version: string) {
    && c.Shutdown? && SameVersion(c.cfg.currentVersion, version)
    && AfterShutdown(w, c.cfg, d, c.de).io == Done(())
  }

  /** Call `i` started that version, and nothing after it stopped that version cleanly. */
  ghost predicate UncleanSince(w: World, d: Disk, calls: seq<Call>, i: nat, version: string) {
    && i < |calls|
    && Starts(w, Run(w, d, calls[..i]), calls[i], version)
    && forall k | i < k < |calls| :: !Stops(w, Run(w, d, calls[..k]), calls[k], version)
  }

  /** The record says that a version has started and not been shut down cleanly. */
  predicate Unclean(w: World, d: Disk) {
    && State in d && w.decode(d[State]).Some?
    && w.decode(d[State]).value.startedOnce && !w.decode(d[State]).value.cleanShutdown
  }

  /** An unclean record names a startup of the run, and the moment of it. */
  ghost predicate Explained(w: World, d: Disk, calls: seq<Call>) {
    var d' := Run(w, d, calls);
    Unclean(w, d') ==>
      var s := w.decode(d'[State]).value;
      exists i: nat :: UncleanSince(w, d, calls, i, s.toVersion) && calls[i].se.now == s.startedAt
  }

  lemma CheckRecord(w: World, cfg: ManagerConfig, d: Disk, e: CheckEnv)
    requires w.Lossless()
    ensures var d' := AfterCheck(w, cfg, d, e).disk; SameAt(d, d', State) || !Unclean(w, d')
  {
    hide AfterCheck, NeedsUpgrade, Matches;
    var m := VerifiedDownload(w, cfg, d, e);
    if m.Some? {
      var copied := AfterCopy(m.value, e);
      assert SameAt(m.value, copied.disk, State);
      var s := UpgradeState(e.now, cfg.currentVersion, e.release.value.version, false, 0, false);
      assert w.decode(w.encode(s)) == Some(s);
      if copied.io.Done? {
        var saved := AfterSaveState(w, copied.disk, s, e.save);
      }
    }
  }

  lemma StartupRecord(w: World, cfg: ManagerConfig, d: Disk, e: StartupEnv)
    requires w.Lossless()
    ensures var o := AfterStartup(w, cfg, d, e);
      && (o.io == Done(true) || !SameAt(d, o.disk, Binary) ==>
            && Unclean(w, d)
            && SameVersion(w.decode(d[State]).value.toVersion, cfg.currentVersion)
            && e.now - w.decode(d[State]).value.startedAt < cfg.rollbackWindow)
      && (SameAt(d, o.disk, State)
          || !Unclean(w, o.disk)
          || (o.io == Done(false)
              && SameVersion(w.decode(o.disk[State]).value.toVersion, cfg.currentVersion)
              && w.decode(o.disk[State]).value.startedAt == e.now))
  {
    hide Normalize, AfterForget, AfterClearState, AfterReplace, AfterSaveState;
    var loaded := AfterLoadState(w, d, e.load);
    if loaded.Done? {
      var started := loaded.value.(startedOnce := true, startedAt := e.now, cleanShutdown := false);
      assert w.decode(w.encode(started)) == Some(started);
      var saved := AfterSaveState(w, d, started, e.save);
    }
  }

  lemma ShutdownRecord(w: World, cfg: ManagerConfig, d: Disk, e: ShutdownEnv)
    requires w.Lossless()
    ensures var o := AfterShutdown(w, cfg, d, e);
      && (SameAt(d, o.disk, State) || !Unclean(w, o.disk))
      && (o.io.Done? && Unclean(w, d) ==>
            SameVersion(w.decode(d[State]).value.toVersion, cfg.currentVersion) ==> !Unclean(w, o.disk))
  {
  }

  /** After any call an unclean record is either the one found, and the call was no clean shutdown of
      its version, or the one the call wrote as a startup of its version. */
  lemma RecordStep(w: World, d: Disk, c: Call)
    requires w.Lossless() && Unclean(w, Apply(w, d, c))
    ensures var s := w.decode(Apply(w, d, c)[State]).value;
      || (Unclean(w, d) && w.decode(d[State]).value == s && !Stops(w, d, c, s.toVersion))
      || (Starts(w, d, c, s.toVersion) && c.se.now == s.startedAt)
  {
    match c
    case Startup(cfg, e) => if Binary in d { StartupRecord(w, cfg, d, e); }
    case Shutdown(cfg, e) => ShutdownRecord(w, cfg, d, e);
    case Check(cfg, e) => CheckRecord(w, cfg, d, e);
  }

  lemma {:induction false} RecordsAreExplained(w: World, d: Disk, calls: seq<Call>)
    requires w.Lossless() && !Unclean(w, d)
    ensures Explained(w, d, calls)
  {
    hide Apply, AfterStartup, AfterShutdown, Stops;
    if calls != [] && Unclean(w, Run(w, d, calls)) {
      var n := |calls| - 1;
      var before := Run(w, d, calls[..n]);
      RecordsAreExplained(w, d, calls[..n]);
      RecordStep(w, before, calls[n]);
      var s := w.decode(Run(w, d, calls)[State]).value;
      if Starts(w, before, calls[n], s.toVersion) && calls[n].se.now == s.startedAt {
        assert UncleanSince(w, d, calls, n, s.toVersion);
      } else {
        var i: nat :| UncleanSince(w, d, calls[..n], i, s.toVersion) && calls[..n][i].se.now == s.startedAt;
        StillUnclean(w, d, calls, i, s.toVersion);
      }
    }
  }

  /** One more call that is no clean shutdown of the version keeps it unclean. */
  lemma StillUnclean(w: World, d: Disk, calls: seq<Call>, i: nat, version: string)
    requires calls != [] && UncleanSince(w, d, calls[..|calls| - 1], i, version)
    requires !Stops(w, Run(w, d, calls[..|calls| - 1]), calls[|calls| - 1], version)
    ensures UncleanSince(w, d, calls, i, version)
  {
    hide Run, Starts, Stops;
    var n := |calls| - 1;
    forall k | 0 <= k <= n
      ensures calls[..n][..k] == calls[..k]
    {
    }
    assert forall k | 0 <= k < n :: calls[..n][k] == calls[k];
    forall k | i < k < |calls|
      ensures !Stops(w, Run(w, d, calls[..k]), calls[k], version)
    {
      if k < n {
        assert !Stops(w, Run(w, d, calls[..n][..k]), calls[..n][k], version);
      }
    }
  }

  /** A startup that reports a rollback, or changes the installed bytes and is killed before it can,
      has a reason: an earlier startup of the same version, less than the window ago by its own clock,
      with no clean shutdown of that version since. */
  lemma RollbackIsJustified(w: World, d: Disk, calls: seq<Call>, start: Call)
    requires w.Lossless() && !Unclean(w, d)
    requires Reverts(w, Run(w, d, calls), start)
    ensures exists i: nat ::
              && UncleanSince(w, d, calls, i, start.cfg.currentVersion)
              && start.se.now - calls[i].se.now < start.cfg.rollbackWindow
  {
    hide AfterStartup, AfterShutdown, Run;
    RecordsAreExplained(w, d, calls);
    StartupRecord(w, start.cfg, Run(w, d, calls), start.se);
    var s := w.decode(Run(w, d, calls)[State]).value;
    var i: nat :| UncleanSince(w, d, calls, i, s.toVersion) && calls[i].se.now == s.startedAt;
    assert UncleanSince(w, d, calls, i, start.cfg.currentVersion) by {
      forall k | i < k < |calls|
        ensures !Stops(w, Run(w, d, calls[..k]), calls[k], start.cfg.currentVersion)
      {
        assert !Stops(w, Run(w, d, calls[..k]), calls[k], s.toVersion);
      }
    }
  }

  // ---- using the record up -----------------------------------------------------------------

  /** Shutdowns without faults, and checks that install nothing. */
  predicate Quiet(w: World, d: Disk, calls: seq<Call>) {
    calls == [] ||
    var before, last := calls[..|calls| - 1], calls[|calls| - 1];
    && Quiet(w, d, before)
    && ((last.Shutdown? && last.de.Clean())
        || (last.Check? && !Commits(w, Run(w, d, before), last)))
  }

  /** There is no record, or it says that its version has started. */
  predicate NoneOrStarted(w: World, d: Disk) {
    State in d ==> w.decode(d[State]).Some? && w.decode(d[State]).value.startedOnce
  }

  lemma {:induction false} QuietKeepsRecord(w: World, d: Disk, calls: seq<Call>)
    requires w.Lossless() && NoneOrStarted(w, d) && Quiet(w, d, calls)
    ensures NoneOrStarted(w, Run(w, d, calls))
  {
    if calls != [] {
      var n := |calls| - 1;
      var before := Run(w, d, calls[..n]);
      QuietKeepsRecord(w, d, calls[..n]);
      match calls[n]
      case Startup(cfg, e) => assert false;
      case Shutdown(cfg, e) =>
        var loaded := AfterLoadState(w, before, e.load);
        if loaded.Done? {
          var stopped := loaded.value.(cleanShutdown := true);
          assert w.decode(w.encode(stopped)) == Some(stopped);
          var saved := AfterSaveState(w, before, stopped, e.save);
        }
      case Check(cfg, e) => CheckEffects(w, cfg, before, e);
    }
  }

  /** When file operations succeed, a second completed startup with no upgrade in between leaves no
      record behind, whatever versions the two startups run. */
  lemma TwoStartupsForget(w: World, d: Disk, first: Call, calls: seq<Call>, second: Call)
    requires w.Lossless()
    requires first.Startup? && first.se.Clean() && second.Startup? && second.se.Clean()
    requires AfterStartup(w, first.cfg, d, first.se).io.Done?
    requires var between := AfterStartup(w, first.cfg, d, first.se).disk;
      && Quiet(w, between, calls)
      && AfterStartup(w, second.cfg, Run(w, between, calls), second.se).io.Done?
    ensures var between := AfterStartup(w, first.cfg, d, first.se).disk;
      State !in AfterStartup(w, second.cfg, Run(w, between, calls), second.se).disk
  {
    hide Normalize, AfterForget, AfterClearState, AfterReplace, AfterSaveState;
    var between := AfterStartup(w, first.cfg, d, first.se).disk;
    StartLeavesStarted(w, first.cfg, d, first.se);
    QuietKeepsRecord(w, between, calls);
  }

  lemma StartLeavesStarted(w: World, cfg: ManagerConfig, d: Disk, e: StartupEnv)
    requires w.Lossless() && e.Clean() && AfterStartup(w, cfg, d, e).io.Done?
    ensures NoneOrStarted(w, AfterStartup(w, cfg, d, e).disk)
  {
  }
}
