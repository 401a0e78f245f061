/** How the version order drives upgrades, in runs where each process is started from the installed
    binary. A daemon works with the version of the bytes it was started from; the upgrade command with
    what it makes of that version. */
module UpgradeProgress {
  import opened Text
  import opened Version
  import opened FileSystem
  import opened Upgrade
  import opened UpgradeSafety

  /** The new disk has an installed binary of a lower version than the old one had. */
  predicate Lowered(w: World, d: Disk, d': Disk) {
    Binary in d && Binary in d' && Lower(w.versionOf(d'[Binary]), w.versionOf(d[Binary]))
  }

  /** What is installed is above this version. */
  predicate Stale(w: World, d: Disk, version: string) {
    Binary in d && Lower(version, w.versionOf(d[Binary]))
  }

  /** How a daemon, and the upgrade command, of this version configure the manager. */
  function DaemonConfig(version: string): ManagerConfig {
    ManagerConfig(true, version, DEFAULT_ROLLBACK_WINDOW)
  }

  function CommandConfig(version: string): ManagerConfig {
    ManagerConfig(true, NormalizeUpgradeCurrentVersion(version), DEFAULT_ROLLBACK_WINDOW)
  }

  /** Every binary that matches the release's checksum reports the release's version. */
  ghost predicate Honest(w: World, r: ReleaseInfo) {
    forall data :: Matches(w, r, data) ==> Normalize(w.versionOf(data)) == Normalize(r.version)
  }

  ghost predicate HonestEnv(w: World, e: CheckEnv) {
    e.release.Some? ==> Honest(w, e.release.value)
  }

  lemma InstalledVersion(w: World, cfg: ManagerConfig, d: Disk, e: CheckEnv)
    requires HonestEnv(w, e) && AfterCheck(w, cfg, d, e).replaced
    ensures e.release.Some? && Binary in AfterCheck(w, cfg, d, e).disk
    ensures var v := w.versionOf(AfterCheck(w, cfg, d, e).disk[Binary]);
      Normalize(v) == Normalize(e.release.value.version)
      && (Newer(cfg.currentVersion, v) || Normalize(v) == Normalize(cfg.currentVersion))
  {
    hide AfterCheck, Matches;
    CheckEffects(w, cfg, d, e);
    NewerOfNormalForms(cfg.currentVersion, cfg.currentVersion,
                       e.release.value.version, w.versionOf(AfterCheck(w, cfg, d, e).disk[Binary]));
  }

  /** The order sees a version only through its normal form. */
  lemma LowerOfNormalForms(a: string, a': string, b: string, b': string)
    requires Normalize(a) == Normalize(a') && Normalize(b) == Normalize(b')
    ensures Lower(a, b) == Lower(a', b')
  {
    NewerOfNormalForms(a, a', b, b');
    NewerOfNormalForms(b, b', a, a');
  }

  /** A check never lowers the installed version unless the version it works with is below it. */
  lemma CheckKeepsVersion(w: World, cfg: ManagerConfig, d: Disk, e: CheckEnv)
    requires HonestEnv(w, e) && !Stale(w, d, cfg.currentVersion)
    ensures var d' := AfterCheck(w, cfg, d, e).disk; !Lowered(w, d, d') && (Binary in d' ==> Binary in d)
  {
    hide AfterCheck, Matches, NeedsUpgrade, Normalize;
    CheckEffects(w, cfg, d, e);
    var o := AfterCheck(w, cfg, d, e);
    if Binary in d && Binary in o.disk {
      var c, u, v := cfg.currentVersion, w.versionOf(d[Binary]), w.versionOf(o.disk[Binary]);
      LowerIsStrictWeakOrder(c, v, u);
      LowerIsStrictWeakOrder(u, v, u);
      if o.replaced {
        InstalledVersion(w, cfg, d, e);
        if Normalize(v) == Normalize(c) {
          LowerOfNormalForms(v, c, u, u);
        }
      }
    }
  }

  // ---- exactly when a check can lower the version ------------------------------------------

  /** An honest release of the bytes can be published under their own version. */
  ghost predicate Publishable(w: World, data: Bytes) {
    && TrimSpace(w.versionOf(data)) != ""
    && w.hash(data) != "" && Trimmed(w.hash(data))
    && Honest(w, ReleaseOf(w, data))
  }

  function ReleaseOf(w: World, data: Bytes): ReleaseInfo {
    ReleaseInfo(w.versionOf(data), "https://", w.hash(data))
  }

  const NO_FAULT := ReplaceFaults(Works, Works, Works)

  /** The endpoint announces these bytes, serves them, and every file operation succeeds. */
  function Publishes(w: World, data: Bytes): CheckEnv {
    CheckEnv(0, Some(ReleaseOf(w, data)), Works, Some(data), Written, NO_FAULT, Works,
             Works, Written, NO_FAULT, SaveFaults(Written, NO_FAULT), NO_FAULT, Works)
  }

  lemma PublishedIsMatched(w: World, data: Bytes)
    requires Publishable(w, data)
    ensures ValidRelease(ReleaseOf(w, data)) && Matches(w, ReleaseOf(w, data), data)
  {
  }

  lemma PublishedIsInstalled(w: World, cfg: ManagerConfig, d: Disk, data: Bytes)
    requires Publishable(w, data) && cfg.enabled && Binary in d
    requires NeedsUpgrade(w, cfg, d, ReleaseOf(w, data), Works) == Done(true)
    ensures var o := AfterCheck(w, cfg, d, Publishes(w, data));
      && o.replaced && o.result == CheckResult(w.versionOf(data), true) && o.io.Done?
      && Binary in o.disk && o.disk[Binary] == data
      && Backup in o.disk && o.disk[Backup] == d[Binary]
      && State in o.disk
      && o.disk[State] == w.encode(UpgradeState(0, cfg.currentVersion, w.versionOf(data), false, 0, false))
  {
    hide Matches, NeedsUpgrade, ValidRelease;
    PublishedIsMatched(w, data);
    var e := Publishes(w, data);
    var fetched := AfterDownload(d, e);
    assert fetched.io.Done? && Pending in fetched.disk && fetched.disk[Pending] == data;
    assert SameAt(d, fetched.disk, Binary);
    var copied := AfterCopy(fetched.disk, e);
    assert copied.io.Done? && SameAt(fetched.disk, copied.disk, Pending);
    var s := UpgradeState(0, cfg.currentVersion, w.versionOf(data), false, 0, false);
    var saved := AfterSaveState(w, copied.disk, s, e.save);
    assert saved.io.Done? && SameAt(copied.disk, saved.disk, Pending);
    assert SameAt(copied.disk, saved.disk, Backup);
  }

  /** The published binary is newer than the process, or of its version but of other bytes than the
      installed ones. */
  predicate Wanted(w: World, cfg: ManagerConfig, d: Disk, data: Bytes)
    requires Binary in d
  {
    || Newer(cfg.currentVersion, w.versionOf(data))
    || (Normalize(cfg.currentVersion) == Normalize(w.versionOf(data))
        && !EqualFold(w.hash(d[Binary]), w.hash(data)))
  }

  lemma NeededIffWanted(w: World, cfg: ManagerConfig, d: Disk, data: Bytes)
    requires Publishable(w, data) && Binary in d
    ensures NeedsUpgrade(w, cfg, d, ReleaseOf(w, data), Works) == Done(Wanted(w, cfg, d, data))
  {
  }

  /** What an upgrade is for: when the endpoint publishes a binary and nothing fails, it is reported as
      available exactly when it is wanted, and then installed exactly when upgrades are enabled. */
  lemma PublishedIsInstalledIff(w: World, cfg: ManagerConfig, d: Disk, data: Bytes)
    requires Publishable(w, data) && Binary in d
    ensures var o, wanted := AfterCheck(w, cfg, d, Publishes(w, data)), Wanted(w, cfg, d, data);
      && o.io.Done?
      && (o.result.applied <==> wanted && cfg.enabled)
      && o.result.availableVersion == (if wanted then w.versionOf(data) else "")
      && (o.result.applied ==> Binary in o.disk && o.disk[Binary] == data)
      && (!o.result.applied ==> o.disk == d)
  {
    PublishedIsMatched(w, data);
    NeededIffWanted(w, cfg, d, data);
    hide NeedsUpgrade, Wanted, Publishable, Matches, ValidRelease, AfterInstall, AfterDownload;
    if cfg.enabled && Wanted(w, cfg, d, data) {
      PublishedIsInstalled(w, cfg, d, data);
    }
  }

  /** A published binary lowers the installed version exactly when it is wanted and below it. */
  lemma PublishedLowersIff(w: World, cfg: ManagerConfig, d: Disk, data: Bytes)
    requires Publishable(w, data) && cfg.enabled && Binary in d
    ensures Lowered(w, d, AfterCheck(w, cfg, d, Publishes(w, data)).disk)
            <==> Wanted(w, cfg, d, data) && Lower(w.versionOf(data), w.versionOf(d[Binary]))
  {
    hide AfterCheck, Wanted, Publishable, Lower;
    PublishedIsInstalledIff(w, cfg, d, data);
    LowerIsStrictWeakOrder(w.versionOf(d[Binary]), w.versionOf(d[Binary]), w.versionOf(d[Binary]));
  }

  /** An honest endpoint can make a process lower the installed version exactly when the version it
      works with is below it: a release of that version is then enough. */
  lemma LoweredIffStale(w: World, cfg: ManagerConfig, d: Disk, image: Bytes)
    requires cfg.enabled && Publishable(w, image) && Normalize(w.versionOf(image)) == Normalize(cfg.currentVersion)
    ensures (exists e :: HonestEnv(w, e) && Lowered(w, d, AfterCheck(w, cfg, d, e).disk))
            <==> Stale(w, d, cfg.currentVersion)
  {
    hide AfterCheck, Matches, Lower, Newer, EqualFold;
    if Stale(w, d, cfg.currentVersion) {
      var u, v := w.versionOf(d[Binary]), w.versionOf(image);
      LowerOfNormalForms(v, cfg.currentVersion, u, u);
      OtherVersionOtherBytes(w, d[Binary], image);
      PublishedLowersIff(w, cfg, d, image);
      assert HonestEnv(w, Publishes(w, image));
    } else {
      forall e | HonestEnv(w, e)
        ensures !Lowered(w, d, AfterCheck(w, cfg, d, e).disk)
      {
        CheckKeepsVersion(w, cfg, d, e);
      }
    }
  }

  /** Where releases are honest, bytes of a higher version have another hash. */
  lemma OtherVersionOtherBytes(w: World, installed: Bytes, image: Bytes)
    requires Publishable(w, image) && Lower(w.versionOf(image), w.versionOf(installed))
    ensures !EqualFold(w.hash(installed), w.hash(image))
  {
    hide EqualFold, Lower;
    TrimSpaceOfTrimmed(w.hash(image));
    var u, v := w.versionOf(installed), w.versionOf(image);
    LowerIsStrictWeakOrder(v, v, v);
    if EqualFold(w.hash(installed), w.hash(image)) {
      assert Matches(w, ReleaseOf(w, image), installed);
      LowerOfNormalForms(v, v, u, v);
      assert false;
    }
  }

  /** Whoever works with the version of an applied upgrade finds nothing to do in the same release. */
  lemma SameReleaseAppliesNothing(
      w: World, cfg: ManagerConfig, d: Disk, e: CheckEnv, cfg': ManagerConfig, d': Disk, e': CheckEnv)
    requires HonestEnv(w, e) && AfterCheck(w, cfg, d, e).replaced
    requires Binary in AfterCheck(w, cfg, d, e).disk
    requires SameAt(AfterCheck(w, cfg, d, e).disk, d', Binary)
    requires Normalize(cfg'.currentVersion) == Normalize(w.versionOf(AfterCheck(w, cfg, d, e).disk[Binary]))
    requires e'.release == e.release
    ensures var o := AfterCheck(w, cfg', d', e'); o.disk == d' && o.result == NOTHING
  {
    hide Matches, Newer, AfterInstall, AfterDownload;
    CheckEffects(w, cfg, d, e) by { hide AfterCheck; }
    InstalledVersion(w, cfg, d, e) by { hide AfterCheck; }
    var r := e.release.value;
    NewerOfNormalForms(cfg'.currentVersion, r.version, r.version, r.version);
    NewerIsStrictWeakOrder(r.version, r.version, r.version);
  }

  // ---- the upgrade command -----------------------------------------------------------------

  /** The command of an installed, published binary installs it again exactly when it understates its
      version: it then does so at every call. */
  lemma CommandReappliesIff(w: World, d: Disk)
    requires Binary in d && Publishable(w, d[Binary])
    ensures AfterCheck(w, CommandConfig(w.versionOf(d[Binary])), d, Publishes(w, d[Binary])).result.applied
            <==> Understated(w.versionOf(d[Binary]))
  {
    hide AfterCheck, Publishable, Understated, Newer, NormalizeUpgradeCurrentVersion;
    PublishedIsInstalledIff(w, CommandConfig(w.versionOf(d[Binary])), d, d[Binary]);
    UnderstatedIff(w.versionOf(d[Binary]));
  }

  lemma CommandIsStaleIff(w: World, d: Disk)
    requires Binary in d
    ensures Stale(w, d, CommandConfig(w.versionOf(d[Binary])).currentVersion) <==> Understated(w.versionOf(d[Binary]))
  {
    hide Understated, Newer, Parseable;
    UnderstatedIff(w.versionOf(d[Binary]));
    CommandVersionParses(w.versionOf(d[Binary]));
  }

  /** Two binaries: the empty one, of one version, and all others, of another. */
  function TwoVersions(version: string, installed: string): World {
    World((data: Bytes) => if data == [] then "a" else "b", s => [], data => None,
          (data: Bytes) => if data == [] then version else installed)
  }

  lemma EmptyIsPublishable(version: string, installed: string)
    requires TrimSpace(version) != ""
    ensures Publishable(TwoVersions(version, installed), [])
  {
    var w := TwoVersions(version, installed);
    TrimSpaceOfTrimmed("a");
    forall data: Bytes | Matches(w, ReleaseOf(w, []), data)
      ensures data == []
    {
      assert ToLower("a")[0] == 'a' && ToLower("b")[0] == 'b';
    }
  }

  ghost predicate CommandCanLower(version: string) {
    exists w: World, d: Disk, e ::
      && Binary in d && w.versionOf(d[Binary]) == version && HonestEnv(w, e)
      && Lowered(w, d, AfterCheck(w, CommandConfig(version), d, e).disk)
  }

  /** The upgrade command of an installed binary can lower the installed version, in some world with
      honest releases, exactly when it understates its own version. */
  lemma CommandLowersIff(version: string)
    ensures CommandCanLower(version) <==> Understated(version)
  {
    hide AfterCheck, Understated, Lower, HonestEnv;
    forall w: World, d: Disk, e
      | Binary in d && w.versionOf(d[Binary]) == version && HonestEnv(w, e) && !Understated(version)
      ensures !Lowered(w, d, AfterCheck(w, CommandConfig(version), d, e).disk)
    {
      CommandIsStaleIff(w, d);
      CheckKeepsVersion(w, CommandConfig(version), d, e);
    }
    if Understated(version) {
      UnderstatedCommandLowers(version);
    }
  }

  lemma CommandVersionIsText(version: string)
    ensures TrimSpace(NormalizeUpgradeCurrentVersion(version)) != ""
  {
    var own := NormalizeUpgradeCurrentVersion(version);
    CommandVersionParses(version);
    hide NormalizeUpgradeCurrentVersion, Parse, TrimSpace;
    NormalOfNumbers(Normalize(own));
  }

  lemma UnderstatedCommandLowers(version: string)
    requires Understated(version)
    ensures CommandCanLower(version)
  {
    hide AfterCheck, Lowered, Understated, NormalizeUpgradeCurrentVersion, Stale, TrimSpace, Publishable, HonestEnv;
    var own := CommandConfig(version).currentVersion;
    var w, d: Disk := TwoVersions(own, version), map[Binary := [0]];
    CommandVersionIsText(version);
    EmptyIsPublishable(own, version);
    CommandIsStaleIff(w, d);
    LoweredIffStale(w, CommandConfig(version), d, []);
  }

  /** For example: a binary of version 2.0.0.0. */
  lemma CommandLowersFourNumbers()
    ensures CommandCanLower("2.0.0.0")
  {
    FourNumbersUnderstated();
    CommandLowersIff("2.0.0.0");
  }

  /** Command and daemon take the same decision, repairs included, on every release, disk and fault,
      exactly when they read the version alike. */
  lemma CommandDecidesIff(version: string)
    ensures (forall w: World, d: Disk, r, f ::
               NeedsUpgrade(w, CommandConfig(version), d, r, f) == NeedsUpgrade(w, DaemonConfig(version), d, r, f))
            <==> Understood(version) || Normalize(version) == ZERO_VERSION
  {
    var own := NormalizeUpgradeCurrentVersion(version);
    ReadAlikeIff(version);
    hide NormalizeUpgradeCurrentVersion, Understood, Newer, Normalize;
    if Normalize(own) == Normalize(version) {
      forall w: World, d: Disk, r, f
        ensures NeedsUpgrade(w, CommandConfig(version), d, r, f) == NeedsUpgrade(w, DaemonConfig(version), d, r, f)
      {
        NewerOfNormalForms(own, version, r.version, r.version);
      }
    } else {
      // a release of the daemon's version, with the installed bytes or with others
      var w, d: Disk := TwoVersions("", ""), map[Binary := []];
      var r := ReleaseInfo(version, "", if Newer(own, version) then "a" else "b");
      NewerIsStrictWeakOrder(version, version, version);
      TrimSpaceOfTrimmed("a");
      TrimSpaceOfTrimmed("b");
      assert ToLower("a")[0] == 'a' && ToLower("b")[0] == 'b';
      assert NeedsUpgrade(w, DaemonConfig(version), d, r, Works) == Done(!Newer(own, version));
      assert NeedsUpgrade(w, CommandConfig(version), d, r, Works) == Done(Newer(own, version));
    }
  }

  lemma ReadAlikeIff(version: string)
    ensures Normalize(NormalizeUpgradeCurrentVersion(version)) == Normalize(version)
            <==> Understood(version) || Normalize(version) == ZERO_VERSION
  {
    ZeroVersionParses();
    CommandVersionParses(version);
    if Parseable(version) {
      CommandVersionOf(version);
      NormalOfNumbers(Normalize(version));
      NormalOfNumbers(ZERO_VERSION);
    }
  }

  // ---- what becomes of an upgrade when nothing fails ---------------------------------------

  /** The record of an upgrade to `version`, and the two binaries it is about. */
  predicate Recorded(w: World, d: Disk, s: UpgradeState, old_: Bytes, new_: Bytes) {
    && State in d && d[State] == w.encode(s)
    && Binary in d && d[Binary] == new_
    && Backup in d && d[Backup] == old_
  }

  lemma FirstStartup(w: World, cfg: ManagerConfig, d: Disk, s: UpgradeState, o: Bytes, n: Bytes, e: StartupEnv)
    requires w.Lossless() && e.Clean() && Recorded(w, d, s, o, n)
    requires !s.startedOnce && Normalize(s.toVersion) == Normalize(cfg.currentVersion)
    ensures var started := s.(startedOnce := true, startedAt := e.now, cleanShutdown := false);
      AfterStartup(w, cfg, d, e).io == Done(false) && Recorded(w, AfterStartup(w, cfg, d, e).disk, started, o, n)
  {
  }

  lemma StopAfterStartup(w: World, cfg: ManagerConfig, d: Disk, s: UpgradeState, o: Bytes, n: Bytes, e: ShutdownEnv)
    requires w.Lossless() && e.Clean() && Recorded(w, d, s, o, n)
    requires s.startedOnce && !s.cleanShutdown && Normalize(s.toVersion) == Normalize(cfg.currentVersion)
    ensures Recorded(w, AfterShutdown(w, cfg, d, e).disk, s.(cleanShutdown := true), o, n)
  {
  }

  lemma SecondStartup(w: World, cfg: ManagerConfig, d: Disk, s: UpgradeState, o: Bytes, n: Bytes, e: StartupEnv)
    requires w.Lossless() && e.Clean() && Recorded(w, d, s, o, n)
    requires s.startedOnce && Normalize(s.toVersion) == Normalize(cfg.currentVersion)
    ensures var back := !s.cleanShutdown && e.now - s.startedAt < cfg.rollbackWindow;
      var r := AfterStartup(w, cfg, d, e);
      && r.io == Done(back)
      && Binary in r.disk && r.disk[Binary] == (if back then o else n)
      && State !in r.disk && Backup !in r.disk
  {
    hide Normalize, AfterReplace;
    assert w.decode(w.encode(s)) == Some(s);
  }

  /** When nothing fails, an upgrade is decided by the second startup of the new version: the old
      binary comes back exactly when the first startup was not shut down cleanly and was less than
      the window ago; otherwise the new one stays. Either way the record and the backup are gone. */
  lemma SecondStartupDecides(
      w: World, cfg: ManagerConfig, d: Disk, data: Bytes, window: int,
      first: StartupEnv, stop: Option<ShutdownEnv>, second: StartupEnv)
    requires w.Lossless() && Publishable(w, data) && cfg.enabled && Binary in d
    requires NeedsUpgrade(w, cfg, d, ReleaseOf(w, data), Works) == Done(true)
    requires first.Clean() && second.Clean() && (stop.Some? ==> stop.value.Clean())
    ensures var new_ := ManagerConfig(true, w.versionOf(data), window);
      var upgraded := AfterCheck(w, cfg, d, Publishes(w, data)).disk;
      var started := AfterStartup(w, new_, upgraded, first);
      var stopped := if stop.Some? then AfterShutdown(w, new_, started.disk, stop.value).disk else started.disk;
      var restarted := AfterStartup(w, new_, stopped, second);
      var back := stop.None? && second.now - first.now < window;
      && started.io == Done(false)
      && restarted.io == Done(back)
      && Binary in restarted.disk && restarted.disk[Binary] == (if back then d[Binary] else data)
      && State !in restarted.disk && Backup !in restarted.disk
  {
    hide AfterCheck, AfterStartup, AfterShutdown, Publishable, NeedsUpgrade;
    PublishedIsInstalled(w, cfg, d, data);
    var new_ := ManagerConfig(true, w.versionOf(data), window);
    var upgraded := AfterCheck(w, cfg, d, Publishes(w, data)).disk;
    var s := UpgradeState(0, cfg.currentVersion, w.versionOf(data), false, 0, false);
    assert Recorded(w, upgraded, s, d[Binary], data);
    FirstStartup(w, new_, upgraded, s, d[Binary], data, first);
    var started := AfterStartup(w, new_, upgraded, first).disk;
    var s1 := s.(startedOnce := true, startedAt := first.now, cleanShutdown := false);
    if stop.Some? {
      StopAfterStartup(w, new_, started, s1, d[Binary], data, stop.value);
      SecondStartup(w, new_, AfterShutdown(w, new_, started, stop.value).disk, s1.(cleanShutdown := true),
                    d[Binary], data, second);
    } else {
      SecondStartup(w, new_, started, s1, d[Binary], data, second);
    }
  }

  // ---- whole runs --------------------------------------------------------------------------

  /** The disk, and the bytes the running daemon was started from. */
  datatype Host = Host(disk: Disk, running: Option<Bytes>)

  /** `Command` is a call of the upgrade command, with or without a running daemon. The restart that
      follows it is a later stop and boot. */
  datatype Event = Boot(se: StartupEnv) | Tick(ce: CheckEnv) | Stop(de: ShutdownEnv) | Kill | Command(ce: CheckEnv)
  {
    ghost predicate Honest(w: World) {
      Tick? || Command? ==> HonestEnv(w, ce)
    }
  }

  /** A rollback and an applied upgrade end the daemon's image: the next event boots what is installed. */
  function Happen(w: World, h: Host, ev: Event): Host {
    match ev
    case Boot(e) =>
      if h.running.Some? || Binary !in h.disk then h
      else
        var o := AfterStartup(w, DaemonConfig(w.versionOf(h.disk[Binary])), h.disk, e);
        Host(o.disk, if o.io.Crash? || o.io == Done(true) then None else Some(h.disk[Binary]))
    case Tick(e) =>
      if h.running.None? then h
      else
        var o := AfterCheck(w, DaemonConfig(w.versionOf(h.running.value)), h.disk, e);
        Host(o.disk, if o.io.Crash? || o.result.applied then None else h.running)
    case Stop(e) =>
      if h.running.None? then h
      else Host(AfterShutdown(w, DaemonConfig(w.versionOf(h.running.value)), h.disk, e).disk, None)
    case Kill => h.(running := None)
    case Command(e) =>
      if Binary !in h.disk then h
      else h.(disk := AfterCheck(w, CommandConfig(w.versionOf(h.disk[Binary])), h.disk, e).disk)
  }

  function Live(w: World, h: Host, events: seq<Event>): Host {
    if events == [] then h else Happen(w, Live(w, h, events[..|events| - 1]), events[|events| - 1])
  }

  /** The event's startup moves the backup over the binary. */
  predicate PutsBack(w: World, h: Host, ev: Event) {
    && ev.Boot? && h.running.None? && Binary in h.disk
    && var l := AfterLoadState(w, h.disk, ev.se.load);
    && l.Done? && l.value.startedOnce && !l.value.cleanShutdown
    && Normalize(l.value.toVersion) == Normalize(w.versionOf(h.disk[Binary]))
    && ev.se.now - l.value.startedAt < DEFAULT_ROLLBACK_WINDOW
    && AfterReplace(h.disk, Backup, Binary, ev.se.rollback).io.Done?
  }

  /** The event is a check by a process that works with a version below the installed one. */
  predicate ChecksStale(w: World, h: Host, ev: Event) {
    || (ev.Tick? && h.running.Some? && Stale(w, h.disk, w.versionOf(h.running.value)))
    || (ev.Command? && Binary in h.disk && Understated(w.versionOf(h.disk[Binary])))
  }

  /** No event of the run is a rollback or a stale check. */
  predicate Steady(w: World, h: Host, events: seq<Event>) {
    events == [] ||
    var before, ev := events[..|events| - 1], events[|events| - 1];
    && Steady(w, h, before)
    && !PutsBack(w, Live(w, h, before), ev) && !ChecksStale(w, Live(w, h, before), ev)
  }

  lemma BootKeepsBinary(w: World, h: Host, ev: Event)
    requires ev.Boot? && !PutsBack(w, h, ev)
    ensures var h' := Happen(w, h, ev);
      Binary in h'.disk ==> Binary in h.disk && h'.disk[Binary] == h.disk[Binary]
  {
    hide Normalize, AfterForget, AfterClearState, AfterReplace;
  }

  lemma EventKeepsVersion(w: World, h: Host, ev: Event)
    requires ev.Honest(w) && !PutsBack(w, h, ev) && !ChecksStale(w, h, ev)
    ensures var h' := Happen(w, h, ev); !Lowered(w, h.disk, h'.disk) && (Binary in h'.disk ==> Binary in h.disk)
  {
    hide AfterStartup, AfterCheck, AfterShutdown, PutsBack, Understated, Lower;
    if Binary in h.disk {
      LowerIsStrictWeakOrder(w.versionOf(h.disk[Binary]), w.versionOf(h.disk[Binary]), w.versionOf(h.disk[Binary]));
    }
    match ev
    case Kill =>
    case Boot(e) => BootKeepsBinary(w, h, ev);
    case Stop(e) =>
      if h.running.Some? { ShutdownEffects(w, DaemonConfig(w.versionOf(h.running.value)), h.disk, e); }
    case Tick(e) =>
      if h.running.Some? { CheckKeepsVersion(w, DaemonConfig(w.versionOf(h.running.value)), h.disk, e); }
    case Command(e) =>
      if Binary in h.disk {
        CommandIsStaleIff(w, h.disk);
        CheckKeepsVersion(w, CommandConfig(w.versionOf(h.disk[Binary])), h.disk, e);
      }
  }

  lemma {:induction false} LiveKeepsVersion(w: World, h: Host, events: seq<Event>)
    requires Steady(w, h, events) && forall ev | ev in events :: ev.Honest(w)
    ensures var h' := Live(w, h, events);
      !Lowered(w, h.disk, h'.disk) && (Binary in h'.disk ==> Binary in h.disk)
  {
    hide Happen, PutsBack, ChecksStale, Lower;
    if events == [] {
      if Binary in h.disk {
        LowerIsStrictWeakOrder(w.versionOf(h.disk[Binary]), w.versionOf(h.disk[Binary]), w.versionOf(h.disk[Binary]));
      }
    } else {
      var before, ev := events[..|events| - 1], events[|events| - 1];
      assert ev in events && forall x | x in before :: x in events;
      LiveKeepsVersion(w, h, before);
      EventKeepsVersion(w, Live(w, h, before), ev);
      var h1, h2 := Live(w, h, before), Live(w, h, events);
      if Binary in h2.disk {
        LowerIsStrictWeakOrder(w.versionOf(h2.disk[Binary]), w.versionOf(h1.disk[Binary]), w.versionOf(h.disk[Binary]));
      }
    }
  }

  lemma {:induction false} LiveConcat(w: World, h: Host, events: seq<Event>, more: seq<Event>)
    ensures Live(w, h, events + more) == Live(w, Live(w, h, events), more)
    ensures Steady(w, h, events + more) ==> Steady(w, h, events) && Steady(w, Live(w, h, events), more)
  {
    hide Happen, PutsBack, ChecksStale;
    if more == [] {
      assert events + more == events;
    } else {
      LiveConcat(w, h, events, more[..|more| - 1]);
      assert (events + more)[..|events + more| - 1] == events + more[..|more| - 1];
    }
  }

  /** In every run of daemons and upgrade commands with honest releases, no rollback and no stale
      check, the installed version is never below what it was at any earlier moment. */
  lemma VersionsNeverDecrease(w: World, h: Host, events: seq<Event>, more: seq<Event>)
    requires Steady(w, h, events + more) && forall ev | ev in events + more :: ev.Honest(w)
    ensures !Lowered(w, Live(w, h, events).disk, Live(w, h, events + more).disk)
  {
    hide Happen, PutsBack, ChecksStale, Lower;
    LiveConcat(w, h, events, more);
    assert forall ev | ev in more :: ev in events + more;
    LiveKeepsVersion(w, Live(w, h, events), more);
  }

  /** The condition is exact for the daemon at every moment: it can be made to lower the version
      exactly when it is stale. `CommandLowersIff` says the same of the command. */
  lemma TickLowersIff(w: World, h: Host)
    requires h.running.Some? && Publishable(w, h.running.value)
    ensures (exists e :: HonestEnv(w, e) && Lowered(w, h.disk, Happen(w, h, Tick(e)).disk))
            <==> Stale(w, h.disk, w.versionOf(h.running.value))
  {
    hide AfterCheck, Lower, Stale, Publishable, HonestEnv;
    var image := h.running.value;
    var cfg := DaemonConfig(w.versionOf(image));
    LoweredIffStale(w, cfg, h.disk, image);
    forall e
      ensures Happen(w, h, Tick(e)).disk == AfterCheck(w, cfg, h.disk, e).disk
    {
    }
    if e :| HonestEnv(w, e) && Lowered(w, h.disk, AfterCheck(w, cfg, h.disk, e).disk) {
      assert Lowered(w, h.disk, Happen(w, h, Tick(e)).disk);
    }
  }

  /** A daemon that finds a wanted release gives way to it: it ends, and the next boot runs the new bytes;
      a stop and a kill end it, and a boot runs what is installed. */
  lemma UpgradeTakesEffect(w: World, image: Bytes, d: Disk, data: Bytes, boot: StartupEnv)
    requires w.Lossless() && Binary in d && Publishable(w, data) && boot.Clean()
    requires Wanted(w, DaemonConfig(w.versionOf(image)), d, data)
    ensures var ticked := Happen(w, Host(d, Some(image)), Tick(Publishes(w, data)));
      && ticked.running == None
      && Happen(w, ticked, Boot(boot)).running == Some(data)
  {
    NeededIffWanted(w, DaemonConfig(w.versionOf(image)), d, data);
    hide AfterCheck, AfterStartup, Publishable, NeedsUpgrade, Wanted;
    var cfg := DaemonConfig(w.versionOf(image));
    PublishedIsInstalled(w, cfg, d, data);
    var s := UpgradeState(0, cfg.currentVersion, w.versionOf(data), false, 0, false);
    FirstStartup(w, DaemonConfig(w.versionOf(data)), AfterCheck(w, cfg, d, Publishes(w, data)).disk, s, d[Binary], data, boot);
  }

  /** A daemon that comes back too soon gives way to the old bytes. */
  lemma RollbackTakesEffect(w: World, d: Disk, o: Bytes, n: Bytes, s: UpgradeState, boot: StartupEnv, again: StartupEnv)
    requires w.Lossless() && Recorded(w, d, s, o, n) && boot.Clean() && again.Clean()
    requires s.startedOnce && !s.cleanShutdown && Normalize(s.toVersion) == Normalize(w.versionOf(n))
    requires boot.now - s.startedAt < DEFAULT_ROLLBACK_WINDOW
    ensures var back := Happen(w, Host(d, None), Boot(boot));
      && back.running == None && Happen(w, back, Boot(again)) == Host(back.disk, Some(o))
  {
    SecondStartup(w, DaemonConfig(w.versionOf(n)), d, s, o, n, boot);
    hide Normalize;
  }

  lemma StopsAndKillsEnd(w: World, h: Host, de: ShutdownEnv)
    ensures Happen(w, h, Stop(de)).running == None && Happen(w, h, Kill) == Host(h.disk, None)
  {
  }

  // ---- where stale daemons come from -------------------------------------------------------

  /** What runs is what is installed, unless the installed binary is gone. */
  predicate Coherent(h: Host) {
    h.running.Some? && Binary in h.disk ==> h.running.value == h.disk[Binary]
  }

  /** The event can leave a daemon running beside a new binary: its own chmod failed, or a command
      replaced the binary under it. */
  predicate Leaves(w: World, h: Host, ev: Event) {
    && h.running.Some?
    && ((ev.Tick? && ev.ce.chmod.Fails?)
        || (ev.Command? && Binary in h.disk
            && AfterCheck(w, CommandConfig(w.versionOf(h.disk[Binary])), h.disk, ev.ce).replaced))
  }

  /** A startup that lets the daemon go on has left the binary alone, or lost it. */
  lemma BootStaysCoherent(w: World, h: Host, ev: Event)
    requires ev.Boot? && Coherent(h)
    ensures Coherent(Happen(w, h, ev))
  {
    hide Normalize, AfterForget, AfterClearState, AfterReplace;
  }

  lemma EventKeepsCoherent(w: World, h: Host, ev: Event)
    requires Coherent(h) && !Leaves(w, h, ev)
    ensures Coherent(Happen(w, h, ev))
  {
    hide AfterStartup, AfterCheck, AfterShutdown;
    match ev
    case Kill =>
    case Stop(e) =>
    case Boot(e) => BootStaysCoherent(w, h, ev);
    case Tick(e) =>
      if h.running.Some? {
        var cfg := DaemonConfig(w.versionOf(h.running.value));
        CheckEffects(w, cfg, h.disk, e);
        if AfterCheck(w, cfg, h.disk, e).replaced {
          ReplacingEndsImage(w, cfg, h.disk, e);
        }
      }
    case Command(e) =>
      if Binary in h.disk { CheckEffects(w, CommandConfig(w.versionOf(h.disk[Binary])), h.disk, e); }
  }

  /** No failed chmod, no command that replaces the binary under a daemon, and no command that
      understates its version. */
  predicate Orderly(w: World, h: Host, events: seq<Event>) {
    events == [] ||
    var before, ev := Live(w, h, events[..|events| - 1]), events[|events| - 1];
    && Orderly(w, h, events[..|events| - 1])
    && !Leaves(w, before, ev)
    && (ev.Command? && Binary in before.disk ==> !Understated(w.versionOf(before.disk[Binary])))
  }

  predicate NeverStale(w: World, h: Host, events: seq<Event>) {
    events == [] ||
    var before := events[..|events| - 1];
    NeverStale(w, h, before) && !ChecksStale(w, Live(w, h, before), events[|events| - 1])
  }

  predicate NeverPutsBack(w: World, h: Host, events: seq<Event>) {
    events == [] ||
    var before := events[..|events| - 1];
    NeverPutsBack(w, h, before) && !PutsBack(w, Live(w, h, before), events[|events| - 1])
  }

  /** Those are the only sources of stale checks: without them, and started from a process that runs
      the installed binary, no run has one, with any rollbacks in it. */
  lemma {:induction false} OrderlyIsNeverStale(w: World, h: Host, events: seq<Event>)
    requires Coherent(h) && Orderly(w, h, events)
    ensures NeverStale(w, h, events) && Coherent(Live(w, h, events))
  {
    hide Happen, Leaves, Understated, Lower;
    if events != [] {
      var before, ev := Live(w, h, events[..|events| - 1]), events[|events| - 1];
      OrderlyIsNeverStale(w, h, events[..|events| - 1]);
      EventKeepsCoherent(w, before, ev);
      if Binary in before.disk {
        var v := w.versionOf(before.disk[Binary]);
        LowerIsStrictWeakOrder(v, v, v);
      }
    }
  }

  lemma {:induction false} SteadyIff(w: World, h: Host, events: seq<Event>)
    ensures Steady(w, h, events) <==> NeverStale(w, h, events) && NeverPutsBack(w, h, events)
  {
    hide Happen, PutsBack, ChecksStale;
    if events != [] {
      SteadyIff(w, h, events[..|events| - 1]);
    }
  }

  /** So such a run without rollbacks is steady, and its versions never decrease. */
  lemma OrderlyIsSteady(w: World, h: Host, events: seq<Event>)
    requires Coherent(h) && Orderly(w, h, events) && NeverPutsBack(w, h, events)
    ensures Steady(w, h, events)
  {
    hide Orderly, NeverStale, NeverPutsBack, Steady;
    OrderlyIsNeverStale(w, h, events);
    SteadyIff(w, h, events);
  }

  lemma ReplacingEndsImage(w: World, cfg: ManagerConfig, d: Disk, e: CheckEnv)
    requires !e.chmod.Fails? && AfterCheck(w, cfg, d, e).replaced
    ensures var o := AfterCheck(w, cfg, d, e); o.io.Crash? || o.result.applied
  {
    hide NeedsUpgrade, Matches, AfterDownload, AfterCopy, AfterSaveState, AfterReplace;
  }

  lemma HigherReleaseLeavesStale(w: World, cfg: ManagerConfig, d: Disk, e: CheckEnv, version: string)
    requires HonestEnv(w, e) && e.release.Some? && Lower(version, e.release.value.version)
    requires AfterCheck(w, cfg, d, e).replaced
    ensures Stale(w, AfterCheck(w, cfg, d, e).disk, version)
  {
    hide AfterCheck, Lower, Newer, Normalize, HonestEnv;
    InstalledVersion(w, cfg, d, e);
    LowerOfNormalForms(version, version, e.release.value.version, w.versionOf(AfterCheck(w, cfg, d, e).disk[Binary]));
  }

  /** The condition on chmod is needed: when it fails after a higher binary is in place, the daemon
      goes on and is stale. */
  lemma FailedChmodLeavesStale(w: World, h: Host, e: CheckEnv)
    requires h.running.Some? && HonestEnv(w, e) && e.chmod.Fails? && e.release.Some?
    requires Lower(w.versionOf(h.running.value), e.release.value.version)
    requires AfterCheck(w, DaemonConfig(w.versionOf(h.running.value)), h.disk, e).replaced
    ensures var h' := Happen(w, h, Tick(e));
      h'.running == h.running && Stale(w, h'.disk, w.versionOf(h.running.value))
  {
    var version := w.versionOf(h.running.value);
    var cfg := DaemonConfig(version);
    FailedChmodKeepsImage(w, cfg, h.disk, e) by { hide AfterCheck; }
    hide AfterCheck, HonestEnv, Lower, Stale;
    HigherReleaseLeavesStale(w, cfg, h.disk, e, version);
  }

  /** And then an honest release makes it lower the version. */
  lemma FailedChmodAllowsDowngrade(w: World, h: Host, e: CheckEnv)
    requires h.running.Some? && Publishable(w, h.running.value)
    requires HonestEnv(w, e) && e.chmod.Fails? && e.release.Some?
    requires Lower(w.versionOf(h.running.value), e.release.value.version)
    requires AfterCheck(w, DaemonConfig(w.versionOf(h.running.value)), h.disk, e).replaced
    ensures var h' := Happen(w, h, Tick(e));
      exists e' :: HonestEnv(w, e') && Lowered(w, h'.disk, Happen(w, h', Tick(e')).disk)
  {
    hide Happen, Lower, Publishable, HonestEnv, AfterCheck;
    FailedChmodLeavesStale(w, h, e);
    TickLowersIff(w, Happen(w, h, Tick(e)));
  }

  lemma FailedChmodKeepsImage(w: World, cfg: ManagerConfig, d: Disk, e: CheckEnv)
    requires e.chmod.Fails? && AfterCheck(w, cfg, d, e).replaced
    ensures var o := AfterCheck(w, cfg, d, e); o.io.Error? && !o.result.applied
  {
    hide NeedsUpgrade, Matches, AfterDownload, AfterCopy, AfterSaveState, AfterReplace;
  }

  /** So is the one on commands: a command that puts a higher binary in place leaves the running
      daemon stale until it is restarted. */
  lemma CommandLeavesStale(w: World, h: Host, e: CheckEnv)
    requires h.running.Some? && Binary in h.disk && HonestEnv(w, e) && e.release.Some?
    requires Lower(w.versionOf(h.running.value), e.release.value.version)
    requires AfterCheck(w, CommandConfig(w.versionOf(h.disk[Binary])), h.disk, e).replaced
    ensures var h' := Happen(w, h, Command(e));
      h'.running == h.running && Stale(w, h'.disk, w.versionOf(h.running.value))
  {
    hide AfterCheck, HonestEnv, Lower, Stale, CommandConfig;
    HigherReleaseLeavesStale(w, CommandConfig(w.versionOf(h.disk[Binary])), h.disk, e, w.versionOf(h.running.value));
  }

  lemma CommandAllowsDowngrade(w: World, h: Host, e: CheckEnv)
    requires h.running.Some? && Publishable(w, h.running.value)
    requires Binary in h.disk && HonestEnv(w, e) && e.release.Some?
    requires Lower(w.versionOf(h.running.value), e.release.value.version)
    requires AfterCheck(w, CommandConfig(w.versionOf(h.disk[Binary])), h.disk, e).replaced
    ensures var h' := Happen(w, h, Command(e));
      exists e' :: HonestEnv(w, e') && Lowered(w, h'.disk, Happen(w, h', Tick(e')).disk)
  {
    hide Happen, Lower, Publishable, HonestEnv, AfterCheck;
    CommandLeavesStale(w, h, e);
    TickLowersIff(w, Happen(w, h, Command(e)));
  }

  /** The failing inputs exist. A daemon of version 1 runs the empty binary, and a release of version 2 is
      published: a check whose chmod fails, and a command, do what the two lemmas above ask for. */
  lemma DowngradesHappen()
    ensures var w, h, e := TwoVersions("1", "2"), Host(map[Binary := []], Some([])), Publishes(TwoVersions("1", "2"), [0]);
      && Publishable(w, h.running.value) && HonestEnv(w, e) && e.release.Some?
      && Lower(w.versionOf(h.running.value), e.release.value.version)
      && AfterCheck(w, CommandConfig(w.versionOf(h.disk[Binary])), h.disk, e).replaced
      && AfterCheck(w, DaemonConfig(w.versionOf(h.running.value)), h.disk, e.(chmod := Fails(EPERM))).replaced
  {
    var w := TwoVersions("1", "2");
    var h: Host := Host(map[Binary := []], Some([]));
    var e := Publishes(w, [0]);
    OneIsBelowTwo();
    EmptyIsPublishable("1", "2");
    OtherIsPublishable("1", "2");
    hide AfterCheck, Newer, Parseable, TrimSpace, NormalizeUpgradeCurrentVersion, Normalize;
    var daemon := DaemonConfig("1");
    PublishedIsReplaced(w, daemon, h.disk, [0], Works);
    PublishedIsReplaced(w, daemon, h.disk, [0], Fails(EPERM));
    assert CommandConfig("1") == daemon;
  }

  /** However its chmod ends. */
  lemma PublishedIsReplaced(w: World, cfg: ManagerConfig, d: Disk, data: Bytes, chmod: Fault)
    requires Publishable(w, data) && cfg.enabled && Binary in d && Newer(cfg.currentVersion, w.versionOf(data))
    ensures AfterCheck(w, cfg, d, Publishes(w, data).(chmod := chmod)).replaced
  {
    NeededIffWanted(w, cfg, d, data);
    hide Matches, NeedsUpgrade, ValidRelease, Newer;
    PublishedIsMatched(w, data);
    var e := Publishes(w, data).(chmod := chmod);
    var fetched := AfterDownload(d, e);
    assert fetched.io.Done? && SameAt(d, fetched.disk, Binary);
    InstallReplaces(w, cfg, fetched.disk, e.release.value, e);
    hide AfterDownload, AfterInstall;
  }

  lemma InstallReplaces(w: World, cfg: ManagerConfig, d: Disk, r: ReleaseInfo, e: CheckEnv)
    requires Binary in d && Pending in d
    requires e.copyOpen.Works? && e.copy.Written? && e.backup.Clean() && e.save.Clean() && e.install.Clean()
    ensures AfterInstall(w, cfg, d, r, e).replaced
  {
    var copied := AfterCopy(d, e);
    assert copied.io.Done? && SameAt(d, copied.disk, Pending);
    hide AfterCopy, AfterSaveState, AfterReplace;
  }

  lemma OneIsBelowTwo()
    ensures Newer("1", "2") && NormalizeUpgradeCurrentVersion("1") == "1"
  {
    OneDigitVersion('1');
    OneDigitVersion('2');
    assert Component("1", 0) == 1 && Component("2", 0) == 2;
    OneIsUnderstood();
  }

  lemma OneIsUnderstood()
    ensures NormalizeUpgradeCurrentVersion("1") == "1"
  {
    OneDigitVersion('1');
    TrimSpaceOfTrimmed("1");
    SplitAtFirst("1", "", '.');
    assert Normalize("1") == "1" && Parse("1") != [];
    assert |Parse("1")| == 1;
    hide Parse, Split, TrimSpace, Component;
    CommandVersionOf("1");
  }

  lemma OtherIsPublishable(version: string, installed: string)
    requires TrimSpace(installed) != ""
    ensures Publishable(TwoVersions(version, installed), [0])
  {
    var w := TwoVersions(version, installed);
    TrimSpaceOfTrimmed("b");
    forall data: Bytes | Matches(w, ReleaseOf(w, [0]), data)
      ensures data != []
    {
      assert ToLower("a")[0] == 'a' && ToLower("b")[0] == 'b';
    }
  }
}
