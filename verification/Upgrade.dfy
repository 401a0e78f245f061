/** internal/upgrade/manager.go: the self-upgrade protocol, as programs of file operations.

    `After...` functions say what a call does to the disk for every choice of faults; the methods of
    `Manager` are the calls themselves. SHA-256, the JSON codec and the version a binary reports are
    the uninterpreted functions of `World`. */
module Upgrade {
  import opened Text
  import opened Version
  import opened FileSystem

  const DEFAULT_ROLLBACK_WINDOW: int := 10_000_000_000

  /** upgrade.json; times are in nanoseconds. */
  datatype UpgradeState = UpgradeState(
    upgradedAt: int,
    fromVersion: string,
    toVersion: string,
    startedOnce: bool,
    startedAt: int,
    cleanShutdown: bool)

  datatype World = World(
    hash: Bytes -> string,
    encode: UpgradeState -> Bytes,
    decode: Bytes -> Option<UpgradeState>,
    versionOf: Bytes -> string)
  {
    /** The codec gives back what it was given. */
    ghost predicate Lossless() {
      forall s :: decode(encode(s)) == Some(s)
    }
  }

  datatype ManagerConfig = ManagerConfig(enabled: bool, currentVersion: string, rollbackWindow: int)

  datatype ReleaseInfo = ReleaseInfo(version: string, downloadURL: string, checksumSHA256: string)

  datatype CheckResult = CheckResult(availableVersion: string, applied: bool)

  const NOTHING := CheckResult("", false)

  // ---- replacing a file --------------------------------------------------------------------

  predicate ShouldRetryReplace(cause: Cause) {
    cause in {EEXIST, ENOTEMPTY, EISDIR, ENOTDIR, EPERM}
  }

  datatype ReplaceFaults = ReplaceFaults(rename: Fault, remove: Fault, again: Fault) {
    /** The first rename does not fail in a way that makes the code remove the target. */
    predicate Atomic() {
      rename.Fails? ==> !ShouldRetryReplace(rename.cause)
    }

    predicate Clean() {
      rename.Works?
    }
  }

  function AfterReplace(d: Disk, src: Path, dst: Path, f: ReplaceFaults): (o: Outcome<()>)
    requires src != dst
    // done: moved; not done: untouched, or (fallback only) the target is gone and the source remains
    ensures o.io.Done? ==> src in d && o.disk == d[dst := d[src]] - {src}
    ensures !o.io.Done? ==> o.disk == d || (!f.Atomic() && src in d && o.disk == d - {dst})
    // it is done by the first rename, or, where that fails for one of five causes, by the second, which
    // needs the target out of the way
    ensures o.io.Done? <==>
              && src in d
              && (|| f.rename.Works?
                  || (&& f.rename.Fails? && f.rename.cause in {EEXIST, ENOTEMPTY, EISDIR, ENOTDIR, EPERM}
                      && (f.remove.Works? || (dst !in d && !f.remove.Crashes?)) && f.again.Works?))
  {
    var first := AfterRename(d, src, dst, f.rename);
    if !first.io.Error? || !ShouldRetryReplace(first.io.cause) then first
    else
      var gone := AfterRemove(first.disk, dst, f.remove);
      if gone.io.Done? || gone.io == Error(ENOENT)
      then AfterRename(gone.disk, src, dst, f.again)
      else gone
  }

  // ---- upgrade.json ------------------------------------------------------------------------

  function AfterLoadState(w: World, d: Disk, f: Fault): Io<UpgradeState> {
    match AfterRead(d, State, f)
    case Done(data) =>
      var s := w.decode(data);
      if s.Some? then Done(s.value) else Error(OtherCause)
    case Error(cause) => Error(cause)
    case Crash => Crash
  }

  datatype SaveFaults = SaveFaults(write: WriteFault, replace: ReplaceFaults) {
    predicate Clean() {
      write.Written? && replace.Clean()
    }
  }

  function AfterSaveState(w: World, d: Disk, s: UpgradeState, f: SaveFaults): (o: Outcome<()>)
    ensures forall p :: p !in {State, StateTmp} ==> SameAt(d, o.disk, p)
    ensures o.io.Done? ==> State in o.disk && o.disk[State] == w.encode(s)
    ensures !o.io.Done? ==> SameAt(d, o.disk, State) || State !in o.disk
    ensures f.Clean() ==> o.io.Done?
  {
    var tmp := AfterWrite(d, StateTmp, w.encode(s), f.write);
    if tmp.io.Done? then AfterReplace(tmp.disk, StateTmp, State, f.replace) else tmp
  }

  /** `clearState`: an absent file is no error, and callers ignore the others. */
  function AfterClearState(d: Disk, f: Fault): (o: Outcome<()>)
    ensures o.disk == d || (State in d && o.disk == d - {State})
    ensures f.Works? ==> o.io.Done? && State !in o.disk
  {
    var o := AfterRemove(d, State, f);
    if o.io == Error(ENOENT) then Outcome(o.disk, Done(())) else o
  }

  /** Clear the state, then drop the backup, ignoring failures but not a crash. */
  function AfterForget(d: Disk, clear: Fault, prune: Fault): (o: Outcome<bool>)
    ensures SameAt(d, o.disk, Binary) && o.io in {Done(false), Crash}
    ensures SameAt(d, o.disk, Backup) || Backup !in o.disk
    ensures SameAt(d, o.disk, State) || State !in o.disk
    ensures clear.Works? && prune.Works? ==> o.io.Done? && State !in o.disk
  {
    var cleared := AfterClearState(d, clear);
    if cleared.io.Crash? then Outcome(cleared.disk, Crash)
    else
      var pruned := AfterRemove(cleared.disk, Backup, prune);
      Outcome(pruned.disk, if pruned.io.Crash? then Crash else Done(false))
  }

  // ---- HandleStartup -----------------------------------------------------------------------

  datatype StartupEnv = StartupEnv(
    now: int, load: Fault, save: SaveFaults, rollback: ReplaceFaults, clear: Fault, prune: Fault)
  {
    predicate Clean() {
      load.Works? && save.Clean() && rollback.Clean() && clear.Works? && prune.Works?
    }
  }

  /** The result is whether the previous binary was put back. */
  function AfterStartup(w: World, cfg: ManagerConfig, d: Disk, e: StartupEnv): Outcome<bool> {
    match AfterLoadState(w, d, e.load)
    case Crash => Outcome(d, Crash)
    case Error(cause) => Outcome(d, if cause == ENOENT then Done(false) else Error(cause))
    case Done(s) =>
      if Normalize(s.toVersion) != Normalize(cfg.currentVersion) then
        var cleared := AfterClearState(d, e.clear);
        Outcome(cleared.disk, if cleared.io.Crash? then Crash else Done(false))
      else if !s.startedOnce then
        var started := s.(startedOnce := true, startedAt := e.now, cleanShutdown := false);
        var saved := AfterSaveState(w, d, started, e.save);
        Outcome(saved.disk,
                match saved.io case Done(_) => Done(false) case Error(cause) => Error(cause) case Crash => Crash)
      else if s.cleanShutdown then
        AfterForget(d, e.clear, e.prune)
      else if e.now - s.startedAt < cfg.rollbackWindow then
        var back := AfterReplace(d, Backup, Binary, e.rollback);
        match back.io {
          case Crash => Outcome(back.disk, Crash)
          case Error(cause) => Outcome(back.disk, Error(cause))
          case Done(_) =>
            var cleared := AfterClearState(back.disk, e.clear);
            Outcome(cleared.disk, if cleared.io.Crash? then Crash else Done(true))
        }
      else
        AfterForget(d, e.clear, e.prune)
  }

  // ---- MarkCleanShutdown -------------------------------------------------------------------

  datatype ShutdownEnv = ShutdownEnv(load: Fault, save: SaveFaults) {
    predicate Clean() {
      load.Works? && save.Clean()
    }
  }

  function AfterShutdown(w: World, cfg: ManagerConfig, d: Disk, e: ShutdownEnv): Outcome<()> {
    match AfterLoadState(w, d, e.load)
    case Crash => Outcome(d, Crash)
    case Error(cause) => Outcome(d, if cause == ENOENT then Done(()) else Error(cause))
    case Done(s) =>
      if !s.startedOnce || Normalize(s.toVersion) != Normalize(cfg.currentVersion) || s.cleanShutdown
      then Outcome(d, Done(()))
      else AfterSaveState(w, d, s.(cleanShutdown := true), e.save)
  }

  // ---- CheckAndUpgrade ---------------------------------------------------------------------

  datatype CheckEnv = CheckEnv(
    now: int,
    release: Option<ReleaseInfo>,         // what the version endpoint answered, if it did
    installedSum: Fault,                  // hashing the installed binary
    body: Option<Bytes>,                  // what the download URL served, if it did
    download: WriteFault, keep: ReplaceFaults,
    pendingSum: Fault,                    // hashing the download
    copyOpen: Fault, copy: WriteFault, backup: ReplaceFaults,
    save: SaveFaults,
    install: ReplaceFaults,
    chmod: Fault)
  {
    predicate Atomic() {
      keep.Atomic() && backup.Atomic() && save.replace.Atomic() && install.Atomic()
    }
  }

  /** `committed`: the backup was put in place. `replaced`: the new binary was put in place. */
  datatype CheckOutcome = CheckOutcome(
    disk: Disk, result: CheckResult, io: Io<()>, committed: bool, replaced: bool)

  /** `fetchLatest` refuses a payload with a blank field. */
  predicate ValidRelease(r: ReleaseInfo) {
    TrimSpace(r.version) != "" && TrimSpace(r.downloadURL) != "" && TrimSpace(r.checksumSHA256) != ""
  }

  /** The bytes hash to the checksum the release announces. */
  predicate Matches(w: World, r: ReleaseInfo, data: Bytes) {
    EqualFold(w.hash(data), TrimSpace(r.checksumSHA256))
  }

  function NeedsUpgrade(w: World, cfg: ManagerConfig, d: Disk, r: ReleaseInfo, f: Fault): Io<bool> {
    if Newer(cfg.currentVersion, r.version) then Done(true)
    else if Normalize(cfg.currentVersion) != Normalize(r.version) then Done(false)
    else
      match AfterRead(d, Binary, f)
      case Done(data) => Done(!Matches(w, r, data))
      case Error(cause) => Error(cause)
      case Crash => Crash
  }

  /** Fill `.new` from the network, through its temporary file. */
  function AfterDownload(d: Disk, e: CheckEnv): (o: Outcome<()>)
    ensures forall p :: p !in {Pending, PendingTmp} ==> SameAt(d, o.disk, p)
    ensures o.io.Done? ==> e.body.Some? && Pending in o.disk && o.disk[Pending] == e.body.value
    ensures e.body.None? ==> o.io.Error?
    ensures e.body.Some? && e.download.Written? && e.keep.Clean() ==> o.io.Done?
  {
    if e.body.None? then Outcome(d, Error(OtherCause))
    else
      var tmp := AfterWrite(d, PendingTmp, e.body.value, e.download);
      if tmp.io.Done? then AfterReplace(tmp.disk, PendingTmp, Pending, e.keep) else tmp
  }

  /** Copy the installed binary to `.bak`, through its temporary file. */
  function AfterCopy(d: Disk, e: CheckEnv): (o: Outcome<()>)
    ensures forall p :: p !in {Backup, BackupTmp} ==> SameAt(d, o.disk, p)
    ensures o.io.Done? ==> Binary in d && Backup in o.disk && o.disk[Backup] == d[Binary]
    ensures !o.io.Done? ==>
              SameAt(d, o.disk, Backup) || (!e.backup.Atomic() && Binary in d && Backup !in o.disk)
  {
    match AfterRead(d, Binary, e.copyOpen)
    case Crash => Outcome(d, Crash)
    case Error(cause) => Outcome(d, Error(cause))
    case Done(data) =>
      var tmp := AfterWrite(d, BackupTmp, data, e.copy);
      if tmp.io.Done? then AfterReplace(tmp.disk, BackupTmp, Backup, e.backup) else tmp
  }

  /** From a verified download on: back up, record, replace. */
  function AfterInstall(w: World, cfg: ManagerConfig, d: Disk, r: ReleaseInfo, e: CheckEnv): CheckOutcome {
    var found := CheckResult(r.version, false);
    var copied := AfterCopy(d, e);
    if !copied.io.Done? then CheckOutcome(copied.disk, found, copied.io, false, false)
    else
      var s := UpgradeState(e.now, cfg.currentVersion, r.version, false, 0, false);
      var saved := AfterSaveState(w, copied.disk, s, e.save);
      if !saved.io.Done? then CheckOutcome(saved.disk, found, saved.io, true, false)
      else
        var placed := AfterReplace(saved.disk, Pending, Binary, e.install);
        if !placed.io.Done? then CheckOutcome(placed.disk, found, placed.io, true, false)
        else
          match e.chmod
          case Works => CheckOutcome(placed.disk, found.(applied := true), Done(()), true, true)
          case Fails(cause) => CheckOutcome(placed.disk, found, Error(cause), true, true)
          case Crashes => CheckOutcome(placed.disk, found, Crash, true, true)
  }

  function AfterCheck(w: World, cfg: ManagerConfig, d: Disk, e: CheckEnv): CheckOutcome {
    if e.release.None? || !ValidRelease(e.release.value)
    then CheckOutcome(d, NOTHING, Error(OtherCause), false, false)
    else
      var r := e.release.value;
      match NeedsUpgrade(w, cfg, d, r, e.installedSum)
      case Crash => CheckOutcome(d, NOTHING, Crash, false, false)
      case Error(cause) => CheckOutcome(d, NOTHING, Error(cause), false, false)
      case Done(needed) =>
        if !needed then CheckOutcome(d, NOTHING, Done(()), false, false)
        else
          var found := CheckResult(r.version, false);
          if !cfg.enabled then CheckOutcome(d, found, Done(()), false, false)
          else
            var fetched := AfterDownload(d, e);
            if !fetched.io.Done? then CheckOutcome(fetched.disk, found, fetched.io, false, false)
            else
              match AfterRead(fetched.disk, Pending, e.pendingSum)
              case Crash => CheckOutcome(fetched.disk, found, Crash, false, false)
              case Error(cause) => CheckOutcome(fetched.disk, found, Error(cause), false, false)
              case Done(data) =>
                if !Matches(w, r, data)
                then CheckOutcome(fetched.disk, found, Error(OtherCause), false, false)
                else AfterInstall(w, cfg, fetched.disk, r, e)
  }

  // ---- the manager -------------------------------------------------------------------------

  class Manager {
    const world: World
    const cfg: ManagerConfig
    const files: Files

    constructor (world: World, cfg: ManagerConfig, files: Files)
      ensures this.world == world && this.files == files
      ensures this.cfg == cfg.(rollbackWindow := this.cfg.rollbackWindow)
      ensures this.cfg.rollbackWindow == if cfg.rollbackWindow > 0 then cfg.rollbackWindow else 10_000_000_000
    {
      this.world := world;
      this.files := files;
      this.cfg := if cfg.rollbackWindow <= 0 then cfg.(rollbackWindow := DEFAULT_ROLLBACK_WINDOW) else cfg;
    }

    method ReplaceFile(src: Path, dst: Path, f: ReplaceFaults) returns (io: Io<()>)
      requires src != dst
      modifies files
      ensures Outcome(files.disk, io) == AfterReplace(old(files.disk), src, dst, f)
    {
      io := files.Rename(src, dst, f.rename);
      if !io.Error? || !ShouldRetryReplace(io.cause) {
        return;
      }
      var removed := files.Remove(dst, f.remove);
      if removed.Crash? || (removed.Error? && removed.cause != ENOENT) {
        return removed;
      }
      io := files.Rename(src, dst, f.again);
    }

    method LoadState(f: Fault) returns (io: Io<UpgradeState>)
      ensures io == AfterLoadState(world, files.disk, f)
    {
      var data := files.ReadFile(State, f);
      match data
      case Done(bytes) =>
        var s := world.decode(bytes);
        io := if s.Some? then Done(s.value) else Error(OtherCause);
      case Error(cause) => io := Error(cause);
      case Crash => io := Crash;
    }

    method SaveState(s: UpgradeState, f: SaveFaults) returns (io: Io<()>)
      modifies files
      ensures Outcome(files.disk, io) == AfterSaveState(world, old(files.disk), s, f)
    {
      io := files.WriteFile(StateTmp, world.encode(s), f.write);
      if io.Done? {
        io := ReplaceFile(StateTmp, State, f.replace);
      }
    }

    method ClearState(f: Fault) returns (io: Io<()>)
      modifies files
      ensures Outcome(files.disk, io) == AfterClearState(old(files.disk), f)
    {
      io := files.Remove(State, f);
      if io == Error(ENOENT) {
        io := Done(());
      }
    }

    method HandleStartup(e: StartupEnv) returns (io: Io<bool>)
      modifies files
      ensures Outcome(files.disk, io) == AfterStartup(world, cfg, old(files.disk), e)
    {
      var loaded := LoadState(e.load);
      if loaded.Crash? {
        return Crash;
      }
      if loaded.Error? {
        return if loaded.cause == ENOENT then Done(false) else Error(loaded.cause);
      }
      var s := loaded.value;
      if Normalize(s.toVersion) != Normalize(cfg.currentVersion) {
        var cleared := ClearState(e.clear);
        return if cleared.Crash? then Crash else Done(false);
      }
      if !s.startedOnce {
        s := s.(startedOnce := true);
        s := s.(startedAt := e.now);
        s := s.(cleanShutdown := false);
        var saved := SaveState(s, e.save);
        match saved
        case Done(_) => return Done(false);
        case Error(cause) => return Error(cause);
        case Crash => return Crash;
      }
      if !s.cleanShutdown && e.now - s.startedAt < cfg.rollbackWindow {
        var back := ReplaceFile(Backup, Binary, e.rollback);
        match back
        case Error(cause) => return Error(cause);
        case Crash => return Crash;
        case Done(_) =>
          var cleared := ClearState(e.clear);
          return if cleared.Crash? then Crash else Done(true);
      }
      var cleared := ClearState(e.clear);
      if cleared.Crash? {
        return Crash;
      }
      var pruned := files.Remove(Backup, e.prune);
      return if pruned.Crash? then Crash else Done(false);
    }

    method MarkCleanShutdown(e: ShutdownEnv) returns (io: Io<()>)
      modifies files
      ensures Outcome(files.disk, io) == AfterShutdown(world, cfg, old(files.disk), e)
    {
      var loaded := LoadState(e.load);
      match loaded
      case Crash => return Crash;
      case Error(cause) => return if cause == ENOENT then Done(()) else Error(cause);
      case Done(s) =>
        if !s.startedOnce {
          return Done(());
        }
        if Normalize(s.toVersion) != Normalize(cfg.currentVersion) {
          return Done(());
        }
        if s.cleanShutdown {
          return Done(());
        }
        io := SaveState(s.(cleanShutdown := true), e.save);
    }

    method CheckNeedsUpgrade(r: ReleaseInfo, f: Fault) returns (io: Io<bool>)
      ensures io == NeedsUpgrade(world, cfg, files.disk, r, f)
    {
      var newer := IsNewerVersion(cfg.currentVersion, r.version);
      if newer {
        return Done(true);
      }
      if Normalize(cfg.currentVersion) != Normalize(r.version) {
        return Done(false);
      }
      var installed := files.ReadFile(Binary, f);
      match installed
      case Done(data) => return Done(!EqualFold(world.hash(data), TrimSpace(r.checksumSHA256)));
      case Error(cause) => return Error(cause);
      case Crash => return Crash;
    }

    method DownloadToFile(e: CheckEnv) returns (io: Io<()>)
      modifies files
      ensures Outcome(files.disk, io) == AfterDownload(old(files.disk), e)
    {
      if e.body.None? {
        return Error(OtherCause);
      }
      io := files.WriteFile(PendingTmp, e.body.value, e.download);
      if io.Done? {
        io := ReplaceFile(PendingTmp, Pending, e.keep);
      }
    }

    method CopyBinaryToBackup(e: CheckEnv) returns (io: Io<()>)
      modifies files
      ensures Outcome(files.disk, io) == AfterCopy(old(files.disk), e)
    {
      var source := files.ReadFile(Binary, e.copyOpen);
      match source
      case Crash => return Crash;
      case Error(cause) => return Error(cause);
      case Done(data) =>
        io := files.WriteFile(BackupTmp, data, e.copy);
        if io.Done? {
          io := ReplaceFile(BackupTmp, Backup, e.backup);
        }
    }

    method CheckAndUpgrade(e: CheckEnv) returns (result: CheckResult, io: Io<()>)
      modifies files
      ensures var o := AfterCheck(world, cfg, old(files.disk), e);
              files.disk == o.disk && result == o.result && io == o.io
    {
      hide Newer, EqualFold, ValidRelease, AfterDownload, AfterCopy, AfterSaveState, AfterReplace;
      result := NOTHING;
      if e.release.None? || !ValidRelease(e.release.value) {
        return NOTHING, Error(OtherCause);
      }
      var r := e.release.value;
      var needed := CheckNeedsUpgrade(r, e.installedSum);
      match needed {
        case Crash => return NOTHING, Crash;
        case Error(cause) => return NOTHING, Error(cause);
        case Done(b) =>
          if !b {
            return NOTHING, Done(());
          }
      }
      result := CheckResult(r.version, false);
      if !cfg.enabled {
        return result, Done(());
      }
      io := DownloadToFile(e);
      if !io.Done? {
        return;
      }
      var sum := files.ReadFile(Pending, e.pendingSum);
      match sum {
        case Crash => return result, Crash;
        case Error(cause) => return result, Error(cause);
        case Done(data) =>
          if !EqualFold(world.hash(data), TrimSpace(r.checksumSHA256)) {
            return result, Error(OtherCause);
          }
      }
      io := CopyBinaryToBackup(e);
      if !io.Done? {
        return;
      }
      io := SaveState(UpgradeState(e.now, cfg.currentVersion, r.version, false, 0, false), e.save);
      if !io.Done? {
        return;
      }
      io := ReplaceFile(Pending, Binary, e.install);
      if !io.Done? {
        return;
      }
      match e.chmod
      case Works => return result.(applied := true), Done(());
      case Fails(cause) => return result, Error(cause);
      case Crashes => return result, Crash;
    }
  }
}
