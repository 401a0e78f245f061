/** The files the upgrade protocol works on, one atomic operation at a time.

    Every operation takes a fault that says what the operating system does with it. A fault may
    make it fail, or kill the process: a write can be cut anywhere, while a rename or a removal
    happens whole or not at all. */
module FileSystem {

  newtype byte = x: int | 0 <= x < 256
  type Bytes = seq<byte>

  /** The installed binary, its `.new` and `.bak` neighbours, upgrade.json, and the `.tmp` of each. */
  datatype Path = Binary | Pending | PendingTmp | Backup | BackupTmp | State | StateTmp

  type Disk = map<Path, Bytes>

  datatype Cause = ENOENT | EEXIST | ENOTEMPTY | EISDIR | ENOTDIR | EPERM | OtherCause

  /** How an operation ended. `Crash` means the process is gone. */
  datatype Io<+T> = Done(value: T) | Error(cause: Cause) | Crash

  /** A failure other than the file being absent, which the disk itself decides. */
  type HardCause = c: Cause | c != ENOENT witness EPERM

  datatype Fault = Works | Fails(cause: HardCause) | Crashes

  datatype WriteFault =
    | Written
    | NotOpened(cause: Cause)
    | Torn(length: nat)           // an error after some bytes
    | Cut(length: nat)            // a crash after some bytes
    | CutBefore                   // a crash before the file is opened

  datatype Outcome<+T> = Outcome(disk: Disk, io: Io<T>)

  /** The file at `p` is the same in both disks. */
  predicate SameAt(d: Disk, d': Disk, p: Path) {
    (p in d <==> p in d') && (p in d ==> d[p] == d'[p])
  }

  function AfterRead(d: Disk, p: Path, f: Fault): Io<Bytes> {
    match f
    case Works => if p in d then Done(d[p]) else Error(ENOENT)
    case Fails(cause) => Error(if p in d then cause else ENOENT)
    case Crashes => Crash
  }

  function AfterRemove(d: Disk, p: Path, f: Fault): Outcome<()> {
    match f
    case Works => if p in d then Outcome(d - {p}, Done(())) else Outcome(d, Error(ENOENT))
    case Fails(cause) => Outcome(d, Error(if p in d then cause else ENOENT))
    case Crashes => Outcome(d, Crash)
  }

  function AfterRename(d: Disk, src: Path, dst: Path, f: Fault): Outcome<()>
    requires src != dst
  {
    match f
    case Works =>
      if src in d then Outcome(d[dst := d[src]] - {src}, Done(())) else Outcome(d, Error(ENOENT))
    case Fails(cause) => Outcome(d, Error(if src in d then cause else ENOENT))
    case Crashes => Outcome(d, Crash)
  }

  function Prefix(data: Bytes, length: nat): Bytes {
    if length <= |data| then data[..length] else data
  }

  function AfterWrite(d: Disk, p: Path, data: Bytes, f: WriteFault): Outcome<()> {
    match f
    case Written => Outcome(d[p := data], Done(()))
    case NotOpened(cause) => Outcome(d, Error(cause))
    case Torn(length) => Outcome(d[p := Prefix(data, length)], Error(OtherCause))
    case Cut(length) => Outcome(d[p := Prefix(data, length)], Crash)
    case CutBefore => Outcome(d, Crash)
  }

  class Files {
    var disk: Disk

    constructor (disk: Disk)
      ensures this.disk == disk
    {
      this.disk := disk;
    }

    method ReadFile(p: Path, f: Fault) returns (io: Io<Bytes>)
      ensures io == AfterRead(disk, p, f)
    {
      match f
      case Works => io := if p in disk then Done(disk[p]) else Error(ENOENT);
      case Fails(cause) => io := Error(if p in disk then cause else ENOENT);
      case Crashes => io := Crash;
    }

    method Remove(p: Path, f: Fault) returns (io: Io<()>)
      modifies this
      ensures Outcome(disk, io) == AfterRemove(old(disk), p, f)
    {
      io := Crash;
      if p !in disk && !f.Crashes? {
        io := Error(ENOENT);
      } else if f.Fails? {
        io := Error(f.cause);
      } else if f.Works? {
        disk := disk - {p};
        io := Done(());
      }
    }

    method Rename(src: Path, dst: Path, f: Fault) returns (io: Io<()>)
      requires src != dst
      modifies this
      ensures Outcome(disk, io) == AfterRename(old(disk), src, dst, f)
    {
      io := Crash;
      if src !in disk && !f.Crashes? {
        io := Error(ENOENT);
      } else if f.Fails? {
        io := Error(f.cause);
      } else if f.Works? {
        disk := disk[dst := disk[src]];
        disk := disk - {src};
        io := Done(());
      }
    }

    method WriteFile(p: Path, data: Bytes, f: WriteFault) returns (io: Io<()>)
      modifies this
      ensures Outcome(disk, io) == AfterWrite(old(disk), p, data, f)
    {
      match f
      case Written =>
        disk := disk[p := data];
        io := Done(());
      case NotOpened(cause) =>
        io := Error(cause);
      case Torn(length) =>
        disk := disk[p := Prefix(data, length)];
        io := Error(OtherCause);
      case Cut(length) =>
        disk := disk[p := Prefix(data, length)];
        io := Crash;
      case CutBefore =>
        io := Crash;
    }
  }
}
