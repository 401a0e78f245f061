/** internal/daemon/service.go `Run` and `Start`: who writes status.json, and what successive contents
    say.

    In the daemon the client's goroutine fires the hooks and later runs the shutdown code; a ticker and
    an upgrade goroutine publish too. All go through `statusMu`; the metrics have a mutex of their own,
    so each use of them is one step. The `Start` command that spawned the daemon writes once as well,
    through the same temporary file and without the mutex. Any step of any of them may come next, and
    any write may fail, leaving the temporary file torn or as it was. */
module Publishing {
  import opened Text
  import opened Metrics

  datatype Record = Record(running: bool, wsState: string, jobsServed: int, counters: Snapshot)

  datatype Thread = Main | Ticker | Upgrader

  /** Where a goroutine is in `updateStatus`, or, with `final`, in the last write of `Run`. The main one
      begins with a write of its own, and gives up if that fails. */
  datatype Pc = Opening | OpeningWritten | Exited
              | Idle | Wants(wsState: Option<string>, final: bool) | Locked(wsState: Option<string>, final: bool)
              | Refreshed | Renaming | Unlocking

  /** The command that spawned the daemon. `Aborting`: its write failed, and it goes on to kill the
      daemon. In the foreground there is no such command: it stays at `ToWrite`. */
  datatype ParentPc = ToWrite | ToRename | Finished | Aborting

  /** status.json.tmp. */
  datatype TmpFile = NoFile | Torn | Holds(record: Record)

  datatype State = State(
    main: Pc, ticker: Pc, upgrader: Pc, parent: ParentPc,
    holder: Option<Thread>,               // of statusMu
    returned: bool,                       // the client's Run has returned
    metrics: Counters,
    status: Record,                       // the record in memory
    tmp: TmpFile,
    published: seq<Record>)               // the successive contents of status.json that can be decoded

  /** How a write of it ends. */
  datatype WriteEnd = Whole | Part | Unopened

  datatype HookEvent = StateChange(wsState: string) | JobResult(job: Job) | Heartbeat | OtherError

  datatype Step =
    | OpensTmp(end: WriteEnd) | OpensRename(ok: bool)
    | ParentWrites(end: WriteEnd) | ParentRenames(ok: bool)
    | Hook(ev: HookEvent) | ClientReturns | MainUpdates(wsState: Option<string>) | Finalizes
    | TickerUpdates | UpgraderUpdates(wsState: Option<string>)
    | Locks(t: Thread) | Refreshes(t: Thread) | WritesTmp(t: Thread, end: WriteEnd) | Renames(t: Thread, ok: bool)
    | Unlocks(t: Thread)

  const FIRST := Record(true, "disconnected", 0, SnapshotOf(ZERO))

  const PARENTS := Record(true, "starting", 0, SnapshotOf(ZERO))

  const INITIAL := State(Opening, Idle, Idle, ToWrite, None, false, ZERO, FIRST, NoFile, [])

  function At(s: State, t: Thread): Pc {
    match t case Main => s.main case Ticker => s.ticker case Upgrader => s.upgrader
  }

  function Move(s: State, t: Thread, pc: Pc): State {
    match t case Main => s.(main := pc) case Ticker => s.(ticker := pc) case Upgrader => s.(upgrader := pc)
  }

  /** What a hook does to the metrics before it publishes. */
  function Bump(c: Counters, ev: HookEvent): Counters {
    match ev
    case StateChange(name) =>
      if name == "connected" then c.(connectAttempts := Wrap64(c.connectAttempts + 1))
      else if name == "reconnecting" then c.(reconnects := Wrap64(c.reconnects + 1))
      else c
    case JobResult(job) => AfterJob(c, job)
    case Heartbeat => c
    case OtherError => c
  }

  /** The goroutines of `Run` exist. */
  predicate Started(s: State) {
    !s.main.Opening? && !s.main.OpeningWritten? && !s.main.Exited?
  }

  predicate Enabled(s: State, step: Step) {
    match step
    case OpensTmp(_) => s.main.Opening?
    case OpensRename(_) => s.main.OpeningWritten?
    case ParentWrites(_) => s.parent.ToWrite?
    case ParentRenames(_) => s.parent.ToRename?
    case Hook(_) => s.main.Idle? && !s.returned
    case ClientReturns => s.main.Idle? && !s.returned
    case MainUpdates(_) => s.main.Idle?
    case Finalizes => s.main.Idle? && s.returned
    case TickerUpdates => s.ticker.Idle? && Started(s)
    case UpgraderUpdates(_) => s.upgrader.Idle? && Started(s)
    case Locks(t) => At(s, t).Wants? && s.holder.None?
    case Refreshes(t) => At(s, t).Locked?
    case WritesTmp(t, _) => At(s, t).Refreshed?
    case Renames(t, _) => At(s, t).Renaming?
    case Unlocks(t) => At(s, t).Unlocking?
  }

  /** A write of the temporary file. */
  function Write(s: State, r: Record, end: WriteEnd): State {
    s.(tmp := match end case Whole => Holds(r) case Part => Torn case Unopened => s.tmp)
  }

  /** It moves whatever the temporary file holds, and fails if there is none. */
  predicate CanRename(s: State, ok: bool) {
    ok && !s.tmp.NoFile?
  }

  function Rename(s: State, ok: bool): State {
    if !CanRename(s, ok) then s
    else s.(tmp := NoFile, published := if s.tmp.Holds? then s.published + [s.tmp.record] else s.published)
  }

  function Next(s: State, step: Step): State
    requires Enabled(s, step)
  {
    match step
    case OpensTmp(end) => Write(s, s.status, end).(main := if end.Whole? then OpeningWritten else Exited)
    case OpensRename(ok) => Rename(s, ok).(main := if CanRename(s, ok) then Idle else Exited)
    case ParentWrites(end) => Write(s, PARENTS, end).(parent := if end.Whole? then ToRename else Aborting)
    case ParentRenames(ok) => Rename(s, ok).(parent := if CanRename(s, ok) then Finished else Aborting)
    case Hook(ev) =>
      s.(metrics := Bump(s.metrics, ev),
         main := Wants(if ev.StateChange? then Some(ev.wsState) else None, false))
    case ClientReturns => s.(returned := true)
    case MainUpdates(wsState) => s.(main := Wants(wsState, false))
    case Finalizes => s.(main := Wants(Some("stopped"), true))
    case TickerUpdates => s.(ticker := Wants(None, false))
    case UpgraderUpdates(wsState) => s.(upgrader := Wants(wsState, false))
    case Locks(t) => Move(s, t, Locked(At(s, t).wsState, At(s, t).final)).(holder := Some(t))
    case Refreshes(t) =>
      var pc := At(s, t);
      var ws := if pc.wsState.Some? then pc.wsState.value else s.status.wsState;
      var snapshot := SnapshotOf(s.metrics);
      Move(s, t, Refreshed).(status :=
        // the last write marks the daemon stopped and does not look at the metrics again
        if pc.final then s.status.(running := false, wsState := ws)
        else s.status.(wsState := ws, counters := snapshot, jobsServed := snapshot.jobsSuccess))
    case WritesTmp(t, end) => Move(Write(s, s.status, end), t, if end.Whole? then Renaming else Unlocking)
    case Renames(t, ok) => Move(Rename(s, ok), t, Unlocking)
    case Unlocks(t) => Move(s, t, Idle).(holder := None)
  }

  predicate Allowed(steps: seq<Step>)
    decreases |steps|, 0
  {
    steps == [] ||
    var before := steps[..|steps| - 1];
    Allowed(before) && Enabled(Run(before), steps[|steps| - 1])
  }

  function Run(steps: seq<Step>): State
    requires Allowed(steps)
    decreases |steps|, 1
  {
    if steps == [] then INITIAL else Next(Run(steps[..|steps| - 1]), steps[|steps| - 1])
  }

  // ---- the invariant -----------------------------------------------------------------------

  /** No counter of `a` is above that of `b`; the average is not a counter. */
  predicate NotAbove(a: Snapshot, b: Snapshot) {
    && a.connectAttempts <= b.connectAttempts && a.reconnects <= b.reconnects
    && a.jobsSuccess <= b.jobsSuccess && a.jobsError <= b.jobsError
    && a.le100 <= b.le100 && a.le500 <= b.le500 && a.le1000 <= b.le1000 && a.gt1000 <= b.gt1000
  }

  predicate Coherent(r: Record) {
    r.jobsServed == r.counters.jobsSuccess
    == r.counters.le100 + r.counters.le500 + r.counters.le1000 + r.counters.gt1000
  }

  /** Counters that `n` hooks can have produced. */
  predicate Small(c: Counters, n: nat) {
    && 0 <= c.connectAttempts <= n && 0 <= c.reconnects <= n && 0 <= c.jobsSuccess <= n && 0 <= c.jobsError <= n
    && 0 <= c.le100 && 0 <= c.le500 && 0 <= c.le1000 && 0 <= c.gt1000
    && c.jobsSuccess == c.le100 + c.le500 + c.le1000 + c.gt1000
  }

  predicate HoldsLock(pc: Pc) {
    pc.Locked? || pc.Refreshed? || pc.Renaming? || pc.Unlocking?
  }

  /** Main has changed the metrics and not yet refreshed the record. */
  predicate Behind(s: State) {
    !s.returned && (s.main.Wants? || s.main.Locked?)
  }

  /** Records as they should follow each other, none of them above `last`. */
  predicate Increasing(published: seq<Record>, last: Snapshot) {
    && (forall i | 0 <= i < |published| :: NotAbove(published[i].counters, last))
    && (forall i, j | 0 <= i < j < |published| :: NotAbove(published[i].counters, published[j].counters))
  }

  /** Coherent, with no counter below zero. */
  predicate Sound(r: Record) {
    Coherent(r) && NotAbove(SnapshotOf(ZERO), r.counters)
  }

  predicate AllSound(published: seq<Record>) {
    forall r | r in published :: Sound(r)
  }

  /** The mutex is held by the one goroutine that is inside `updateStatus`, or by none. */
  predicate LockInvariant(s: State) {
    && (s.holder == Some(Main) <==> HoldsLock(s.main))
    && (s.holder == Some(Ticker) <==> HoldsLock(s.ticker))
    && (s.holder == Some(Upgrader) <==> HoldsLock(s.upgrader))
    && (!Started(s) ==> s.holder.None? && s.ticker.Idle? && s.upgrader.Idle? && !s.returned)
    && (s.main.Wants? && s.main.final ==> s.returned)
    && (s.main.Locked? && s.main.final ==> s.returned)
    && (s.ticker.Wants? || s.ticker.Locked? ==> !s.ticker.final)
    && (s.upgrader.Wants? || s.upgrader.Locked? ==> !s.upgrader.final)
  }

  /** A goroutine is between its write and its rename. */
  predicate InRename(s: State) {
    s.main.Renaming? || s.ticker.Renaming? || s.upgrader.Renaming? || s.main.OpeningWritten?
  }

  predicate DataInvariant(s: State, n: nat) {
    && Small(s.metrics, n)
    && Sound(s.status) && NotAbove(s.status.counters, SnapshotOf(s.metrics))
    && (!Behind(s) ==> s.status.counters == SnapshotOf(s.metrics))
    && AllSound(s.published) && (s.tmp.Holds? ==> Sound(s.tmp.record))
    // what a goroutine renames is its own record, unless the command is between its two steps
    && ((s.parent.ToWrite? || s.parent.Finished?) && InRename(s) && s.tmp.Holds? ==> s.tmp.record == s.status)
  }

  /** What the temporary file holds may follow what is published. */
  predicate OrderInvariant(s: State) {
    && Increasing(s.published, s.status.counters)
    && (s.tmp.Holds? ==>
          Increasing(s.published, s.tmp.record.counters) && NotAbove(s.tmp.record.counters, s.status.counters))
  }

  lemma JobGrows(c: Counters, j: Job, n: nat)
    requires Small(c, n) && n < MAX_INT64
    ensures Small(AfterJob(c, j), n + 1) && NotAbove(SnapshotOf(c), SnapshotOf(AfterJob(c, j)))
  {
    hide Wrap64, Quotient;
    WrapOfSmall(c.jobsSuccess + 1);
    WrapOfSmall(c.jobsError + 1);
    WrapOfSmall(c.le100 + 1);
    WrapOfSmall(c.le500 + 1);
    WrapOfSmall(c.le1000 + 1);
    WrapOfSmall(c.gt1000 + 1);
  }

  lemma BumpGrows(c: Counters, ev: HookEvent, n: nat)
    requires Small(c, n) && n < MAX_INT64
    ensures Small(Bump(c, ev), n + 1) && NotAbove(SnapshotOf(c), SnapshotOf(Bump(c, ev)))
  {
    hide Wrap64, Quotient, AfterJob;
    WrapOfSmall(c.connectAttempts + 1);
    WrapOfSmall(c.reconnects + 1);
    if ev.JobResult? {
      JobGrows(c, ev.job, n);
    }
  }

  lemma NotAboveIsOrder(a: Snapshot, b: Snapshot, c: Snapshot)
    ensures NotAbove(a, a)
    ensures NotAbove(a, b) && NotAbove(b, c) ==> NotAbove(a, c)
  {
  }

  lemma PublishKeepsIncreasing(published: seq<Record>, r: Record)
    requires Increasing(published, r.counters)
    ensures Increasing(published + [r], r.counters)
  {
    NotAboveIsOrder(r.counters, r.counters, r.counters);
  }

  lemma RaiseKeepsIncreasing(published: seq<Record>, a: Snapshot, b: Snapshot)
    requires Increasing(published, a) && NotAbove(a, b)
    ensures Increasing(published, b)
  {
  }

  lemma RefreshKeeps(r: Record, c: Counters, n: nat)
    requires Small(c, n)
    ensures Sound(r.(counters := SnapshotOf(c), jobsServed := SnapshotOf(c).jobsSuccess))
  {
  }

  lemma SoundIgnoresState(r: Record, running: bool, wsState: string)
    ensures Sound(r.(running := running, wsState := wsState)) == Sound(r)
  {
  }

  lemma FirstRecordsAreSound()
    ensures Sound(FIRST) && Sound(PARENTS)
    ensures FIRST.counters == PARENTS.counters == SnapshotOf(ZERO)
  {
  }

  lemma WriteKeepsPcs(s: State, r: Record, end: WriteEnd)
    ensures Write(s, r, end) == s.(tmp := Write(s, r, end).tmp)
  {
  }

  lemma RenameKeepsPcs(s: State, ok: bool)
    ensures Rename(s, ok) == s.(tmp := Rename(s, ok).tmp, published := Rename(s, ok).published)
  {
  }

  /** A step of the main goroutine alone, or of the command. */
  predicate Alone(step: Step) {
    step.OpensTmp? || step.OpensRename? || step.ParentWrites? || step.ParentRenames? || step.Hook?
    || step.ClientReturns? || step.MainUpdates? || step.Finalizes? || step.TickerUpdates? || step.UpgraderUpdates?
  }

  lemma StepKeepsLock(s: State, step: Step)
    requires LockInvariant(s) && Enabled(s, step)
    ensures LockInvariant(Next(s, step))
  {
    if Alone(step) {
      LoneStepKeepsLock(s, step);
    } else {
      UpdateKeepsLock(s, step);
    }
  }

  lemma LoneStepKeepsLock(s: State, step: Step)
    requires LockInvariant(s) && Enabled(s, step) && Alone(step)
    ensures LockInvariant(Next(s, step))
  {
    hide Bump, SnapshotOf, Write, Rename, CanRename;
    match step
    case OpensTmp(end) => WriteKeepsPcs(s, s.status, end);
    case ParentWrites(end) => WriteKeepsPcs(s, PARENTS, end);
    case OpensRename(ok) => RenameKeepsPcs(s, ok);
    case ParentRenames(ok) => RenameKeepsPcs(s, ok);
    case _ =>
  }

  lemma UpdateKeepsLock(s: State, step: Step)
    requires LockInvariant(s) && Enabled(s, step) && !Alone(step)
    ensures LockInvariant(Next(s, step))
  {
    hide Bump, SnapshotOf, Write, Rename, CanRename;
    match step
    case WritesTmp(t, end) => WriteKeepsPcs(s, s.status, end);
    case Renames(t, ok) => RenameKeepsPcs(s, ok);
    case _ =>
  }

  lemma StepKeepsData(s: State, step: Step, n: nat)
    requires LockInvariant(s) && DataInvariant(s, n) && Enabled(s, step) && n < MAX_INT64
    ensures DataInvariant(Next(s, step), n + 1)
  {
    assert Small(s.metrics, n + 1);
    if step.Hook? {
      HookKeepsData(s, step.ev, n);
    } else if step.Refreshes? {
      RefreshKeepsData(s, step.t, n);
    } else {
      FileStepKeepsData(s, step, n);
    }
  }

  lemma HookKeepsData(s: State, ev: HookEvent, n: nat)
    requires DataInvariant(s, n) && Enabled(s, Hook(ev)) && n < MAX_INT64
    ensures DataInvariant(Next(s, Hook(ev)), n + 1)
  {
    hide Bump, NotAbove, SnapshotOf, Sound, AllSound, Small;
    BumpGrows(s.metrics, ev, n);
    NotAboveIsOrder(s.status.counters, SnapshotOf(s.metrics), SnapshotOf(Bump(s.metrics, ev)));
  }

  lemma RefreshKeepsData(s: State, t: Thread, n: nat)
    requires LockInvariant(s) && DataInvariant(s, n) && Small(s.metrics, n + 1) && Enabled(s, Refreshes(t))
    ensures DataInvariant(Next(s, Refreshes(t)), n + 1)
  {
    hide NotAbove, SnapshotOf, Sound, AllSound, Small;
    var ws := Next(s, Refreshes(t)).status.wsState;
    RefreshKeeps(s.status.(wsState := ws), s.metrics, n);
    SoundIgnoresState(s.status, false, ws);
    NotAboveIsOrder(SnapshotOf(s.metrics), SnapshotOf(s.metrics), SnapshotOf(s.metrics));
  }

  lemma FileStepKeepsData(s: State, step: Step, n: nat)
    requires LockInvariant(s) && DataInvariant(s, n) && Small(s.metrics, n + 1)
    requires Enabled(s, step) && !step.Hook? && !step.Refreshes?
    ensures DataInvariant(Next(s, step), n + 1)
  {
    hide NotAbove, SnapshotOf, Sound, Small;
    FirstRecordsAreSound();
  }

  /** Nothing has been counted in these records. */
  predicate AllZero(published: seq<Record>) {
    forall r | r in published :: NotAbove(r.counters, SnapshotOf(ZERO))
  }

  lemma StepKeepsOrder(s: State, step: Step, n: nat)
    requires LockInvariant(s) && DataInvariant(s, n) && OrderInvariant(s) && Enabled(s, step)
    requires step == ParentWrites(Whole) ==> AllZero(s.published)
    ensures OrderInvariant(Next(s, step))
  {
    hide Increasing, Bump, NotAbove, SnapshotOf, AllZero;
    var now := s.status.counters;
    FirstRecordsAreSound();
    NotAboveIsOrder(now, now, now);
    match step
    case ParentWrites(end) => if end.Whole? { ZeroIsIncreasing(s.published); }
    case Refreshes(t) =>
      RaiseKeepsIncreasing(s.published, now, SnapshotOf(s.metrics));
      if s.tmp.Holds? {
        NotAboveIsOrder(s.tmp.record.counters, now, SnapshotOf(s.metrics));
      }
    case OpensRename(ok) => RenameKeepsOrder(s, ok);
    case ParentRenames(ok) => RenameKeepsOrder(s, ok);
    case Renames(t, ok) => RenameKeepsOrder(s, ok);
    case _ =>
  }

  lemma RenameKeepsOrder(s: State, ok: bool)
    requires OrderInvariant(s)
    ensures OrderInvariant(Rename(s, ok))
  {
    hide Increasing, NotAbove;
    if s.tmp.Holds? {
      PublishKeepsIncreasing(s.published, s.tmp.record);
      RaiseKeepsIncreasing(s.published + [s.tmp.record], s.tmp.record.counters, s.status.counters);
    }
  }

  lemma ZeroIsIncreasing(published: seq<Record>)
    requires AllZero(published) && AllSound(published)
    ensures Increasing(published, SnapshotOf(ZERO))
  {
    hide SnapshotOf;
    forall i, j | 0 <= i < j < |published|
      ensures NotAbove(published[i].counters, published[j].counters)
    {
      NotAboveIsOrder(published[i].counters, SnapshotOf(ZERO), published[j].counters);
    }
  }

  lemma StartKeepsLock()
    ensures LockInvariant(INITIAL)
  {
  }

  lemma StartKeepsData()
    ensures DataInvariant(INITIAL, 0)
  {
    FirstRecordsAreSound();
    hide Sound, SnapshotOf;
    NotAboveIsOrder(SnapshotOf(ZERO), SnapshotOf(ZERO), SnapshotOf(ZERO));
    hide NotAbove;
  }

  lemma StartKeepsOrder()
    ensures OrderInvariant(INITIAL)
  {
  }

  lemma {:induction false} RunKeepsInvariant(steps: seq<Step>)
    requires Allowed(steps) && |steps| <= MAX_INT64
    ensures LockInvariant(Run(steps)) && DataInvariant(Run(steps), |steps|)
  {
    hide LockInvariant, DataInvariant, Next, Enabled;
    StartKeepsLock();
    StartKeepsData();
    if steps != [] {
      RunKeepsInvariant(steps[..|steps| - 1]);
      StepKeepsLock(Run(steps[..|steps| - 1]), steps[|steps| - 1]);
      StepKeepsData(Run(steps[..|steps| - 1]), steps[|steps| - 1], |steps| - 1);
    }
  }

  /** Every content that status.json ever has, in every interleaving, has as many jobs served as
      successes and as many successes as its histogram holds. */
  lemma PublishedIsCoherent(steps: seq<Step>)
    requires Allowed(steps) && |steps| <= MAX_INT64
    ensures forall r | r in Run(steps).published :: Coherent(r)
  {
    hide Run, Allowed;
    RunKeepsInvariant(steps);
  }

  // ---- when contents go back ---------------------------------------------------------------

  /** If the command writes, nothing counted has been published when it does. */
  predicate ParentIsEarly(steps: seq<Step>)
    requires Allowed(steps)
  {
    steps == [] ||
    var before := steps[..|steps| - 1];
    && ParentIsEarly(before)
    && (steps[|steps| - 1] == ParentWrites(Whole) ==> AllZero(Run(before).published))
  }

  predicate NeverBack(published: seq<Record>) {
    forall i, j | 0 <= i < j < |published| :: NotAbove(published[i].counters, published[j].counters)
  }

  lemma {:induction false} EarlyKeepsOrder(steps: seq<Step>)
    requires Allowed(steps) && |steps| <= MAX_INT64 && ParentIsEarly(steps)
    ensures OrderInvariant(Run(steps))
  {
    hide OrderInvariant, LockInvariant, DataInvariant, Next, Enabled;
    StartKeepsOrder();
    if steps != [] {
      RunKeepsInvariant(steps[..|steps| - 1]);
      EarlyKeepsOrder(steps[..|steps| - 1]);
      StepKeepsOrder(Run(steps[..|steps| - 1]), steps[|steps| - 1], |steps| - 1);
    }
  }

  /** In every interleaving in which the command is early, no counter in status.json ever goes back. */
  lemma PublishedNeverDecreases(steps: seq<Step>)
    requires Allowed(steps) && |steps| <= MAX_INT64 && ParentIsEarly(steps)
    ensures NeverBack(Run(steps).published)
  {
    EarlyKeepsOrder(steps);
  }

  lemma RunThen(steps: seq<Step>, step: Step)
    requires Allowed(steps) && Enabled(Run(steps), step)
    ensures Allowed(steps + [step]) && Run(steps + [step]) == Next(Run(steps), step)
  {
    assert (steps + [step])[..|steps|] == steps;
  }

  lemma {:induction false} AllowedPrefix(steps: seq<Step>, more: seq<Step>)
    requires Allowed(steps + more)
    ensures Allowed(steps)
  {
    if more == [] {
      assert steps + more == steps;
    } else {
      assert (steps + more)[..|steps + more| - 1] == steps + more[..|more| - 1];
      AllowedPrefix(steps, more[..|more| - 1]);
    }
  }

  lemma StepStaysPast(s: State, step: Step)
    requires Enabled(s, step) && !s.parent.ToWrite?
    ensures !Next(s, step).parent.ToWrite? && !step.ParentWrites?
  {
  }

  lemma {:induction false} ParentStaysPast(steps: seq<Step>, more: seq<Step>)
    requires Allowed(steps) && Allowed(steps + more) && !Run(steps).parent.ToWrite?
    ensures !Run(steps + more).parent.ToWrite?
    ensures ParentIsEarly(steps) ==> ParentIsEarly(steps + more)
  {
    hide AllZero, Next, Enabled;
    if more == [] {
      assert steps + more == steps;
    } else {
      assert (steps + more)[..|steps + more| - 1] == steps + more[..|more| - 1];
      ParentStaysPast(steps, more[..|more| - 1]);
      StepStaysPast(Run(steps + more[..|more| - 1]), more[|more| - 1]);
    }
  }

  lemma {:induction false} EarlyBeforeWrite(steps: seq<Step>)
    requires Allowed(steps) && Run(steps).parent.ToWrite?
    ensures ParentIsEarly(steps)
  {
    hide AllZero;
    if steps != [] {
      EarlyBeforeWrite(steps[..|steps| - 1]);
    }
  }

  /** And only then: at the moment of the command's write, every continuation keeps the contents from
      going back exactly when nothing counted has been published. */
  lemma ParentWriteIsHarmlessIff(steps: seq<Step>)
    requires Allowed(steps) && Run(steps).parent.ToWrite? && |steps| + 2 <= MAX_INT64
    ensures (forall more :: Allowed(steps + [ParentWrites(Whole)] + more) && |steps| + 1 + |more| <= MAX_INT64 ==>
               NeverBack(Run(steps + [ParentWrites(Whole)] + more).published))
            <==> AllZero(Run(steps).published)
  {
    hide NeverBack, AllZero, OrderInvariant, DataInvariant, LockInvariant;
    var s := Run(steps);
    var written := steps + [ParentWrites(Whole)];
    EarlyBeforeWrite(steps);
    RunThen(steps, ParentWrites(Whole));
    if AllZero(s.published) {
      assert written[..|steps|] == steps;
      assert ParentIsEarly(written);
      forall more | Allowed(written + more) && |written + more| <= MAX_INT64
        ensures NeverBack(Run(written + more).published)
      {
        ParentStaysPast(written, more);
        PublishedNeverDecreases(written + more);
      }
    } else {
      RunThen(written, ParentRenames(true));
      assert Run(written + [ParentRenames(true)]).published == s.published + [PARENTS];
      GoesBack(s.published);
    }
  }

  lemma GoesBack(published: seq<Record>)
    requires !AllZero(published)
    ensures !NeverBack(published + [PARENTS])
  {
    FirstRecordsAreSound();
    hide NotAbove, Sound;
    var r :| r in published && !NotAbove(r.counters, SnapshotOf(ZERO));
    var i :| 0 <= i < |published| && published[i] == r;
    assert (published + [PARENTS])[i] == r && (published + [PARENTS])[|published|] == PARENTS;
  }

  /** The command is early, for example, when it writes before the first hook that counts. */
  lemma BeforeCountingIsEarly(steps: seq<Step>)
    requires Allowed(steps) && Run(steps).parent.ToWrite? && |steps| <= MAX_INT64
    requires Run(steps).metrics == ZERO
    ensures AllZero(Run(steps).published)
  {
    EarlyBeforeWrite(steps);
    EarlyKeepsOrder(steps);
    RunKeepsInvariant(steps);
    var s := Run(steps);
    hide NotAbove, Run, Allowed, SnapshotOf;
    forall r | r in s.published
      ensures NotAbove(r.counters, SnapshotOf(ZERO))
    {
      NotAboveIsOrder(r.counters, s.status.counters, SnapshotOf(ZERO));
    }
  }

  ghost predicate Reached(s: State, n: nat) {
    exists steps :: |steps| == n && Allowed(steps) && Run(steps) == s
  }

  lemma ReachedNext(s: State, n: nat, step: Step)
    requires Reached(s, n) && Enabled(s, step)
    ensures Reached(Next(s, step), n + 1)
  {
    hide Next, Enabled;
    var steps :| |steps| == n && Allowed(steps) && Run(steps) == s;
    RunThen(steps, step);
    assert |steps + [step]| == n + 1;
  }

  lemma DaemonComesUp()
    ensures Reached(INITIAL.(main := Idle, published := [FIRST]), 2)
  {
    assert Allowed([]) && Run([]) == INITIAL && Reached(INITIAL, 0);
    hide Reached, Run, Allowed;
    ReachedNext(INITIAL, 0, OpensTmp(Whole));
    ReachedNext(INITIAL.(main := OpeningWritten, tmp := Holds(FIRST)), 1, OpensRename(true));
  }

  /** An update that nothing disturbs. */
  lemma UpdateIsReached(s: State, n: nat, t: Thread)
    requires Reached(s, n) && At(s, t).Wants? && s.holder.None?
    ensures Reached(Undisturbed(s, t), n + 5)
  {
    hide Reached, SnapshotOf;
    ReachedNext(s, n, Locks(t));
    var locked := Next(s, Locks(t));
    ReachedNext(locked, n + 1, Refreshes(t));
    var refreshed := Next(locked, Refreshes(t));
    ReachedNext(refreshed, n + 2, WritesTmp(t, Whole));
    var written := Next(refreshed, WritesTmp(t, Whole));
    ReachedNext(written, n + 3, Renames(t, true));
    ReachedNext(Next(written, Renames(t, true)), n + 4, Unlocks(t));
  }

  /** The failing run: a daemon comes up, handles a job and publishes it before the command writes. */
  lemma CommandCanComeLate()
    ensures exists steps :: |steps| == 8 && Allowed(steps) && Run(steps).parent.ToWrite? && !AllZero(Run(steps).published)
  {
    hide Undisturbed, SnapshotOf;
    var up := INITIAL.(main := Idle, published := [FIRST]);
    DaemonComesUp();
    var hook := Hook(JobResult(Job(false, 0)));
    ReachedNext(up, 2, hook);
    var hooked := Next(up, hook);
    UpdateIsReached(hooked, 3, Main);
    UndisturbedState(hooked, Main);
    var s := Undisturbed(hooked, Main);
    OneErrorIsCounted(hooked.metrics);
    assert RefreshedRecord(hooked, Main) in s.published;
    var steps :| |steps| == 8 && Allowed(steps) && Run(steps) == s;
  }

  lemma OneErrorIsCounted(c: Counters)
    requires c == ZERO.(jobsError := Wrap64(1))
    ensures !NotAbove(SnapshotOf(c), SnapshotOf(ZERO))
  {
  }

  /** So without the condition contents can go back. */
  lemma ContentsCanGoBack()
    ensures exists steps :: Allowed(steps) && !NeverBack(Run(steps).published)
  {
    hide AllZero, NeverBack;
    CommandCanComeLate();
    var steps :| |steps| == 8 && Allowed(steps) && Run(steps).parent.ToWrite? && !AllZero(Run(steps).published);
    ParentWriteIsHarmlessIff(steps);
  }

  // ---- the end of a run --------------------------------------------------------------------

  /** Whenever no hook is under way, and for good once the client has returned, the record in memory
      has the counters of the metrics. */
  lemma MemoryMatchesMetrics(steps: seq<Step>)
    requires Allowed(steps) && |steps| <= MAX_INT64
    requires Run(steps).returned || Run(steps).main.Idle?
    ensures Run(steps).status.counters == SnapshotOf(Run(steps).metrics)
  {
    RunKeepsInvariant(steps);
  }

  lemma StepAfterReturn(s: State, step: Step, n: nat)
    requires LockInvariant(s) && DataInvariant(s, n) && Enabled(s, step) && s.returned
    requires s.parent.Finished? || Next(s, step).parent.ToWrite?
    ensures var s' := Next(s, step);
      && s'.returned && s'.metrics == s.metrics
      && (s.parent.Finished? ==> s'.parent.Finished?) && (s'.parent.ToWrite? ==> s.parent.ToWrite?)
      && (s'.published == s.published
          || exists r: Record :: s'.published == s.published + [r] && r.counters == SnapshotOf(s.metrics))
  {
    hide NotAbove, Sound, AllSound, Small, SnapshotOf, Bump;
    if step.Renames? && step.ok && s.tmp.Holds? {
      assert Next(s, step).published == s.published + [s.status];
    }
  }

  /** So whatever is published after the client has returned, by any of the goroutines, has them too,
      if the command has finished by then or there is none. */
  lemma {:induction false} LastRecordIsFinal(steps: seq<Step>, more: seq<Step>)
    requires Allowed(steps + more) && Allowed(steps) && |steps + more| <= MAX_INT64
    requires Run(steps).returned
    requires Run(steps).parent.Finished? || Run(steps + more).parent.ToWrite?
    ensures Run(steps + more).returned && Run(steps + more).metrics == Run(steps).metrics
    ensures Run(steps).parent.Finished? ==> Run(steps + more).parent.Finished?
    ensures |Run(steps).published| <= |Run(steps + more).published|
    ensures var p := Run(steps + more).published;
      forall k | |Run(steps).published| <= k < |p| :: p[k].counters == SnapshotOf(Run(steps).metrics)
  {
    hide LockInvariant, DataInvariant, Next, Enabled;
    if more == [] {
      assert steps + more == steps;
    } else {
      var fewer, last := steps + more[..|more| - 1], more[|more| - 1];
      assert (steps + more)[..|steps + more| - 1] == fewer;
      if Run(steps + more).parent.ToWrite? {
        StepKeepsToWrite(Run(fewer), last);
      }
      LastRecordIsFinal(steps, more[..|more| - 1]);
      RunKeepsInvariant(fewer);
      StepAfterReturn(Run(fewer), last, |fewer|);
    }
  }

  lemma StepKeepsToWrite(s: State, step: Step)
    requires Enabled(s, step) && Next(s, step).parent.ToWrite?
    ensures s.parent.ToWrite?
  {
  }

  // ---- what the metrics count --------------------------------------------------------------

  function JobsHooked(steps: seq<Step>): seq<Job> {
    if steps == [] then []
    else
      var before, last := JobsHooked(steps[..|steps| - 1]), steps[|steps| - 1];
      if last.Hook? && last.ev.JobResult? then before + [last.ev.job] else before
  }

  /** How many hooks announced this state. */
  function Announced(steps: seq<Step>, wsState: string): nat {
    if steps == [] then 0
    else Announced(steps[..|steps| - 1], wsState) + if steps[|steps| - 1] == Hook(StateChange(wsState)) then 1 else 0
  }

  /** In every run the metrics are the hooks so far: the connections and the reconnects announced, each in its
      own counter, and the jobs reported. */
  lemma {:induction false} MetricsAreHooks(steps: seq<Step>)
    requires Allowed(steps) && |steps| <= MAX_INT64
    ensures Run(steps).metrics == AfterJobs(ZERO, JobsHooked(steps))
                                  .(connectAttempts := Announced(steps, "connected"),
                                    reconnects := Announced(steps, "reconnecting"))
    ensures Announced(steps, "connected") <= |steps| && Announced(steps, "reconnecting") <= |steps|
  {
    hide Wrap64, AfterJob;
    if steps != [] {
      var before, last := steps[..|steps| - 1], steps[|steps| - 1];
      MetricsAreHooks(before);
      var m := AfterJobs(ZERO, JobsHooked(before));
      if last.Hook? {
        StatesDiffer();
        WrapOfSmall(Announced(before, "connected") + 1);
        WrapOfSmall(Announced(before, "reconnecting") + 1);
        if last.ev.JobResult? {
          assert (JobsHooked(before) + [last.ev.job])[..|JobsHooked(before)|] == JobsHooked(before);
          JobKeepsConnects(m, last.ev.job, Announced(before, "connected"), Announced(before, "reconnecting"));
        }
      } else {
        OnlyHooksCount(Run(before), last);
      }
    }
  }

  lemma StatesDiffer()
    ensures |"connected"| == 9 && |"reconnecting"| == 12
  {
  }

  lemma JobKeepsConnects(c: Counters, j: Job, connects: int, reconnects: int)
    ensures AfterJob(c.(connectAttempts := connects, reconnects := reconnects), j)
            == AfterJob(c, j).(connectAttempts := connects, reconnects := reconnects)
  {
    hide Wrap64;
  }

  lemma OnlyHooksCount(s: State, step: Step)
    requires Enabled(s, step) && !step.Hook?
    ensures Next(s, step).metrics == s.metrics
  {
  }

  /** What a hook publishes, undisturbed: the metrics with what it counts, and the state it announces, if it
      announces one. */
  lemma HookPublishes(s: State, ev: HookEvent)
    requires s.main.Idle? && !s.returned && s.holder.None?
    ensures Enabled(s, Hook(ev))
    ensures var s' := Undisturbed(Next(s, Hook(ev)), Main);
      && s'.published == s.published + [s'.status]
      && s'.status.counters == SnapshotOf(Bump(s.metrics, ev))
      && s'.status.wsState == (if ev.StateChange? then ev.wsState else s.status.wsState)
  {
    hide Undisturbed, Bump, SnapshotOf;
    UndisturbedState(Next(s, Hook(ev)), Main);
  }

  /** What the other goroutines publish: the metrics of the moment, and the state only if one is given. */
  lemma OthersPublish(s: State, wsState: Option<string>)
    requires Started(s) && s.holder.None?
    ensures s.ticker.Idle? ==>
              var s' := Undisturbed(Next(s, TickerUpdates), Ticker);
              && s'.published == s.published + [s'.status]
              && s'.status.counters == SnapshotOf(s.metrics) && s'.status.wsState == s.status.wsState
    ensures s.upgrader.Idle? ==>
              var s' := Undisturbed(Next(s, UpgraderUpdates(wsState)), Upgrader);
              && s'.published == s.published + [s'.status]
              && s'.status.counters == SnapshotOf(s.metrics)
              && s'.status.wsState == (if wsState.Some? then wsState.value else s.status.wsState)
  {
    hide Undisturbed, SnapshotOf;
    if s.ticker.Idle? {
      UndisturbedState(Next(s, TickerUpdates), Ticker);
    }
    if s.upgrader.Idle? {
      UndisturbedState(Next(s, UpgraderUpdates(wsState)), Upgrader);
    }
  }

  // ---- single updates ----------------------------------------------------------------------

  /** The five steps of an update that nothing disturbs and in which no write fails. */
  function Undisturbed(s: State, t: Thread): State
    requires At(s, t).Wants? && s.holder.None?
  {
    var locked := Next(s, Locks(t));
    var refreshed := Next(locked, Refreshes(t));
    var written := Next(refreshed, WritesTmp(t, Whole));
    var renamed := Next(written, Renames(t, true));
    Next(renamed, Unlocks(t))
  }

  /** The record in memory after goroutine `t` has refreshed it. */
  function RefreshedRecord(s: State, t: Thread): Record
    requires At(s, t).Wants?
  {
    var snapshot := SnapshotOf(s.metrics);
    var ws := if At(s, t).wsState.Some? then At(s, t).wsState.value else s.status.wsState;
    if At(s, t).final then s.status.(running := false, wsState := ws)
    else s.status.(wsState := ws, counters := snapshot, jobsServed := snapshot.jobsSuccess)
  }

  lemma UndisturbedWrite(s: State, t: Thread)
    requires At(s, t).Wants? && s.holder.None?
    ensures var r := RefreshedRecord(s, t);
      Next(Next(Next(s, Locks(t)), Refreshes(t)), WritesTmp(t, Whole))
      == Move(s, t, Renaming).(holder := Some(t), status := r, tmp := Holds(r))
  {
    hide SnapshotOf, Bump;
    match t { case Main => case Ticker => case Upgrader => }
  }

  lemma UndisturbedState(s: State, t: Thread)
    requires At(s, t).Wants? && s.holder.None?
    ensures var r := RefreshedRecord(s, t);
      Undisturbed(s, t) == Move(s, t, Idle).(holder := None, status := r, tmp := NoFile, published := s.published + [r])
  {
    hide SnapshotOf, Bump;
    UndisturbedWrite(s, t);
    match t { case Main => case Ticker => case Upgrader => }
  }

  /** An update that nothing disturbs puts one record with the metrics of that moment into status.json,
      and leaves the mutex free. */
  lemma UpdatePublishes(s: State, t: Thread)
    requires At(s, t).Wants? && !At(s, t).final && s.holder.None?
    ensures var s' := Undisturbed(s, t);
      && At(s', t).Idle? && s'.holder.None? && s'.metrics == s.metrics
      && s'.published == s.published + [s'.status]
      && s'.status.counters == SnapshotOf(s.metrics) && s'.status.jobsServed == s.metrics.jobsSuccess
      && s'.status.wsState == (if At(s, t).wsState.Some? then At(s, t).wsState.value else s.status.wsState)
      && s'.status.running == s.status.running
  {
    hide Undisturbed, Bump;
    UndisturbedState(s, t);
  }

  /** The last write of the client's goroutine says that the daemon has stopped, and keeps the counters. */
  lemma FinalUpdateStops(s: State)
    requires s.main.Idle? && s.returned && s.holder.None?
    ensures var s' := Undisturbed(Next(s, Finalizes), Main);
      && s'.main.Idle? && s'.holder.None?
      && s'.published == s.published + [s.status.(running := false, wsState := "stopped")]
  {
    hide Undisturbed, Bump, SnapshotOf;
    UndisturbedState(Next(s, Finalizes), Main);
  }
}
