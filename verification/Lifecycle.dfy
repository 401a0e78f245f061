/** internal/daemon/service.go: `Start`, `StartForeground`, `Stop`, `Restart` and `Status` against the
    daemon's own life, sharing the pid file and the process table.

    One command runs at a time, its steps interleaved with the daemons' own. A process lookup tells
    the truth about the moment it is made; the pid file can be read, and is written whole. */
module Lifecycle {
  import opened Text

  type Pid = nat

  /** `Spawned`: before `Run` writes the pid file. `Serving`: until the client returns.
      `Leaving`: past `removePIDIfMatches`, not yet gone. */
  datatype Phase = Spawned | Serving | Stopped | Compared(matches: bool) | Leaving

  datatype Command =
    | NoCommand
    // runningPID, on the way to a detached or a foreground daemon
    | StartReads(foreground: bool) | StartLooks(foreground: bool, pid: Pid) | StartCleans(foreground: bool)
    | Spawns | Records(child: Pid) | Reports(child: Pid)
    | Unrecords(child: Pid) | Kills(child: Pid, unrecorded: bool)
    | Becomes | Runs(child: Pid)
    | StopReads(restart: bool) | StopLooks(restart: bool, pid: Pid) | Signals(restart: bool, pid: Pid)
    | Polls(restart: bool, pid: Pid) | StopCleans(restart: bool)
    | StatusReads | StatusLooks(pid: Pid) | StatusCleans

  datatype World = World(pidFile: Option<Pid>, daemons: map<Pid, Phase>, cmd: Command)

  datatype Step =
    | BeginStart(foreground: bool) | BeginStop(restart: bool) | BeginStatus
    | CommandStep(ok: bool, newPid: Pid)    // the next step of the command; `ok` is how it turns out
    | DaemonStep(p: Pid, ok: bool)         // the next step of a daemon
    | DaemonDies(p: Pid)                   // killed, crashed, or exiting on an error
    | DaemonExecs(p: Pid)                  // restartProcess: same pid, new image

  predicate Enabled(w: World, step: Step) {
    match step
    case BeginStart(_) => w.cmd.NoCommand?
    case BeginStop(_) => w.cmd.NoCommand?
    case BeginStatus => w.cmd.NoCommand?
    case CommandStep(ok, newPid) =>
      && !w.cmd.NoCommand? && !w.cmd.Runs?
      && newPid !in w.daemons
      // kill reports no such process only when there is none
      && (w.cmd.Signals? && !ok ==> w.cmd.pid !in w.daemons)
    case DaemonStep(p, _) => p in w.daemons
    case DaemonDies(p) => p in w.daemons
    case DaemonExecs(p) => p in w.daemons && w.daemons[p].Serving?
  }

  /** After a stop that found nothing or succeeded. */
  function AfterStop(restart: bool): Command {
    if restart then StartReads(false) else NoCommand
  }

  function Launch(foreground: bool): Command {
    if foreground then Becomes else Spawns
  }

  function NextCommand(w: World, ok: bool, newPid: Pid): World
    requires !w.cmd.NoCommand? && !w.cmd.Runs?
  {
    match w.cmd
    case StartReads(fg) =>
      w.(cmd := if w.pidFile.None? then Launch(fg) else StartLooks(fg, w.pidFile.value))
    case StartLooks(fg, pid) =>
      w.(cmd := if pid in w.daemons then NoCommand else StartCleans(fg))    // "already running"
    case StartCleans(fg) =>                                                 // a failure is ignored
      w.(pidFile := if ok then None else w.pidFile, cmd := Launch(fg))
    case Spawns =>
      if ok then w.(daemons := w.daemons[newPid := Spawned], cmd := Records(newPid)) else w.(cmd := NoCommand)
    case Records(child) =>
      if ok then w.(pidFile := Some(child), cmd := Reports(child)) else w.(cmd := Kills(child, false))
    case Reports(child) => w.(cmd := if ok then NoCommand else Unrecords(child))
    case Unrecords(child) => w.(pidFile := if ok then None else w.pidFile, cmd := Kills(child, true))
    case Kills(child, _) => w.(daemons := w.daemons - {child}, cmd := NoCommand)
    case Becomes => w.(daemons := w.daemons[newPid := Spawned], cmd := Runs(newPid))
    case StopReads(restart) =>
      w.(cmd := if w.pidFile.None? then AfterStop(restart) else StopLooks(restart, w.pidFile.value))
    case StopLooks(restart, pid) =>
      w.(cmd := if pid in w.daemons then Signals(restart, pid) else StopCleans(restart))
    case Signals(restart, pid) => w.(cmd := if ok then Polls(restart, pid) else StopCleans(restart))
    case Polls(restart, pid) =>                                             // not ok: the deadline passed
      w.(cmd := if pid !in w.daemons then StopCleans(restart) else if ok then Polls(restart, pid) else NoCommand)
    case StopCleans(restart) =>
      if ok then w.(pidFile := None, cmd := AfterStop(restart)) else w.(cmd := NoCommand)
    case StatusReads => w.(cmd := if w.pidFile.None? then NoCommand else StatusLooks(w.pidFile.value))
    case StatusLooks(pid) => w.(cmd := if pid in w.daemons then NoCommand else StatusCleans)
    case StatusCleans => w.(pidFile := if ok then None else w.pidFile, cmd := NoCommand)
  }

  /** A foreground start is over as a command once its process has written the pid file or is gone. */
  function Settle(w: World, p: Pid): World {
    if w.cmd == Runs(p) then w.(cmd := NoCommand) else w
  }

  function NextDaemon(w: World, p: Pid, ok: bool): World
    requires p in w.daemons
  {
    match w.daemons[p]
    case Spawned =>
      if ok then Settle(w.(pidFile := Some(p), daemons := w.daemons[p := Serving]), p)
      else Settle(w.(daemons := w.daemons - {p}), p)
    case Serving => w.(daemons := w.daemons[p := Stopped])
    case Stopped =>
      w.(daemons := w.daemons[p := if w.pidFile.None? then Leaving else Compared(w.pidFile.value == p)])
    case Compared(matches) =>
      w.(daemons := w.daemons[p := Leaving], pidFile := if matches && ok then None else w.pidFile)
    case Leaving => w.(daemons := w.daemons - {p})
  }

  function Next(w: World, step: Step): World
    requires Enabled(w, step)
  {
    match step
    case BeginStart(fg) => w.(cmd := StartReads(fg))
    case BeginStop(restart) => w.(cmd := StopReads(restart))
    case BeginStatus => w.(cmd := StatusReads)
    case CommandStep(ok, newPid) => NextCommand(w, ok, newPid)
    case DaemonStep(p, ok) => NextDaemon(w, p, ok)
    case DaemonDies(p) => Settle(w.(daemons := w.daemons - {p}), p)
    case DaemonExecs(p) => w.(daemons := w.daemons[p := Spawned])
  }

  predicate Allowed(w: World, steps: seq<Step>)
    decreases |steps|, 0
  {
    steps == [] ||
    var before := steps[..|steps| - 1];
    Allowed(w, before) && Enabled(Run(w, before), steps[|steps| - 1])
  }

  function Run(w: World, steps: seq<Step>): World
    requires Allowed(w, steps)
    decreases |steps|, 1
  {
    if steps == [] then w else Next(Run(w, steps[..|steps| - 1]), steps[|steps| - 1])
  }

  // ---- one daemon at a time ----------------------------------------------------------------

  /** Not past giving up the pid file. */
  predicate Active(w: World, p: Pid) {
    p in w.daemons && !w.daemons[p].Leaving?
  }

  /** The command is bringing up this process, whose pid need not be in the file yet. */
  predicate BringsUp(cmd: Command, p: Pid) {
    cmd in {Records(p), Kills(p, false), Kills(p, true), Runs(p)}
  }

  /** Nothing is active while a command is about to launch a daemon or to clear the file. */
  predicate NeedsQuiet(cmd: Command) {
    cmd.Spawns? || cmd.Becomes? || cmd.StartCleans? || cmd.StopCleans? || cmd.StatusCleans?
  }

  /** The pid the command is acting on. */
  predicate LooksAt(cmd: Command, p: Pid) {
    match cmd
    case StartLooks(_, pid) => pid == p
    case StopLooks(_, pid) => pid == p
    case Signals(_, pid) => pid == p
    case Polls(_, pid) => pid == p
    case StatusLooks(pid) => pid == p
    case Reports(pid) => pid == p
    case Unrecords(pid) => pid == p
    case Records(pid) => pid == p
    case Kills(pid, _) => pid == p
    case Runs(pid) => pid == p
    case _ => true
  }

  /** What holds of every daemon. */
  predicate Accounted(w: World, p: Pid) {
    && (Active(w, p) ==>
          && (w.pidFile == Some(p) || BringsUp(w.cmd, p))
          && (!w.daemons[p].Spawned? ==> w.pidFile == Some(p) || w.cmd == Kills(p, true))
          && !NeedsQuiet(w.cmd)
          && LooksAt(w.cmd, p))
    && (w.cmd == Kills(p, true) && Active(w, p) ==> w.pidFile == None || w.pidFile == Some(p))
    && (w.cmd == Runs(p) ==> p in w.daemons && w.daemons[p].Spawned?)
    && (p in w.daemons && w.daemons[p] == Compared(true) ==> w.pidFile == None || w.pidFile == Some(p))
    && (p in w.daemons ==> w.daemons[p] != Compared(false))
  }

  ghost predicate Invariant(w: World) {
    && (forall p, q | Active(w, p) && Active(w, q) :: p == q)
    && (forall p :: Accounted(w, p))
  }

  /** Only a launch makes a process active, and then no other is. */
  lemma LaunchIsAlone(w: World, step: Step, p: Pid)
    requires Invariant(w) && Enabled(w, step)
    requires Active(Next(w, step), p) && !Active(w, p)
    ensures step.CommandStep? && p == step.newPid && NeedsQuiet(w.cmd)
    ensures forall q :: !Active(w, q)
  {
    forall q
      ensures !Active(w, q)
    {
      assert Accounted(w, q);
    }
  }

  lemma StaysAccounted(w: World, step: Step, p: Pid)
    requires Invariant(w) && Enabled(w, step)
    ensures Accounted(Next(w, step), p)
  {
    assert Accounted(w, p);
    var w' := Next(w, step);
    if Active(w', p) && !Active(w, p) {
      LaunchIsAlone(w, step, p);
    }
    if step.DaemonStep? || step.DaemonDies? || step.DaemonExecs? {
      DaemonStaysAccounted(w, step, p);
    } else if step.CommandStep? {
      CommandStaysAccounted(w, step, p);
    }
  }

  lemma DaemonStaysAccounted(w: World, step: Step, p: Pid)
    requires Invariant(w) && Enabled(w, step) && (step.DaemonStep? || step.DaemonDies? || step.DaemonExecs?)
    ensures Accounted(Next(w, step), p)
  {
    assert Accounted(w, p) && Accounted(w, step.p);
    if Active(w, p) && Active(w, step.p) {
      assert p == step.p;
    }
  }

  lemma CommandStaysAccounted(w: World, step: Step, p: Pid)
    requires Invariant(w) && Enabled(w, step) && step.CommandStep?
    ensures Accounted(Next(w, step), p)
  {
    assert Accounted(w, p);
  }

  lemma StepKeepsInvariant(w: World, step: Step)
    requires Invariant(w) && Enabled(w, step)
    ensures Invariant(Next(w, step))
  {
    hide Accounted;
    var w' := Next(w, step);
    forall p
      ensures Accounted(w', p)
    {
      StaysAccounted(w, step, p);
    }
    forall p, q | Active(w', p) && Active(w', q)
      ensures p == q
    {
      hide Next, Enabled;
      if !Active(w, p) {
        LaunchIsAlone(w, step, p);
      }
      if !Active(w, q) {
        LaunchIsAlone(w, step, q);
      }
    }
  }

  lemma {:induction false} RunKeepsInvariant(w: World, steps: seq<Step>)
    requires w.daemons == map[] && w.cmd.NoCommand? && Allowed(w, steps)
    ensures Invariant(Run(w, steps))
  {
    if steps != [] {
      RunKeepsInvariant(w, steps[..|steps| - 1]);
      StepKeepsInvariant(Run(w, steps[..|steps| - 1]), steps[|steps| - 1]);
    }
  }

  /** From an idle machine with any pid file, in every interleaving: at most one daemon has not given
      up the pid file; and while it serves its pid is not there exactly when a failed `Start` has removed
      the file and is about to kill it. */
  lemma SingleDaemon(w: World, steps: seq<Step>, p: Pid, q: Pid)
    requires w.daemons == map[] && w.cmd.NoCommand? && Allowed(w, steps)
    ensures var w' := Run(w, steps);
      && (Active(w', p) && Active(w', q) ==> p == q)
      && (p in w'.daemons && w'.daemons[p].Serving? ==>
            (w'.pidFile != Some(p) <==> w'.cmd == Kills(p, true) && w'.pidFile == None))
  {
    hide Run, Allowed;
    RunKeepsInvariant(w, steps);
    assert Accounted(Run(w, steps), p);
  }

  /** In any world at all, an exit that nothing comes between removes the file exactly when it holds
      the daemon's own pid and the removal works. */
  lemma ExitComparesFirst(w: World, p: Pid, ok: bool)
    requires p in w.daemons && w.daemons[p].Stopped?
    ensures var w' := Next(w, DaemonStep(p, ok));
      var w'' := if w'.daemons[p].Leaving? then w' else Next(w', DaemonStep(p, ok));
      w''.daemons[p].Leaving? && w''.pidFile == if w.pidFile == Some(p) && ok then None else w.pidFile
  {
  }

  /** A daemon that exits removes its own pid from the file or nothing, whatever comes between its
      steps. While lookups are true it never even finds another's pid there: the comparison is a
      second line of defence. */
  lemma ExitKeepsSuccessor(w: World, steps: seq<Step>, p: Pid, ok: bool)
    requires w.daemons == map[] && w.cmd.NoCommand? && Allowed(w, steps)
    requires p in Run(w, steps).daemons && !Run(w, steps).daemons[p].Spawned? && !Run(w, steps).daemons[p].Serving?
    ensures Run(w, steps).daemons[p] != Compared(false)
    ensures var w' := Run(w, steps);
      var w'' := Next(w', DaemonStep(p, ok));
      w''.pidFile == w'.pidFile || w'.pidFile == Some(p)
  {
    hide Run, Allowed;
    RunKeepsInvariant(w, steps);
    assert Accounted(Run(w, steps), p);
  }

  // ---- and it does come up and go down -----------------------------------------------------

  predicate Begins(step: Step) {
    step.BeginStart? || step.BeginStop? || step.BeginStatus?
  }

  /** A run leads there in which no command begins: the one under way gets there by itself. */
  ghost predicate Reaches(w: World, w': World) {
    exists steps :: Allowed(w, steps) && Run(w, steps) == w' && forall step | step in steps :: !Begins(step)
  }

  lemma ReachesItself(w: World)
    ensures Reaches(w, w)
  {
    assert Allowed(w, []) && Run(w, []) == w;
  }

  lemma ReachesNext(w: World, mid: World, step: Step)
    requires Reaches(w, mid) && Enabled(mid, step) && !Begins(step)
    ensures Reaches(w, Next(mid, step))
  {
    var steps :| Allowed(w, steps) && Run(w, steps) == mid && forall step | step in steps :: !Begins(step);
    assert (steps + [step])[..|steps|] == steps;
    assert Allowed(w, steps + [step]) && Run(w, steps + [step]) == Next(mid, step);
  }

  /** A start that has come as far as the launch ends with the new daemon serving and recorded. */
  lemma LaunchServes(w: World, q: Pid)
    requires Reaches(w, World(None, map[], Spawns))
    ensures Reaches(w, World(Some(q), map[q := Serving], NoCommand))
  {
    hide Reaches, Run, Allowed;
    var r := q + 1;
    ReachesNext(w, World(None, map[], Spawns), CommandStep(true, q));
    ReachesNext(w, World(None, map[q := Spawned], Records(q)), CommandStep(true, r));
    ReachesNext(w, World(Some(q), map[q := Spawned], Reports(q)), CommandStep(true, r));
    ReachesNext(w, World(Some(q), map[q := Spawned], NoCommand), DaemonStep(q, true));
    assert (map[q := Spawned])[q := Serving] == map[q := Serving];
  }

  /** Without a daemon, and whatever stale pid the file holds, the way to the launch is free. */
  lemma StartLaunches(w: World, pidFile: Option<Pid>, foreground: bool)
    requires Reaches(w, World(pidFile, map[], StartReads(foreground)))
    ensures Reaches(w, World(None, map[], Launch(foreground)))
  {
    hide Reaches, Run, Allowed;
    var reading := World(pidFile, map[], StartReads(foreground));
    ReachesNext(w, reading, CommandStep(true, 0));
    if pidFile.Some? {
      ReachesNext(w, reading.(cmd := StartLooks(foreground, pidFile.value)), CommandStep(true, 0));
      ReachesNext(w, reading.(cmd := StartCleans(foreground)), CommandStep(true, 0));
    }
  }

  /** Without a daemon, and whatever stale pid the file holds, a start can end with the new daemon
      serving and its pid in the file, in the background or in the foreground. */
  lemma StartServes(pidFile: Option<Pid>, foreground: bool, q: Pid)
    ensures Reaches(World(pidFile, map[], StartReads(foreground)), World(Some(q), map[q := Serving], NoCommand))
  {
    hide Reaches, Run, Allowed;
    var w := World(pidFile, map[], StartReads(foreground));
    ReachesItself(w);
    StartLaunches(w, pidFile, foreground);
    if foreground {
      ReachesNext(w, World(None, map[], Becomes), CommandStep(true, q));
      ReachesNext(w, World(None, map[q := Spawned], Runs(q)), DaemonStep(q, true));
      assert (map[q := Spawned])[q := Serving] == map[q := Serving];
    } else {
      LaunchServes(w, q);
    }
  }

  /** That state is reached: the child of a `Start` can come up before the command fails to write
      status.json and takes the pid file away. It is then killed. */
  lemma AbortedStartServes(p: Pid)
    ensures Reaches(World(None, map[], StartReads(false)), World(None, map[p := Serving], Kills(p, true)))
    ensures Reaches(World(None, map[], StartReads(false)), World(None, map[], NoCommand))
  {
    hide Reaches, Run, Allowed;
    var w, q := World(None, map[], StartReads(false)), p + 1;
    ReachesItself(w);
    ReachesNext(w, w, CommandStep(true, q));
    ReachesNext(w, w.(cmd := Spawns), CommandStep(true, p));
    ReachesNext(w, World(None, map[p := Spawned], Records(p)), CommandStep(true, q));
    ReachesNext(w, World(Some(p), map[p := Spawned], Reports(p)), DaemonStep(p, true));
    assert (map[p := Spawned])[p := Serving] == map[p := Serving];
    ReachesNext(w, World(Some(p), map[p := Serving], Reports(p)), CommandStep(false, q));
    ReachesNext(w, World(Some(p), map[p := Serving], Unrecords(p)), CommandStep(true, q));
    ReachesNext(w, World(None, map[p := Serving], Kills(p, true)), CommandStep(true, q));
    assert map[p := Serving] - {p} == map[];
  }

  /** Without a daemon, and whatever stale pid the file holds, the stop in a stop or restart can end with
      no pid file, and the restart goes on. */
  lemma StopClearsStale(pidFile: Option<Pid>, restart: bool)
    ensures Reaches(World(pidFile, map[], StopReads(restart)),
                    World(None, map[], if restart then StartReads(false) else NoCommand))
  {
    hide Reaches, Run, Allowed;
    var w := World(pidFile, map[], StopReads(restart));
    ReachesItself(w);
    ReachesNext(w, w, CommandStep(true, 0));
    if pidFile.Some? {
      ReachesNext(w, w.(cmd := StopLooks(restart, pidFile.value)), CommandStep(true, 0));
      ReachesNext(w, w.(cmd := StopCleans(restart)), CommandStep(true, 0));
    }
  }

  /** A stop of a serving daemon signals it and polls. */
  lemma StopSignals(p: Pid, restart: bool)
    ensures Reaches(World(Some(p), map[p := Serving], StopReads(restart)),
                    World(Some(p), map[p := Serving], Polls(restart, p)))
  {
    hide Reaches, Run, Allowed;
    var w, q := World(Some(p), map[p := Serving], StopReads(restart)), p + 1;
    ReachesItself(w);
    ReachesNext(w, w, CommandStep(true, q));
    ReachesNext(w, w.(cmd := StopLooks(restart, p)), CommandStep(true, q));
    ReachesNext(w, w.(cmd := Signals(restart, p)), CommandStep(true, q));
  }

  /** A daemon that is polled for can leave and take its pid file with it. */
  lemma PolledDaemonLeaves(w: World, p: Pid, restart: bool)
    requires Reaches(w, World(Some(p), map[p := Serving], Polls(restart, p)))
    ensures Reaches(w, World(None, map[], Polls(restart, p)))
  {
    hide Reaches, Run, Allowed;
    var polling := World(Some(p), map[p := Serving], Polls(restart, p));
    ReachesNext(w, polling, DaemonStep(p, true));
    var returned := polling.(daemons := map[p := Stopped]);
    assert polling.daemons[p := Stopped] == map[p := Stopped];
    ReachesNext(w, returned, DaemonStep(p, true));
    var compared := polling.(daemons := map[p := Compared(true)]);
    assert returned.daemons[p := Compared(true)] == map[p := Compared(true)];
    ReachesNext(w, compared, DaemonStep(p, true));
    var leaving := World(None, map[p := Leaving], Polls(restart, p));
    assert compared.daemons[p := Leaving] == map[p := Leaving];
    ReachesNext(w, leaving, DaemonStep(p, true));
    assert leaving.daemons - {p} == map[];
  }

  /** And the stop of a serving daemon can end with no daemon and no pid file: here the daemon clears the
      file itself and the command finds it gone. A restart goes on. */
  lemma StopClears(p: Pid, restart: bool)
    ensures Reaches(World(Some(p), map[p := Serving], StopReads(restart)),
                    World(None, map[], if restart then StartReads(false) else NoCommand))
  {
    hide Reaches, Run, Allowed;
    var w := World(Some(p), map[p := Serving], StopReads(restart));
    StopSignals(p, restart);
    PolledDaemonLeaves(w, p, restart);
    ReachesNext(w, World(None, map[], Polls(restart, p)), CommandStep(true, p + 1));
    ReachesNext(w, World(None, map[], StopCleans(restart)), CommandStep(true, p + 1));
  }

  /** So it can when the daemon is gone before the signal, or while it is polled for, and leaves its pid
      behind. */
  lemma StopClearsBehind(p: Pid, restart: bool)
    ensures var end := World(None, map[], if restart then StartReads(false) else NoCommand);
      && Reaches(World(Some(p), map[], Signals(restart, p)), end)
      && Reaches(World(Some(p), map[p := Serving], Polls(restart, p)), end)
  {
    hide Reaches, Run, Allowed;
    var signals, polls := World(Some(p), map[], Signals(restart, p)), World(Some(p), map[p := Serving], Polls(restart, p));
    var cleans := World(Some(p), map[], StopCleans(restart));
    ReachesItself(signals);
    ReachesNext(signals, signals, CommandStep(false, p));
    ReachesNext(signals, cleans, CommandStep(true, p));
    ReachesItself(polls);
    ReachesNext(polls, polls, DaemonDies(p));
    assert polls.daemons - {p} == map[];
    ReachesNext(polls, World(Some(p), map[], Polls(restart, p)), CommandStep(true, p));
    ReachesNext(polls, cleans, CommandStep(true, p));
  }

  /** A restart by itself, over a stale pid file or over a serving daemon, can end with a new daemon serving
      and recorded. */
  lemma RestartServes(p: Pid, q: Pid, pidFile: Option<Pid>)
    ensures Reaches(World(pidFile, map[], StopReads(true)), World(Some(q), map[q := Serving], NoCommand))
    ensures Reaches(World(Some(p), map[p := Serving], StopReads(true)), World(Some(q), map[q := Serving], NoCommand))
  {
    hide Reaches, Run, Allowed;
    StopClearsStale(pidFile, true);
    StartLaunches(World(pidFile, map[], StopReads(true)), None, false);
    LaunchServes(World(pidFile, map[], StopReads(true)), q);
    StopClears(p, true);
    StartLaunches(World(Some(p), map[p := Serving], StopReads(true)), None, false);
    LaunchServes(World(Some(p), map[p := Serving], StopReads(true)), q);
  }

  /** Where nothing can be done the commands end and leave everything as it was: a start beside a serving
      daemon, a stop that times out, a look at a serving daemon; the look clears a stale pid file. */
  lemma CommandsGiveUp(p: Pid, flag: bool)
    ensures var serving := World(Some(p), map[p := Serving], NoCommand);
      && Reaches(serving.(cmd := StartReads(flag)), serving)
      && Reaches(serving.(cmd := StopReads(flag)), serving)
      && Reaches(serving.(cmd := StatusReads), serving)
      && Reaches(World(Some(p), map[], StatusReads), World(None, map[], NoCommand))
  {
    hide Reaches, Run, Allowed;
    var serving, q := World(Some(p), map[p := Serving], NoCommand), p + 1;
    var start := serving.(cmd := StartReads(flag));
    ReachesItself(start);
    ReachesNext(start, start, CommandStep(true, q));
    ReachesNext(start, serving.(cmd := StartLooks(flag, p)), CommandStep(true, q));
    StopSignals(p, flag);
    ReachesNext(serving.(cmd := StopReads(flag)), serving.(cmd := Polls(flag, p)), CommandStep(false, q));
    var look := serving.(cmd := StatusReads);
    ReachesItself(look);
    ReachesNext(look, look, CommandStep(true, q));
    ReachesNext(look, serving.(cmd := StatusLooks(p)), CommandStep(true, q));
    var stale := World(Some(p), map[], StatusReads);
    ReachesItself(stale);
    ReachesNext(stale, stale, CommandStep(true, q));
    ReachesNext(stale, stale.(cmd := StatusLooks(p)), CommandStep(true, q));
    ReachesNext(stale, stale.(cmd := StatusCleans), CommandStep(true, q));
  }

  // ---- a restart goes on to start ----------------------------------------------------------

  /** The stop of a restart is about to end well. */
  predicate StopEnds(w: World) {
    w.cmd == StopCleans(true) || (w.cmd == StopReads(true) && w.pidFile.None?)
  }

  /** The restart has stopped what there was and is on its way to the launch. */
  ghost predicate Onward(w: World) {
    w.cmd == StartReads(false) && w.pidFile.None? && forall p :: !Active(w, p)
  }

  lemma StopLeadsOnward(w: World, q: Pid)
    requires Invariant(w) && StopEnds(w) && Enabled(w, CommandStep(true, q))
    ensures Onward(Next(w, CommandStep(true, q)))
  {
    var w' := Next(w, CommandStep(true, q));
    forall p
      ensures !Active(w', p)
    {
      assert Accounted(w, p);
      assert !Active(w, p);
    }
  }

  lemma OnwardLasts(w: World, step: Step)
    requires Onward(w) && Enabled(w, step)
    ensures Onward(Next(w, step)) || Next(w, step).cmd.Spawns?
  {
    var w' := Next(w, step);
    if step.DaemonStep? || step.DaemonDies? || step.DaemonExecs? {
      assert !Active(w, step.p);
    }
    forall p
      ensures !step.CommandStep? ==> !Active(w', p)
    {
      assert !Active(w, p);
    }
  }

  /** In every run, a restart whose stop has ended well is not over before it has come to launch a daemon:
      whatever the old daemons still do, it is on its way there or has been there. */
  lemma {:induction false} RestartGoesOn(w: World, steps: seq<Step>, q: Pid, more: seq<Step>)
    requires w.daemons == map[] && w.cmd.NoCommand?
    requires Allowed(w, steps) && StopEnds(Run(w, steps))
    requires Allowed(w, steps + [CommandStep(true, q)] + more)
    ensures var start := steps + [CommandStep(true, q)];
      && Allowed(w, start)
      && (|| Onward(Run(w, start + more))
          || exists k | 0 <= k <= |more| :: Allowed(w, start + more[..k]) && Run(w, start + more[..k]).cmd.Spawns?)
  {
    hide Enabled, Next, StopEnds, Onward, Invariant;
    var start := steps + [CommandStep(true, q)];
    assert start[..|start| - 1] == steps;
    if more == [] {
      assert start + more == start;
      RunKeepsInvariant(w, steps);
      StopLeadsOnward(Run(w, steps), q);
    } else {
      var n := |more| - 1;
      assert (start + more)[..|start + more| - 1] == start + more[..n];
      RestartGoesOn(w, steps, q, more[..n]);
      if Onward(Run(w, start + more[..n])) {
        OnwardLasts(Run(w, start + more[..n]), more[n]);
        assert more[..|more|] == more;
      } else {
        var k :| 0 <= k <= n && Allowed(w, start + more[..n][..k]) && Run(w, start + more[..n][..k]).cmd.Spawns?;
        assert more[..n][..k] == more[..k];
      }
    }
  }
}
