/** The two loops that poll a process until a deadline: `Stop` of internal/daemon/service.go and
    `waitForDaemonConnectedAfterUpgrade` of internal/cli/commands_upgrade.go.

    What the k-th look sees and what the clock shows are functions of k. `now(0)` is the reading the
    deadline is computed from, `now(k + 1)` the one taken after look k. */
module Polling {
  import opened Text

  /** Each sleep takes at least the polling interval. */
  ghost predicate Ticking(now: nat -> int, poll: int) {
    poll > 0 && now(0) <= now(1) && forall k: nat | k > 0 :: SleepsAt(now, poll, k)
  }

  predicate SleepsAt(now: nat -> int, poll: int, k: nat) {
    now(k) + poll <= now(k + 1)
  }

  lemma {:induction false} ClockAfter(now: nat -> int, poll: int, k: nat)
    requires Ticking(now, poll)
    ensures now(k + 1) >= now(0) + k * poll
  {
    if k > 0 {
      ClockAfter(now, poll, k - 1);
      assert SleepsAt(now, poll, k);
      assert k * poll == (k - 1) * poll + poll;
    }
  }

  /** A look that is not late is one of the first `timeout / poll + 1`. */
  lemma EarlyLooks(now: nat -> int, poll: int, timeout: int, k: nat)
    requires Ticking(now, poll) && now(k + 1) <= now(0) + timeout
    ensures k <= timeout / poll
  {
    ClockAfter(now, poll, k);
    assert k * poll <= timeout;
    if k > timeout / poll {
      MulMono(timeout / poll + 1, k, poll);
    }
  }

  lemma MulMono(a: int, b: int, n: int)
    requires a <= b && 0 < n
    ensures a * n <= b * n
  {
  }

  // ---- Stop --------------------------------------------------------------------------------

  datatype PidFile = Absent | Pid(pid: int) | Garbage

  datatype Killed = Signalled | NoSuchProcess | Refused

  datatype StopResult = Stopped | NotRunning | Failed

  /** What `Stop` meets. Look 0 is the one before the signal; the polls are the looks from 1 on.
      `vanished(k)`: between the look before and look k the daemon has removed its pid file itself. */
  datatype StopEnv = StopEnv(
    running: nat -> bool, owned: nat -> bool, vanished: nat -> bool, now: nat -> int,
    killed: Killed, removable: bool, timeout: int, poll: int)
  {
    /** `processRunning` and `daemonOwnsPID`: no pid below one is either. */
    predicate Daemon(pid: int, k: nat) {
      pid > 0 && running(k) && owned(k)
    }

    /** Poll k finds no daemon. */
    predicate Gone(pid: int, k: nat) {
      !Daemon(pid, k + 1)
    }

    /** The reading after poll k is past the deadline. */
    predicate Late(k: nat) {
      now(k + 1) > now(0) + timeout
    }
  }

  /** Poll `n` is the first that finds the daemon gone or is followed by a late reading. */
  predicate StopEndsAt(e: StopEnv, pid: int, n: nat) {
    (e.Gone(pid, n) || e.Late(n)) && forall k: nat | k < n :: !e.Gone(pid, k) && !e.Late(k)
  }

  /** By look `k` the daemon has removed its pid file itself. */
  predicate GoneBy(e: StopEnv, k: nat) {
    exists j: nat | j <= k :: e.vanished(j)
  }

  class Host {
    var pidFile: PidFile
    ghost var signals: seq<int>           // pids sent SIGTERM
    ghost var stopped: seq<int>           // pids marked stopped in status.json
    ghost var polls: nat                  // looks after the signal

    constructor (pidFile: PidFile)
      ensures this.pidFile == pidFile && signals == [] && stopped == [] && polls == 0
    {
      this.pidFile := pidFile;
      signals, stopped, polls := [], [], 0;
    }

    /** Remove the pid file and mark the daemon stopped; an absent file is no error. */
    method Clear(pid: int, removable: bool) returns (ok: bool)
      modifies `pidFile, `stopped
      ensures ok == (removable || old(pidFile).Absent?)
      ensures pidFile == (if ok then Absent else old(pidFile))
      ensures stopped == old(stopped) + if ok then [pid] else []
    {
      if !removable && !pidFile.Absent? {
        return false;
      }
      pidFile := Absent;
      stopped := stopped + [pid];
      return true;
    }

    /** What the daemon does to the file before look k. */
    method Elapse(e: StopEnv, k: nat)
      modifies `pidFile
      ensures pidFile == if e.vanished(k) then Absent else old(pidFile)
    {
      if e.vanished(k) {
        pidFile := Absent;
      }
    }

    /** The loop after the signal. */
    method PollUntilGone(pid: int, e: StopEnv) returns (gone: bool)
      requires Ticking(e.now, e.poll) && e.timeout >= 0
      requires GoneBy(e, 0) ==> pidFile.Absent?
      modifies `polls, `pidFile
      ensures old(polls) < polls <= old(polls) + e.timeout / e.poll + 2
      ensures StopEndsAt(e, pid, polls - old(polls) - 1)
      ensures gone == e.Gone(pid, polls - old(polls) - 1)
      ensures pidFile == if GoneBy(e, polls - old(polls)) then Absent else old(pidFile)
    {
      var deadline := e.now(0) + e.timeout;
      var k: nat := 0;
      while true
        invariant polls == old(polls) + k
        invariant forall j: nat | j < k :: !e.Gone(pid, j) && !e.Late(j)
        invariant k <= e.timeout / e.poll + 1
        invariant pidFile == if GoneBy(e, k) then Absent else old(pidFile)
        decreases e.timeout / e.poll + 1 - k
      {
        polls := polls + 1;
        Elapse(e, k + 1);
        if pid <= 0 || !e.running(k + 1) || !e.owned(k + 1) {
          return true;
        }
        if e.now(k + 1) > deadline {
          return false;
        }
        EarlyLooks(e.now, e.poll, e.timeout, k);
        k := k + 1;
      }
    }

    method Stop(e: StopEnv) returns (r: StopResult)
      requires Ticking(e.now, e.poll) && e.timeout >= 0
      modifies this
      ensures var was := old(pidFile);
        && (r.Stopped? || r.NotRunning? ==> pidFile.Absent?)
        && (!pidFile.Absent? ==> pidFile == was)
        && polls <= old(polls) + e.timeout / e.poll + 2
        // only a pid that was read from the file and passed both lookups is signalled, and once
        && (if was.Pid? && e.Daemon(was.pid, 0) && e.killed.Signalled? then
              // and then the loop looks until the daemon is gone or the deadline has passed
              var n := polls - old(polls) - 1;
              && signals == old(signals) + [was.pid]
              && polls > old(polls) && StopEndsAt(e, was.pid, n)
              && r == if e.Gone(was.pid, n) && (e.removable || GoneBy(e, n + 1)) then Stopped else Failed
            else
              && signals == old(signals) && polls == old(polls)
              && r == if was.Absent? then NotRunning
                      else if was.Garbage? || (!e.removable && !e.vanished(0)) then Failed
                      else if !e.Daemon(was.pid, 0) then NotRunning
                      else if e.killed.NoSuchProcess? then Stopped
                      else Failed)
    {
      if pidFile.Absent? {
        return NotRunning;
      }
      if pidFile.Garbage? {
        return Failed;
      }
      var pid := pidFile.pid;
      Elapse(e, 0);
      if pid <= 0 || !e.running(0) || !e.owned(0) {
        var ok := Clear(pid, e.removable);
        return if ok then NotRunning else Failed;
      }
      if e.killed.NoSuchProcess? {
        var ok := Clear(pid, e.removable);
        return if ok then Stopped else Failed;
      }
      if e.killed.Refused? {
        return Failed;
      }
      signals := signals + [pid];
      var gone := PollUntilGone(pid, e);
      if gone {
        var ok := Clear(pid, e.removable);
        return if ok then Stopped else Failed;
      }
      return Failed;
    }
  }

  // ---- waiting for the reconnect -----------------------------------------------------------

  datatype Reading = StatusError(message: string) | Status(wsState: string, lastError: string)

  predicate Connected(r: Reading) {
    r.Status? && TrimSpace(r.wsState) == "connected"
  }

  /** Look k is no hit, and the deadline has not been reached after it. */
  predicate Inconclusive(hit: nat -> bool, now: nat -> int, deadline: int, k: nat) {
    !hit(k) && now(k + 1) < deadline
  }

  /** Look `n` is the first that is not inconclusive. */
  predicate EndsAt(hit: nat -> bool, now: nat -> int, deadline: int, n: nat) {
    !Inconclusive(hit, now, deadline, n) && forall k: nat | k < n :: Inconclusive(hit, now, deadline, k)
  }

  method WaitForDaemonConnected(status: nat -> Reading, now: nat -> int, timeout: int, poll: int)
    returns (ok: bool, lastState: string, lastError: string, looks: nat)
    requires Ticking(now, poll) && timeout >= 0
    ensures looks > 0
    ensures EndsAt((k: nat) => Connected(status(k)), now, now(0) + timeout, looks - 1)
    ensures ok <==> Connected(status(looks - 1))
    ensures lastState == LastState(status, looks)
    ensures !ok ==> lastError == LastError(status, looks)
    ensures looks <= timeout / poll + 2
  {
    hide TrimSpace;
    var deadline := now(0) + timeout;
    ghost var hit := (k: nat) => Connected(status(k));
    lastState, lastError := "", "";
    var k: nat := 0;
    while true
      invariant forall j: nat | j < k :: Inconclusive(hit, now, deadline, j)
      invariant lastState == LastState(status, k) && lastError == LastError(status, k)
      invariant k <= timeout / poll + 1
      decreases timeout / poll + 1 - k
    {
      var r := status(k);
      if r.StatusError? {
        lastError := r.message;
      } else {
        lastState := TrimSpace(r.wsState);
        if lastState == "connected" {
          return true, lastState, lastError, k + 1;
        }
        var msg := TrimSpace(r.lastError);
        if msg != "" {
          lastError := msg;
        }
      }
      if !(now(k + 1) < deadline) {
        break;
      }
      EarlyLooks(now, poll, timeout, k);
      assert Inconclusive(hit, now, deadline, k);
      k := k + 1;
    }
    return false, lastState, lastError, k + 1;
  }

  /** The state seen last, in the looks that got a status. */
  function LastState(status: nat -> Reading, looks: nat): string {
    if looks == 0 then ""
    else if status(looks - 1).Status? then TrimSpace(status(looks - 1).wsState)
    else LastState(status, looks - 1)
  }

  /** The last look that had something to report about an error. */
  function LastError(status: nat -> Reading, looks: nat): string {
    if looks == 0 then ""
    else
      var r := status(looks - 1);
      var msg := if r.StatusError? then r.message else TrimSpace(r.lastError);
      if r.StatusError? || msg != "" then msg else LastError(status, looks - 1)
  }

  /** The reported state is that of the last look that got a status, and empty if none did. */
  lemma {:induction false} LastStateIs(status: nat -> Reading, looks: nat)
    ensures || (LastState(status, looks) == "" && forall k: nat | k < looks :: status(k).StatusError?)
            || exists k: nat | k < looks ::
                 && status(k).Status? && LastState(status, looks) == TrimSpace(status(k).wsState)
                 && forall j: nat | k < j < looks :: status(j).StatusError?
  {
    if looks > 0 && status(looks - 1).StatusError? {
      LastStateIs(status, looks - 1);
    }
  }

  /** It tells of an error: the look failed, or the daemon's record has one. */
  predicate TellsError(r: Reading) {
    r.StatusError? || !Blank(r.lastError)
  }

  function ErrorIn(r: Reading): string {
    if r.StatusError? then r.message else TrimSpace(r.lastError)
  }

  /** The reported error is that of the last look that told of one. */
  lemma {:induction false} LastErrorIs(status: nat -> Reading, looks: nat)
    ensures || (LastError(status, looks) == "" && forall k: nat | k < looks :: !TellsError(status(k)))
            || exists k: nat | k < looks ::
                 && TellsError(status(k)) && LastError(status, looks) == ErrorIn(status(k))
                 && forall j: nat | k < j < looks :: !TellsError(status(j))
  {
    if looks > 0 {
      var r := status(looks - 1);
      if r.Status? {
        BlankIff(r.lastError);
      }
      hide TrimSpace, Blank;
      if !TellsError(r) {
        LastErrorIs(status, looks - 1);
      }
    }
  }

  // ---- what the reconnect loop can miss ----------------------------------------------------

  /** Look k happens at `at(k)`: after the reading before it and the sleep, and at most `lag` before the
      reading after it. */
  predicate LooksInOrder(at: nat -> int, now: nat -> int, lag: int, poll: int, k: nat) {
    now(k) + (if k > 0 then poll else 0) <= at(k) <= now(k + 1) <= at(k) + lag
  }

  ghost predicate InOrder(at: nat -> int, now: nat -> int, lag: int, poll: int) {
    forall k: nat :: LooksInOrder(at, now, lag, poll, k)
  }

  /** From `since` on every look finds the daemon connected. */
  ghost predicate ConnectedSince(hit: nat -> bool, at: nat -> int, since: int) {
    forall k: nat :: at(k) >= since ==> hit(k)
  }

  /** A run of the loop that ends at look `n`. */
  ghost predicate Scenario(
    hit: nat -> bool, at: nat -> int, now: nat -> int, n: nat,
    lag: int, since: int, start: int, timeout: int, poll: int)
  {
    && Ticking(now, poll) && now(0) == start
    && InOrder(at, now, lag, poll) && ConnectedSince(hit, at, since)
    && EndsAt(hit, now, start + timeout, n)
  }

  /** The loop succeeds whenever the daemon stays connected from its start, or from a moment at least
      `lag` before the deadline. */
  lemma NothingMissed(
      hit: nat -> bool, at: nat -> int, now: nat -> int, n: nat,
      lag: int, since: int, start: int, timeout: int, poll: int)
    requires Scenario(hit, at, now, n, lag, since, start, timeout, poll)
    requires since <= start || since + lag <= start + timeout
    ensures hit(n)
  {
    if n > 0 {
      ClockAfter(now, poll, n - 1);
      MulMono(0, n - 1, poll);
    }
    assert LooksInOrder(at, now, lag, poll, n);
  }

  ghost predicate AlwaysNoticed(lag: int, since: int, start: int, timeout: int, poll: int) {
    forall hit: nat -> bool, at: nat -> int, now: nat -> int, n: nat ::
      Scenario(hit, at, now, n, lag, since, start, timeout, poll) ==> hit(n)
  }

  /** And not later than that: a look can fall just before the connection, and the clock be read just
      after the deadline. So the loop is certain to notice exactly the connections that are there from
      its start or leave room for the lag. */
  lemma NothingMissedIff(lag: int, since: int, start: int, timeout: int, poll: int)
    requires 0 <= lag && 0 <= timeout && poll > 0
    ensures AlwaysNoticed(lag, since, start, timeout, poll) <==> since <= start || since + lag <= start + timeout
  {
    if since <= start || since + lag <= start + timeout {
      forall hit: nat -> bool, at: nat -> int, now: nat -> int, n: nat
        | Scenario(hit, at, now, n, lag, since, start, timeout, poll)
        ensures hit(n)
      {
        NothingMissed(hit, at, now, n, lag, since, start, timeout, poll);
      }
    } else {
      var hit, at, now := MissedScenario(lag, since, start, timeout, poll);
    }
  }

  lemma MissedScenario(lag: int, since: int, start: int, timeout: int, poll: int)
    returns (hit: nat -> bool, at: nat -> int, now: nat -> int)
    requires 0 <= lag && 0 <= timeout && poll > 0
    requires since > start && since + lag > start + timeout
    ensures Scenario(hit, at, now, 0, lag, since, start, timeout, poll) && !hit(0)
  {
    var deadline := start + timeout;
    var first := if lag <= timeout then deadline - lag else start;
    now := (k: nat) => if k == 0 then start else deadline + (k - 1) * poll;
    at := (k: nat) => if k == 0 then first else deadline + k * poll;
    hit := (k: nat) => (if k == 0 then first else deadline + k * poll) >= since;
    forall k: nat
      ensures LooksInOrder(at, now, lag, poll, k) && (k > 0 ==> SleepsAt(now, poll, k))
    {
      assert (k + 1 - 1) * poll == (k - 1) * poll + poll;
    }
  }
}
