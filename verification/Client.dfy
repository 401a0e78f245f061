/** internal/ws/client.go: the reconnect loop, the session's message loop, and the job handler.

    What the network and the fetcher do is a script. The `log` is what a session does to the outside:
    the reply frames it attempts and the hooks it fires. The heartbeat goroutine is in `Session`. */
module Client {
  import opened Text
  import opened Metrics
  import opened Jobs
  import opened Backoff
  import Config

  type Bytes = seq<char>

  datatype FetchRequest = FetchRequest(id: string, bodyBase64: string, timeoutMS: int)

  /** What the fetcher answers. */
  datatype Fetched = Response(elapsedMS: int) | DeadlineExceeded | ResponseTooLarge | FetchFailed

  datatype Frame =
    | Pong
    | Result(id: string, elapsedMS: int)
    | FetchError(id: string, code: string)
  {
    predicate IsReply() { !Pong? }
  }

  datatype Attempt = Attempt(frame: Frame, written: bool)

  datatype Message = Undecodable | BadFetch | Fetch(req: FetchRequest) | PingMessage | PongMessage | Other

  /** Why a read or a write failed: the peer closed with a status, the context was cancelled, or else. */
  datatype ConnError = Closed(status: int) | Cancelled | OtherError

  const STATUS_NORMAL_CLOSURE: int := 1000
  const STATUS_GOING_AWAY: int := 1001

  /** `isCloseError`; the codes are those of section 7.4.1 of RFC 6455. */
  predicate IsCloseError(err: ConnError) {
    || (err.Closed? && (err.status == STATUS_NORMAL_CLOSURE || err.status == STATUS_GOING_AWAY))
    || err.Cancelled?
  }

  /** What one turn of the loop meets: the select, the read, and, for a message, the fetcher and the
      write of the answer. */
  datatype Poll = Ready | SessionDone | HeartbeatFailed(err: ConnError)
  datatype Read = Payload(msg: Message) | ReadFails(err: ConnError)
  datatype Turn = Turn(poll: Poll, read: Read, fetched: Fetched, written: bool)

  /** `handled`: ids that reached the handler. `lost`: jobs whose reply could not be written. */
  datatype Log = Log(
    attempts: seq<Attempt>, jobs: seq<Job>, handled: seq<string>, lost: nat,
    heartbeats: nat, connected: nat, reconnecting: nat)

  const EMPTY := Log([], [], [], 0, 0, 0, 0)

  const DEFAULT_RECONNECT: int := 1_000_000_000
  const DEFAULT_MAX_WAIT: int := 60_000_000_000

  /** `decodeRequestBody`: an empty body and an empty decoding are both no body. */
  function DecodeRequestBody(decode: string -> Option<Bytes>, encoded: string): Option<Bytes> {
    if encoded == "" then Some("") else decode(encoded)
  }

  function MapFetchError(f: Fetched): string {
    if f.DeadlineExceeded? then "daemon_timeout"
    else if f.ResponseTooLarge? then "response_too_large"
    else "fetch_failed"
  }

  // ---- one job -----------------------------------------------------------------------------

  /** The one frame a job is answered with. */
  function ReplyTo(decode: string -> Option<Bytes>, busy: bool, req: FetchRequest, f: Fetched): Frame {
    if busy then FetchError(req.id, "duplicate_job_id")
    else if DecodeRequestBody(decode, req.bodyBase64).None? then FetchError(req.id, "invalid_request_body")
    else if f.Response? then Result(req.id, f.elapsedMS)
    else FetchError(req.id, MapFetchError(f))
  }

  /** The job hook fires unless the reply could not be written; a bad body is reported regardless. */
  function AfterReply(
      decode: string -> Option<Bytes>, busy: bool, l: Log, req: FetchRequest, f: Fetched, written: bool): (Log, bool)
  {
    var reply := ReplyTo(decode, busy, req, f);
    var l := l.(attempts := l.attempts + [Attempt(reply, written)]);
    var badBody := !busy && DecodeRequestBody(decode, req.bodyBase64).None?;
    if !written && !badBody then (l.(lost := l.lost + 1), true)
    else (l.(jobs := l.jobs + [if reply.Result? then Job(true, reply.elapsedMS) else Job(false, 0)]), false)
  }

  function AfterFetch(
      decode: string -> Option<Bytes>, busy: bool, l: Log, req: FetchRequest, f: Fetched, written: bool): (Log, bool)
  {
    AfterReply(decode, busy, l.(handled := l.handled + [req.id]), req, f, written)
  }

  /** The log after a message, and whether the session ends with an error. */
  function AfterMessage(
      decode: string -> Option<Bytes>, busy: set<string>, l: Log, t: Turn, msg: Message): (Log, bool)
  {
    match msg
    case Undecodable => (l, true)
    case BadFetch => (l, true)
    case Fetch(req) =>
      if req.id == "" then (l, true) else AfterFetch(decode, req.id in busy, l, req, t.fetched, t.written)
    case PingMessage => (l.(attempts := l.attempts + [Attempt(Pong, t.written)]), !t.written)
    case PongMessage => (l.(heartbeats := l.heartbeats + 1), false)
    case Other => (l, false)
  }

  /** The rest of a session, and whether it ends with an error. */
  function AfterTurns(decode: string -> Option<Bytes>, busy: set<string>, l: Log, turns: seq<Turn>): (Log, bool)
    decreases |turns|
  {
    if turns == [] then (l, false)
    else
      var t := turns[0];
      if t.poll.SessionDone? then (l, false)
      else if t.poll.HeartbeatFailed? then (l, !IsCloseError(t.poll.err))
      else if t.read.ReadFails? then (l, !IsCloseError(t.read.err))
      else
        var (l', failed) := AfterMessage(decode, busy, l, t, t.read.msg);
        if failed then (l', true) else AfterTurns(decode, busy, l', turns[1..])
  }

  /** A connection attempt and, when it succeeds, the turns until the session ends. */
  datatype SessionScript = SessionScript(dialed: bool, turns: seq<Turn>)

  function AfterSession(decode: string -> Option<Bytes>, busy: set<string>, l: Log, s: SessionScript): (Log, bool) {
    if !s.dialed then (l, true)
    else AfterTurns(decode, busy, l.(connected := l.connected + 1), s.turns)
  }

  /** Sessions that are all followed by a wait. An error is announced before the wait. */
  function AfterSessions(
      decode: string -> Option<Bytes>, busy: set<string>, l: Log, sessions: seq<SessionScript>)
    : (r: (Log, seq<bool>))
    ensures |r.1| == |sessions|
  {
    if sessions == [] then (l, [])
    else
      var n := |sessions| - 1;
      var (before, failed) := AfterSessions(decode, busy, l, sessions[..n]);
      var (after, err) := AfterSession(decode, busy, before, sessions[n]);
      (if err then after.(reconnecting := after.reconnecting + 1) else after, failed + [err])
  }

  /** A whole run: the context is cancelled in the last session, or in the wait after it. */
  function AfterRun(
      decode: string -> Option<Bytes>, busy: set<string>, l: Log, sessions: seq<SessionScript>, inSession: bool)
    : (r: (Log, seq<bool>))
    requires sessions != []
    ensures |r.1| == |sessions|
  {
    var n := |sessions| - 1;
    var (before, failed) := AfterSessions(decode, busy, l, sessions[..n]);
    var (after, err) := AfterSession(decode, busy, before, sessions[n]);
    (if err && !inSession then after.(reconnecting := after.reconnecting + 1) else after, failed + [err])
  }

  // ---- the client --------------------------------------------------------------------------

  class ClientObject {
    const decode: string -> Option<Bytes>
    const initialReconnect: int
    const maxReconnectWait: int
    const registry: Registry
    const metrics: MetricsObject          // what the daemon's hooks write to
    ghost var log: Log

    /** The metrics are what the hooks of the log add up to. */
    ghost predicate Valid()
      reads this, metrics
    {
      metrics.Value() == AfterJobs(ZERO, log.jobs).(connectAttempts := Wrap64(log.connected),
                                                     reconnects := Wrap64(log.reconnecting))
    }

    constructor (decode: string -> Option<Bytes>, initialReconnect: int, maxReconnectWait: int,
                 registry: Registry, metrics: MetricsObject)
      requires metrics.Value() == ZERO
      ensures Valid() && log == EMPTY
      ensures this.decode == decode && this.registry == registry && this.metrics == metrics
      ensures this.initialReconnect == if initialReconnect <= 0 then DEFAULT_RECONNECT else initialReconnect
      ensures this.maxReconnectWait == if maxReconnectWait <= 0 then DEFAULT_MAX_WAIT else maxReconnectWait
    {
      this.decode := decode;
      this.initialReconnect := if initialReconnect <= 0 then DEFAULT_RECONNECT else initialReconnect;
      this.maxReconnectWait := if maxReconnectWait <= 0 then DEFAULT_MAX_WAIT else maxReconnectWait;
      this.registry := registry;
      this.metrics := metrics;
      this.log := EMPTY;
    }

    /** Null is the error return. */
    static method NewClient(serverURL: string, apiKey: string, decode: string -> Option<Bytes>,
                            initialReconnect: int, maxReconnectWait: int, registry: Registry, metrics: MetricsObject)
      returns (client: ClientObject?)
      requires metrics.Value() == ZERO
      ensures client == null <==> serverURL == "" || !Config.ValidAPIKey(apiKey)
      ensures client != null ==>
                && fresh(client) && client.Valid() && client.log == EMPTY
                && client.decode == decode && client.registry == registry && client.metrics == metrics
                && 0 < client.initialReconnect && 0 < client.maxReconnectWait
                && (0 < initialReconnect ==> client.initialReconnect == initialReconnect)
                && (0 < maxReconnectWait ==> client.maxReconnectWait == maxReconnectWait)
                // one second and one minute
                && (initialReconnect <= 0 ==> client.initialReconnect == 1_000_000_000)
                && (maxReconnectWait <= 0 ==> client.maxReconnectWait == 60_000_000_000)
    {
      if serverURL == "" || !Config.ValidAPIKey(apiKey) {
        return null;
      }
      client := new ClientObject(decode, initialReconnect, maxReconnectWait, registry, metrics);
    }

    method WriteJSON(frame: Frame, written: bool) returns (ok: bool)
      modifies `log
      ensures ok == written && log == old(log).(attempts := old(log).attempts + [Attempt(frame, written)])
    {
      log := log.(attempts := log.attempts + [Attempt(frame, written)]);
      return written;
    }

    method EmitJobResult(success: bool, elapsedMS: int)
      requires Valid()
      modifies `log, metrics
      ensures Valid() && log == old(log).(jobs := old(log).jobs + [Job(success, elapsedMS)])
    {
      hide AfterJob, Wrap64;
      JobKeepsConnections(AfterJobs(ZERO, log.jobs), Job(success, elapsedMS), log.connected, log.reconnecting);
      assert (log.jobs + [Job(success, elapsedMS)])[..|log.jobs|] == log.jobs;
      log := log.(jobs := log.jobs + [Job(success, elapsedMS)]);
      metrics.RecordJob(success, elapsedMS);
    }

    /** The registry's entries are left as they were: a duplicate id never evicts the original. */
    method HandleFetch(req: FetchRequest, cancel: Token, f: Fetched, written: bool) returns (failed: bool)
      requires Valid()
      modifies `log, metrics, registry
      ensures Valid()
      ensures registry.jobs == old(registry.jobs) && registry.cancelled == old(registry.cancelled)
      ensures (log, failed) == AfterFetch(decode, req.id in old(registry.jobs), old(log), req, f, written)
    {
      log := log.(handled := log.handled + [req.id]);
      hide AfterJobs, AfterReply;
      var accepted := registry.Start(req.id, Some(cancel));
      if !accepted {
        failed := RejectDuplicate(req, f, written);
        return;
      }
      failed := RunJob(req, f, written);
      registry.Finish(req.id);
      assert registry.jobs == old(registry.jobs);
    }

    method RejectDuplicate(req: FetchRequest, f: Fetched, written: bool) returns (failed: bool)
      requires Valid()
      modifies `log, metrics
      ensures Valid()
      ensures (log, failed) == AfterReply(decode, true, old(log), req, f, written)
    {
      var ok := WriteJSON(FetchError(req.id, "duplicate_job_id"), written);
      if !ok {
        log := log.(lost := log.lost + 1);
        return true;
      }
      EmitJobResult(false, 0);
      return false;
    }

    /** The part of the handler between `Start` and the deferred `Finish`. */
    method RunJob(req: FetchRequest, f: Fetched, written: bool) returns (failed: bool)
      requires Valid()
      modifies `log, metrics
      ensures Valid()
      ensures (log, failed) == AfterReply(decode, false, old(log), req, f, written)
    {
      var body := DecodeRequestBody(decode, req.bodyBase64);
      if body.None? {
        var _ := WriteJSON(FetchError(req.id, "invalid_request_body"), written);
        EmitJobResult(false, 0);
        return false;
      }
      if !f.Response? {
        var ok := WriteJSON(FetchError(req.id, MapFetchError(f)), written);
        if !ok {
          log := log.(lost := log.lost + 1);
          return true;
        }
        EmitJobResult(false, 0);
        return false;
      }
      var ok := WriteJSON(Result(req.id, f.elapsedMS), written);
      if !ok {
        log := log.(lost := log.lost + 1);
        return true;
      }
      EmitJobResult(true, f.elapsedMS);
      return false;
    }

    method HandleMessage(t: Turn, msg: Message, cancel: Token) returns (failed: bool)
      requires Valid()
      modifies `log, metrics, registry
      ensures Valid()
      ensures registry.jobs == old(registry.jobs) && registry.cancelled == old(registry.cancelled)
      ensures (log, failed) == AfterMessage(decode, old(registry.jobs).Keys, old(log), t, msg)
    {
      match msg
      case Undecodable => return true;
      case BadFetch => return true;
      case Fetch(req) =>
        if req.id == "" {
          return true;
        }
        failed := HandleFetch(req, cancel, t.fetched, t.written);
      case PingMessage =>
        var ok := WriteJSON(Pong, t.written);
        return !ok;
      case PongMessage =>
        log := log.(heartbeats := log.heartbeats + 1);
        return false;
      case Other =>
        return false;
    }

    method RunSession(s: SessionScript) returns (failed: bool)
      requires Valid()
      modifies `log, metrics, registry
      ensures Valid()
      ensures registry.jobs == old(registry.jobs) && registry.cancelled == old(registry.cancelled)
      ensures (log, failed) == AfterSession(decode, old(registry.jobs).Keys, old(log), s)
    {
      if !s.dialed {
        return true;
      }
      log := log.(connected := log.connected + 1);
      metrics.IncConnectAttempts();
      WrapStep(log.connected - 1);
      ghost var busy, start := registry.jobs.Keys, log;
      for i := 0 to |s.turns|
        invariant Valid()
        invariant registry.jobs == old(registry.jobs) && registry.cancelled == old(registry.cancelled)
        invariant AfterTurns(decode, busy, log, s.turns[i..]) == AfterTurns(decode, busy, start, s.turns)
      {
        var t := s.turns[i];
        assert s.turns[i..][0] == t && s.turns[i..][1..] == s.turns[i + 1..];
        if t.poll.SessionDone? {
          return false;
        }
        if t.poll.HeartbeatFailed? {
          return !IsCloseError(t.poll.err);
        }
        if t.read.ReadFails? {
          return !IsCloseError(t.read.err);
        }
        var err := HandleMessage(t, t.read.msg, i);
        if err {
          return true;
        }
      }
      return false;
    }

    /** `emitState("reconnecting")`, through the daemon's hook. */
    method AnnounceReconnect()
      requires Valid()
      modifies `log, metrics
      ensures Valid() && log == old(log).(reconnecting := old(log).reconnecting + 1)
    {
      log := log.(reconnecting := log.reconnecting + 1);
      metrics.IncReconnects();
      WrapStep(log.reconnecting - 1);
    }

    /** `waits` are the delays the timer was set to. The context is cancelled in the last session
        (`inSession`) or in the wait after it. */
    method Run(sessions: seq<SessionScript>, inSession: bool) returns (waits: seq<int>)
      requires Valid() && sessions != []
      modifies `log, metrics, registry
      ensures Valid() && registry.jobs == map[]
      ensures forall t: Token ::
                registry.cancelled[t] == old(registry.cancelled[t]) + |Holders(old(registry.jobs), t)|
      ensures var (after, failed) := AfterRun(decode, old(registry.jobs).Keys, old(log), sessions, inSession);
              && log == after
              && waits == WaitsOf(initialReconnect, maxReconnectWait,
                                  if inSession then failed[..|failed| - 1] else failed)
    {
      waits := Reconnect(sessions, inSession);
      registry.CancelAll();
    }

    /** The loop of `Run`, without its deferred cleanup. */
    method Reconnect(sessions: seq<SessionScript>, inSession: bool) returns (waits: seq<int>)
      requires Valid() && sessions != []
      modifies `log, metrics, registry
      ensures Valid()
      ensures registry.jobs == old(registry.jobs) && registry.cancelled == old(registry.cancelled)
      ensures var (after, failed) := AfterRun(decode, old(registry.jobs).Keys, old(log), sessions, inSession);
              && log == after
              && waits == WaitsOf(initialReconnect, maxReconnectWait,
                                  if inSession then failed[..|failed| - 1] else failed)
    {
      hide AfterSession, AfterJobs, BackoffAfter, WaitsOf;
      var backoff := initialReconnect;
      waits := [];
      ghost var failed: seq<bool> := [];
      ghost var busy, start := registry.jobs.Keys, log;
      NoSessionYet(initialReconnect, maxReconnectWait);
      for i := 0 to |sessions| - 1
        invariant Valid() && |failed| == i
        invariant registry.jobs == old(registry.jobs) && registry.cancelled == old(registry.cancelled)
        invariant AfterSessions(decode, busy, start, sessions[..i]) == (log, failed)
        invariant backoff == BackoffAfter(initialReconnect, maxReconnectWait, failed)
        invariant waits == WaitsOf(initialReconnect, maxReconnectWait, failed)
      {
        var err := RunSession(sessions[i]);
        assert sessions[..i + 1][..i] == sessions[..i];
        if err {
          AnnounceReconnect();
        } else {
          backoff := initialReconnect;
        }
        waits := waits + [backoff];
        if err {
          backoff := Wrap64(backoff * 2);
          if backoff > maxReconnectWait {
            backoff := maxReconnectWait;
          }
        }
        OneMoreSession(initialReconnect, maxReconnectWait, failed, err);
        failed := failed + [err];
      }
      // the session or the wait in which the context is cancelled
      var err := RunSession(sessions[|sessions| - 1]);
      OneMoreSession(initialReconnect, maxReconnectWait, failed, err);
      assert (failed + [err])[..|failed|] == failed;
      if inSession {
        return;
      }
      if err {
        AnnounceReconnect();
      } else {
        backoff := initialReconnect;
      }
      waits := waits + [backoff];
    }
  }

  lemma JobKeepsConnections(c: Counters, j: Job, connected: nat, reconnecting: nat)
    ensures AfterJob(c.(connectAttempts := Wrap64(connected), reconnects := Wrap64(reconnecting)), j)
            == AfterJob(c, j).(connectAttempts := Wrap64(connected), reconnects := Wrap64(reconnecting))
  {
    hide Wrap64;
  }

  lemma WrapStep(n: int)
    ensures Wrap64(Wrap64(n) + 1) == Wrap64(n + 1)
  {
  }

  // ---- what every script keeps -------------------------------------------------------------

  function ReplyIds(attempts: seq<Attempt>): seq<string> {
    if attempts == [] then []
    else
      var before, last := ReplyIds(attempts[..|attempts| - 1]), attempts[|attempts| - 1];
      if last.frame.IsReply() then before + [last.frame.id] else before
  }

  /** The elapsed times of the results that were written. */
  function Delivered(attempts: seq<Attempt>): seq<int> {
    if attempts == [] then []
    else
      var before, last := Delivered(attempts[..|attempts| - 1]), attempts[|attempts| - 1];
      if last.frame.Result? && last.written then before + [last.frame.elapsedMS] else before
  }

  /** Every job handled is counted once or lost, and answered once, in order; the successes are the
      results delivered. */
  predicate Balanced(l: Log) {
    && |l.handled| == |l.jobs| + l.lost
    && ReplyIds(l.attempts) == l.handled
    && Latencies(l.jobs) == Delivered(l.attempts)
  }

  /** Between the two logs a reply was the last frame attempted, and failing to write it was an error:
      the handler tolerates that only in the answer to a bad body. */
  predicate ReplyFailed(l: Log, l': Log) {
    |l'.attempts| > |l.attempts| &&
    var last := l'.attempts[|l'.attempts| - 1];
    last.frame.IsReply() && !last.written && last.frame != FetchError(last.frame.id, "invalid_request_body")
  }

  /** The ids a message brings to the handler. */
  function FetchId(msg: Message): seq<string> {
    if msg.Fetch? && msg.req.id != "" then [msg.req.id] else []
  }

  lemma OneMore(attempts: seq<Attempt>, a: Attempt, jobs: seq<Job>, j: Job)
    ensures ReplyIds(attempts + [a]) == ReplyIds(attempts) + if a.frame.IsReply() then [a.frame.id] else []
    ensures Delivered(attempts + [a])
            == Delivered(attempts) + if a.frame.Result? && a.written then [a.frame.elapsedMS] else []
    ensures Latencies(jobs + [j]) == Latencies(jobs) + if j.success then [j.latencyMS] else []
  {
  }

  /** The codes of the other error replies are not that of the answer to a bad body. */
  lemma ToleratedCode(decode: string -> Option<Bytes>, busy: bool, req: FetchRequest, f: Fetched)
    ensures var reply := ReplyTo(decode, busy, req, f);
      && reply.IsReply() && reply.id == req.id
      && (reply == FetchError(reply.id, "invalid_request_body") <==>
            !busy && DecodeRequestBody(decode, req.bodyBase64).None?)
  {
  }

  lemma MessageKeepsBalance(decode: string -> Option<Bytes>, busy: set<string>, l: Log, t: Turn, msg: Message)
    requires Balanced(l)
    ensures var (l', failed) := AfterMessage(decode, busy, l, t, msg);
      && Balanced(l') && l'.handled == l.handled + FetchId(msg)
      && l'.lost == l.lost + (if ReplyFailed(l, l') then 1 else 0)
      && (ReplyFailed(l, l') ==> failed)
      && l.attempts <= l'.attempts
      && l'.connected == l.connected && l'.reconnecting == l.reconnecting
  {
    hide ReplyTo, DecodeRequestBody, ReplyIds, Delivered, Latencies;
    if msg.Fetch? && msg.req.id != "" {
      var reply := ReplyTo(decode, msg.req.id in busy, msg.req, t.fetched);
      ToleratedCode(decode, msg.req.id in busy, msg.req, t.fetched);
      OneMore(l.attempts, Attempt(reply, t.written), l.jobs,
              if reply.Result? then Job(true, reply.elapsedMS) else Job(false, 0));
    } else if msg.PingMessage? {
      OneMore(l.attempts, Attempt(Pong, t.written), l.jobs, Job(false, 0));
    }
  }

  /** The turn ends the session before any message is read. */
  predicate Ends(t: Turn) {
    !t.poll.Ready? || t.read.ReadFails?
  }

  /** The ids that a stretch of turns brings to the handler, up to a turn that ends the session. */
  function FetchIds(turns: seq<Turn>): seq<string> {
    if turns == [] || Ends(turns[0]) then [] else FetchId(turns[0].read.msg) + FetchIds(turns[1..])
  }

  /** A session handles the fetch messages in the order they come, all of them up to the turn that
      ends it unless a message made it fail; it loses a job exactly when it ends in the failure to
      write that job's reply. */
  lemma {:induction false} TurnsKeepBalance(
      decode: string -> Option<Bytes>, busy: set<string>, l: Log, turns: seq<Turn>)
    requires Balanced(l)
    ensures var (l', failed) := AfterTurns(decode, busy, l, turns);
      && Balanced(l')
      && l'.handled <= l.handled + FetchIds(turns)
      && (!failed ==> l'.handled == l.handled + FetchIds(turns))
      && l'.lost == l.lost + (if ReplyFailed(l, l') then 1 else 0)
      && (ReplyFailed(l, l') ==> failed)
      && l.attempts <= l'.attempts
      && l'.connected == l.connected && l'.reconnecting == l.reconnecting
    decreases |turns|
  {
    hide AfterMessage, Balanced;
    if turns != [] && !Ends(turns[0]) {
      var t := turns[0];
      MessageKeepsBalance(decode, busy, l, t, t.read.msg);
      var (l', failed) := AfterMessage(decode, busy, l, t, t.read.msg);
      assert l.handled + FetchIds(turns) == l'.handled + FetchIds(turns[1..]);
      if !failed {
        TurnsKeepBalance(decode, busy, l', turns[1..]);
      }
    }
  }

  // ---- what a request is answered with -----------------------------------------------------

  /** The body of a request can be used: there is none, or it decodes. */
  predicate UsableBody(decode: string -> Option<Bytes>, req: FetchRequest) {
    req.bodyBase64 == "" || decode(req.bodyBase64).Some?
  }

  /** A fetch is answered with one frame. It is a result exactly when the id is free, the body can be used
      and the fetcher responded; otherwise it is an error whose code says which of these failed first,
      and how the fetcher failed. */
  lemma FetchIsAnswered(
      decode: string -> Option<Bytes>, busy: bool, l: Log, req: FetchRequest, f: Fetched, written: bool)
    ensures var l' := AfterFetch(decode, busy, l, req, f, written).0;
      && |l'.attempts| == |l.attempts| + 1 && l.attempts <= l'.attempts
      && var a := l'.attempts[|l.attempts|];
      && a.written == written
      && (a.frame.Result? <==> !busy && UsableBody(decode, req) && f.Response?)
      && (a.frame.Result? ==> a.frame == Result(req.id, f.elapsedMS))
      && (a.frame == FetchError(req.id, "duplicate_job_id") <==> busy)
      && (a.frame == FetchError(req.id, "invalid_request_body") <==> !busy && !UsableBody(decode, req))
      && (!busy && UsableBody(decode, req) ==>
            && (a.frame == FetchError(req.id, "daemon_timeout") <==> f.DeadlineExceeded?)
            && (a.frame == FetchError(req.id, "response_too_large") <==> f.ResponseTooLarge?)
            && (a.frame == FetchError(req.id, "fetch_failed") <==> f.FetchFailed?))
  {
    CodesDiffer();
  }

  lemma CodesDiffer()
    ensures |"duplicate_job_id"| == 16 && |"invalid_request_body"| == 20 && |"daemon_timeout"| == 14
    ensures |"response_too_large"| == 18 && |"fetch_failed"| == 12
  {
  }

  /** The job that is counted: none, and the session fails, exactly when the reply could not be written
      and was not the one to an unusable body; else a success with the fetcher's time for a result, and
      a failure without a time for every other reply. */
  lemma FetchIsCounted(
      decode: string -> Option<Bytes>, busy: bool, l: Log, req: FetchRequest, f: Fetched, written: bool)
    ensures var (l', failed) := AfterFetch(decode, busy, l, req, f, written);
      && (failed <==> !written && (busy || UsableBody(decode, req)))
      && l'.jobs == l.jobs + (if failed then []
                              else if !busy && UsableBody(decode, req) && f.Response? then [Job(true, f.elapsedMS)]
                              else [Job(false, 0)])
      && l'.lost == l.lost + (if failed then 1 else 0)
      && l'.handled == l.handled + [req.id]
  {
  }

  /** The other messages: a ping is answered by a pong, a pong is a heartbeat, what cannot be decoded and a
      fetch without an id end the session with an error, and unknown types are ignored. */
  lemma OtherMessages(decode: string -> Option<Bytes>, busy: set<string>, l: Log, t: Turn, req: FetchRequest)
    ensures AfterMessage(decode, busy, l, t, PingMessage)
            == (l.(attempts := l.attempts + [Attempt(Pong, t.written)]), !t.written)
    ensures AfterMessage(decode, busy, l, t, PongMessage) == (l.(heartbeats := l.heartbeats + 1), false)
    ensures AfterMessage(decode, busy, l, t, Undecodable) == (l, true) == AfterMessage(decode, busy, l, t, BadFetch)
    ensures req.id == "" ==> AfterMessage(decode, busy, l, t, Fetch(req)) == (l, true)
    ensures req.id != "" ==> AfterMessage(decode, busy, l, t, Fetch(req))
                             == AfterFetch(decode, req.id in busy, l, req, t.fetched, t.written)
    ensures AfterMessage(decode, busy, l, t, Other) == (l, false)
  {
  }

  // ---- how sessions end --------------------------------------------------------------------

  /** The peer left in good order, or the context was cancelled. */
  predicate InGoodOrder(err: ConnError) {
    err in {Closed(1000), Closed(1001), Cancelled}
  }

  /** The turn ends the session cleanly. */
  predicate EndsCleanly(t: Turn) {
    match t.poll
    case SessionDone => true
    case HeartbeatFailed(err) => InGoodOrder(err)
    case Ready => t.read.ReadFails? && InGoodOrder(t.read.err)
  }

  /** The turn ends the session with an error: the connection failed, a message made no sense, or an
      answer that matters could not be written. */
  predicate EndsInError(decode: string -> Option<Bytes>, busy: set<string>, t: Turn) {
    match t.poll
    case SessionDone => false
    case HeartbeatFailed(err) => !InGoodOrder(err)
    case Ready =>
      match t.read
      case ReadFails(err) => !InGoodOrder(err)
      case Payload(msg) =>
        match msg
        case Undecodable => true
        case BadFetch => true
        case Fetch(req) => req.id == "" || (!t.written && (req.id in busy || UsableBody(decode, req)))
        case PingMessage => !t.written
        case _ => false
  }

  lemma CloseErrorIff(err: ConnError)
    ensures IsCloseError(err) <==> InGoodOrder(err)
  {
  }

  /** A session fails exactly when some turn ends it in error and none before it ends it at all. */
  lemma {:induction false} SessionFailsIff(
      decode: string -> Option<Bytes>, busy: set<string>, l: Log, turns: seq<Turn>)
    ensures AfterTurns(decode, busy, l, turns).1 <==>
            exists i | 0 <= i < |turns| ::
              && EndsInError(decode, busy, turns[i])
              && forall k | 0 <= k < i :: !EndsCleanly(turns[k]) && !EndsInError(decode, busy, turns[k])
    decreases |turns|
  {
    if turns != [] {
      var t := turns[0];
      TurnEnds(decode, busy, l, t);
      hide AfterMessage, EndsCleanly, EndsInError, IsCloseError;
      if t.poll.Ready? && t.read.Payload? && !EndsInError(decode, busy, t) {
        var next := AfterMessage(decode, busy, l, t, t.read.msg).0;
        SessionFailsIff(decode, busy, next, turns[1..]);
        if AfterTurns(decode, busy, next, turns[1..]).1 {
          var i :| && 0 <= i < |turns[1..]| && EndsInError(decode, busy, turns[1..][i])
                   && forall k | 0 <= k < i :: !EndsCleanly(turns[1..][k]) && !EndsInError(decode, busy, turns[1..][k]);
          assert turns[i + 1] == turns[1..][i];
          forall k | 0 <= k < i + 1
            ensures !EndsCleanly(turns[k]) && !EndsInError(decode, busy, turns[k])
          {
            if k > 0 {
              assert turns[k] == turns[1..][k - 1];
            }
          }
        }
        if i :| && 0 <= i < |turns| && EndsInError(decode, busy, turns[i])
                && forall k | 0 <= k < i :: !EndsCleanly(turns[k]) && !EndsInError(decode, busy, turns[k]) {
          assert turns[1..][i - 1] == turns[i];
          assert forall k | 0 <= k < i - 1 :: turns[1..][k] == turns[k + 1];
        }
      }
    }
  }

  lemma TurnEnds(decode: string -> Option<Bytes>, busy: set<string>, l: Log, t: Turn)
    ensures t.poll.HeartbeatFailed? ==>
              (EndsInError(decode, busy, t) <==> !IsCloseError(t.poll.err)) && (EndsCleanly(t) <==> IsCloseError(t.poll.err))
    ensures t.poll.SessionDone? ==> EndsCleanly(t) && !EndsInError(decode, busy, t)
    ensures t.poll.Ready? && t.read.ReadFails? ==>
              (EndsInError(decode, busy, t) <==> !IsCloseError(t.read.err)) && (EndsCleanly(t) <==> IsCloseError(t.read.err))
    ensures t.poll.Ready? && t.read.Payload? ==>
              && !EndsCleanly(t)
              && (AfterMessage(decode, busy, l, t, t.read.msg).1 <==> EndsInError(decode, busy, t))
  {
    if t.poll.Ready? && t.read.Payload? && t.read.msg.Fetch? {
      var req := t.read.msg.req;
      FetchIsCounted(decode, req.id in busy, l, req, t.fetched, t.written);
      hide AfterFetch;
    }
  }

  lemma {:induction false} TurnsKeepCounts(decode: string -> Option<Bytes>, busy: set<string>, l: Log, turns: seq<Turn>)
    ensures var l' := AfterTurns(decode, busy, l, turns).0;
      l'.connected == l.connected && l'.reconnecting == l.reconnecting
    decreases |turns|
  {
    if turns != [] && turns[0].read.Payload? {
      TurnsKeepCounts(decode, busy, AfterMessage(decode, busy, l, turns[0], turns[0].read.msg).0, turns[1..]);
    }
  }

  predicate SessionFails(decode: string -> Option<Bytes>, busy: set<string>, s: SessionScript) {
    || !s.dialed
    || exists i | 0 <= i < |s.turns| ::
         && EndsInError(decode, busy, s.turns[i])
         && forall k | 0 <= k < i :: !EndsCleanly(s.turns[k]) && !EndsInError(decode, busy, s.turns[k])
  }

  function Dialed(sessions: seq<SessionScript>): nat {
    if sessions == [] then 0
    else Dialed(sessions[..|sessions| - 1]) + if sessions[|sessions| - 1].dialed then 1 else 0
  }

  lemma SessionOutcome(decode: string -> Option<Bytes>, busy: set<string>, l: Log, s: SessionScript)
    ensures var (l', err) := AfterSession(decode, busy, l, s);
      && (err <==> SessionFails(decode, busy, s))
      && l'.connected == l.connected + (if s.dialed then 1 else 0) && l'.reconnecting == l.reconnecting
  {
    hide AfterTurns, EndsCleanly, EndsInError;
    if s.dialed {
      SessionFailsIff(decode, busy, l.(connected := l.connected + 1), s.turns);
      TurnsKeepCounts(decode, busy, l.(connected := l.connected + 1), s.turns);
    }
  }

  lemma {:induction false} SessionsAreAccounted(
      decode: string -> Option<Bytes>, busy: set<string>, l: Log, sessions: seq<SessionScript>)
    ensures var (l', failed) := AfterSessions(decode, busy, l, sessions);
      && l'.connected == l.connected + Dialed(sessions)
      && l'.reconnecting == l.reconnecting + CountTrue(failed)
      && forall i | 0 <= i < |sessions| :: failed[i] <==> SessionFails(decode, busy, sessions[i])
  {
    hide AfterSession, SessionFails;
    if sessions != [] {
      var n := |sessions| - 1;
      SessionsAreAccounted(decode, busy, l, sessions[..n]);
      var (before, failed) := AfterSessions(decode, busy, l, sessions[..n]);
      SessionOutcome(decode, busy, before, sessions[n]);
      assert (failed + [AfterSession(decode, busy, before, sessions[n]).1])[..n] == failed;
    }
  }

  /** A run is its sessions, except that the last is not announced if the context was cancelled in it. */
  lemma RunOfSessions(
      decode: string -> Option<Bytes>, busy: set<string>, l: Log, sessions: seq<SessionScript>, inSession: bool)
    requires sessions != []
    ensures var (l', failed), (all, flags) :=
              AfterRun(decode, busy, l, sessions, inSession), AfterSessions(decode, busy, l, sessions);
      && failed == flags
      && l' == all.(reconnecting := l'.reconnecting)
      && all.reconnecting == l'.reconnecting + (if inSession && failed[|failed| - 1] then 1 else 0)
  {
    hide AfterSession;
  }

  /** The run's account of its sessions: a session has failed exactly when it could not connect or ended in
      error; connections are counted, and failed sessions announced, except one in which the context was
      cancelled. */
  lemma RunIsAccounted(
      decode: string -> Option<Bytes>, busy: set<string>, l: Log, sessions: seq<SessionScript>, inSession: bool)
    requires sessions != []
    ensures var (l', failed) := AfterRun(decode, busy, l, sessions, inSession);
      && l'.connected == l.connected + Dialed(sessions)
      && l'.reconnecting
         == l.reconnecting + CountTrue(failed) - (if inSession && failed[|failed| - 1] then 1 else 0)
      && forall i | 0 <= i < |sessions| :: failed[i] <==> SessionFails(decode, busy, sessions[i])
  {
    hide AfterRun, SessionFails, AfterSessions, CountTrue, Dialed;
    SessionsAreAccounted(decode, busy, l, sessions);
    RunOfSessions(decode, busy, l, sessions, inSession);
  }

  function CountTrue(bs: seq<bool>): nat {
    if bs == [] then 0 else CountTrue(bs[..|bs| - 1]) + if bs[|bs| - 1] then 1 else 0
  }

  /** How many of the sessions ended in the failure to write a reply. */
  function FailedReplies(
      decode: string -> Option<Bytes>, busy: set<string>, l: Log, sessions: seq<SessionScript>): nat
  {
    if sessions == [] then 0
    else
      var n := |sessions| - 1;
      var before := AfterSessions(decode, busy, l, sessions[..n]).0;
      var after := AfterSession(decode, busy, before, sessions[n]).0;
      FailedReplies(decode, busy, l, sessions[..n]) + if ReplyFailed(before, after) then 1 else 0
  }

  /** Over any number of sessions: jobs are conserved and replies in order, one job is lost for each
      session that ended in the failure to write a reply, and every failed session is announced. */
  lemma {:induction false} SessionsKeepBalance(
      decode: string -> Option<Bytes>, busy: set<string>, l: Log, sessions: seq<SessionScript>)
    requires Balanced(l)
    ensures var (l', failed) := AfterSessions(decode, busy, l, sessions);
      && Balanced(l')
      && l'.lost == l.lost + FailedReplies(decode, busy, l, sessions)
      && FailedReplies(decode, busy, l, sessions) <= CountTrue(failed)
      && l'.reconnecting == l.reconnecting + CountTrue(failed)
      && l.connected <= l'.connected <= l.connected + |sessions|
  {
    hide AfterTurns;
    if sessions != [] {
      var n := |sessions| - 1;
      SessionsKeepBalance(decode, busy, l, sessions[..n]);
      var (before, failed) := AfterSessions(decode, busy, l, sessions[..n]);
      var (after, err) := AfterSession(decode, busy, before, sessions[n]);
      assert (failed + [err])[..n] == failed;
      if sessions[n].dialed {
        TurnsKeepBalance(decode, busy, before.(connected := before.connected + 1), sessions[n].turns);
      }
    }
  }

  /** Job conservation, in the counters the daemon publishes: successes, errors and sessions that
      ended in the failure to write a reply add up to the fetch messages handled; each was answered
      once and in order, and the successes are the results delivered. */
  lemma JobsAreConserved(
      decode: string -> Option<Bytes>, busy: set<string>, sessions: seq<SessionScript>, inSession: bool)
    requires sessions != []
    requires |AfterRun(decode, busy, EMPTY, sessions, inSession).0.jobs| <= MAX_INT64
    ensures var l := AfterRun(decode, busy, EMPTY, sessions, inSession).0;
      var c := AfterJobs(ZERO, l.jobs);
      && c.jobsSuccess + c.jobsError + FailedReplies(decode, busy, EMPTY, sessions) == |l.handled|
      && c.jobsSuccess == |Delivered(l.attempts)|
      && (NoOverflow(l.jobs) ==> c.totalLatencyMS == Sum(Delivered(l.attempts)))
      && ReplyIds(l.attempts) == l.handled
  {
    SessionsKeepBalance(decode, busy, EMPTY, sessions);
    CountersCount(AfterRun(decode, busy, EMPTY, sessions, inSession).0.jobs);
    if NoOverflow(AfterRun(decode, busy, EMPTY, sessions, inSession).0.jobs) {
      TotalIsSum(AfterRun(decode, busy, EMPTY, sessions, inSession).0.jobs);
    }
  }
}
