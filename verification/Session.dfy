/** One websocket session of internal/ws/client.go as two goroutines: the reader, which handles
    messages and replies, and the heartbeat. They share the write mutex, a channel of capacity one,
    and the session's context. Every step of either, and of the ticker and the context, may come next. */
module Session {
  import opened Text

  datatype Thread = Reader | Heart

  datatype Frame = Ping | Pong | Reply(id: string)

  /** What the connection sees of a write: where it begins and where it ends. A fatal end is a failure
      that the goroutine does not tolerate. */
  datatype Token = Begin(who: Thread, frame: Frame) | End(who: Thread, fatal: bool)

  /** `tolerant` writes are the ones whose error the handler ignores. */
  datatype ReaderPc =
    | Selecting
    | Reading
    | WantsLock(frame: Frame, tolerant: bool)
    | Writing(tolerant: bool)
    | Cancelling(failed: bool)            // the loop has ended; the deferred function is next
    | Awaiting(failed: bool)              // waiting for heartbeatDone
    | Returned(failed: bool)

  datatype HeartPc = Waiting | HeartWantsLock | Pinging | Closing | Posting | Finished

  datatype State = State(
    reader: ReaderPc, heart: HeartPc,
    holder: Option<Thread>,               // of writeMu
    chan: nat,                            // errors in heartbeatErr
    sends: nat,                           // errors ever sent to it
    cancelled: bool, tick: bool,
    wire: seq<Token>, read: seq<Message>) // messages read so far

  const INITIAL := State(Selecting, Waiting, None, 0, 0, false, false, [], [])

  datatype Message = Fetch(id: string, tolerant: bool) | PingMessage | Silent | Bad

  datatype Step =
    | TickerFires | ContextCancelled
    | ReaderContinues | ReaderSeesDone | ReaderTakesError(closeError: bool)
    | ReaderReads(msg: Message) | ReaderReadFails(closeError: bool)
    | ReaderLocks | ReaderWrote(ok: bool) | ReaderCancels | ReaderReturns
    | HeartQuits | HeartTicks | HeartLocks | HeartWrote(ok: bool) | HeartCloses | HeartPosts
  {
    predicate OfHeart() {
      HeartQuits? || HeartTicks? || HeartLocks? || HeartWrote? || HeartCloses? || HeartPosts?
    }
  }

  predicate Enabled(s: State, step: Step) {
    match step
    case TickerFires => true
    case ContextCancelled => true
    // the default case of the select is taken only when no other is ready
    case ReaderContinues => s.reader.Selecting? && !s.cancelled && s.chan == 0
    case ReaderSeesDone => s.reader.Selecting? && s.cancelled
    case ReaderTakesError(_) => s.reader.Selecting? && s.chan > 0
    case ReaderReads(_) => s.reader.Reading?
    case ReaderReadFails(_) => s.reader.Reading?
    case ReaderLocks => s.reader.WantsLock? && s.holder.None?
    case ReaderWrote(_) => s.reader.Writing?
    case ReaderCancels => s.reader.Cancelling?
    case ReaderReturns => s.reader.Awaiting? && s.heart.Finished?
    case HeartQuits => s.heart.Waiting? && s.cancelled
    case HeartTicks => s.heart.Waiting? && s.tick
    case HeartLocks => s.heart.HeartWantsLock? && s.holder.None?
    case HeartWrote(_) => s.heart.Pinging?
    case HeartCloses => s.heart.Closing?
    case HeartPosts => s.heart.Posting? && s.chan == 0
  }

  function Next(s: State, step: Step): State
    requires Enabled(s, step)
  {
    match step
    case TickerFires => s.(tick := true)
    case ContextCancelled => s.(cancelled := true)
    case ReaderContinues => s.(reader := Reading)
    case ReaderSeesDone => s.(reader := Cancelling(false))
    case ReaderTakesError(closeError) => s.(chan := s.chan - 1, reader := Cancelling(!closeError))
    case ReaderReads(msg) => (
      var s := s.(read := s.read + [msg]);
      match msg
      case Fetch(id, tolerant) => s.(reader := WantsLock(Reply(id), tolerant))
      case PingMessage => s.(reader := WantsLock(Pong, false))
      case Silent => s.(reader := Selecting)
      case Bad => s.(reader := Cancelling(true)))
    case ReaderReadFails(closeError) => s.(reader := Cancelling(!closeError))
    case ReaderLocks =>
      s.(holder := Some(Reader), wire := s.wire + [Begin(Reader, s.reader.frame)],
         reader := Writing(s.reader.tolerant))
    case ReaderWrote(ok) =>
      s.(holder := None, wire := s.wire + [End(Reader, !ok && !s.reader.tolerant)],
         reader := if ok || s.reader.tolerant then Selecting else Cancelling(true))
    case ReaderCancels => s.(cancelled := true, reader := Awaiting(s.reader.failed))
    case ReaderReturns => s.(reader := Returned(s.reader.failed))
    case HeartQuits => s.(heart := Finished)
    case HeartTicks => s.(tick := false, heart := HeartWantsLock)
    case HeartLocks => s.(holder := Some(Heart), wire := s.wire + [Begin(Heart, Ping)], heart := Pinging)
    case HeartWrote(ok) =>
      s.(holder := None, wire := s.wire + [End(Heart, !ok)], heart := if ok then Waiting else Closing)
    case HeartCloses => s.(heart := Posting)
    case HeartPosts => s.(chan := s.chan + 1, sends := s.sends + 1, heart := Finished)
  }

  /** The steps can be taken one after the other. */
  predicate Allowed(s: State, steps: seq<Step>)
    decreases |steps|, 0
  {
    steps == [] ||
    var before := steps[..|steps| - 1];
    Allowed(s, before) && Enabled(Run(s, before), steps[|steps| - 1])
  }

  function Run(s: State, steps: seq<Step>): State
    requires Allowed(s, steps)
    decreases |steps|, 1
  {
    if steps == [] then s else Next(Run(s, steps[..|steps| - 1]), steps[|steps| - 1])
  }

  // ---- frames and replies ------------------------------------------------------------------

  /** Who is in the middle of a write. */
  function Open(wire: seq<Token>): Option<Thread> {
    if wire == [] then None
    else if wire[|wire| - 1].Begin? then Some(wire[|wire| - 1].who)
    else None
  }

  /** A write of this goroutine has failed for good. */
  predicate Broken(wire: seq<Token>, who: Thread) {
    wire != [] && (wire[|wire| - 1] == End(who, true) || Broken(wire[..|wire| - 1], who))
  }

  /** The token may follow: a write begins when none is open, and not after a fatal end of the same
      goroutine; only the open one ends; and pings are what the heartbeat writes. */
  predicate Follows(wire: seq<Token>, t: Token) {
    match t
    case Begin(who, frame) => Open(wire) == None && !Broken(wire, who) && (who.Heart? <==> frame.Ping?)
    case End(who, _) => Open(wire) == Some(who)
  }

  /** Frames are not interleaved, and nobody writes after a failure it does not tolerate. */
  predicate WellFramed(wire: seq<Token>) {
    forall i | 0 <= i < |wire| :: Follows(wire[..i], wire[i])
  }

  /** The reader's frames whose write began, in order. */
  function Answered(wire: seq<Token>): seq<Frame> {
    if wire == [] then []
    else
      var before, last := Answered(wire[..|wire| - 1]), wire[|wire| - 1];
      if last.Begin? && last.who.Reader? then before + [last.frame] else before
  }

  /** The answers that messages ask for: one reply for each fetch, with its id, and one pong for each ping. */
  function Answers(messages: seq<Message>): seq<Frame> {
    if messages == [] then []
    else
      var before := Answers(messages[..|messages| - 1]);
      match messages[|messages| - 1]
      case Fetch(id, _) => before + [Reply(id)]
      case PingMessage => before + [Pong]
      case _ => before
  }

  /** The answer the reader has yet to begin. */
  function Owed(s: State): seq<Frame> {
    if s.reader.WantsLock? then [s.reader.frame] else []
  }

  /** The loop has ended, and what the session returns, or has returned, is an error. */
  predicate EndsWithError(pc: ReaderPc) {
    (pc.Cancelling? || pc.Awaiting? || pc.Returned?) && pc.failed
  }

  predicate Invariant(s: State) {
    && (s.holder == Some(Reader) <==> s.reader.Writing?)
    && (s.holder == Some(Heart) <==> s.heart.Pinging?)
    && WellFramed(s.wire) && Open(s.wire) == s.holder
    && Answered(s.wire) + Owed(s) == Answers(s.read)
    && (s.reader.WantsLock? ==> !s.reader.frame.Ping?)
    && (Broken(s.wire, Reader) ==> EndsWithError(s.reader))
    && (Broken(s.wire, Heart) ==> s.heart.Closing? || s.heart.Posting? || s.heart.Finished?)
    && s.chan <= s.sends <= 1
    && (!s.heart.Finished? ==> s.sends == 0)
    && (s.reader.Awaiting? || s.reader.Returned? ==> s.cancelled)
    && (s.reader.Returned? ==> s.heart.Finished?)
  }

  lemma WireGrows(wire: seq<Token>, t: Token)
    requires WellFramed(wire) && Follows(wire, t)
    ensures WellFramed(wire + [t])
    ensures Open(wire + [t]) == if t.Begin? then Some(t.who) else None
    ensures forall who :: Broken(wire + [t], who) <==> Broken(wire, who) || t == End(who, true)
    ensures Answered(wire + [t]) == Answered(wire) + if t.Begin? && t.who.Reader? then [t.frame] else []
  {
    hide Follows;
    var longer := wire + [t];
    assert longer[..|wire|] == wire;
    forall i | 0 <= i < |longer|
      ensures Follows(longer[..i], longer[i])
    {
      if i < |wire| {
        assert longer[..i] == wire[..i];
      }
    }
  }

  lemma HeartKeepsInvariant(s: State, step: Step)
    requires Invariant(s) && Enabled(s, step) && step.OfHeart()
    ensures Invariant(Next(s, step))
  {
    hide WellFramed, Open, Answered, Broken;
    match step
    case HeartLocks => WireGrows(s.wire, Begin(Heart, Ping));
    case HeartWrote(ok) => WireGrows(s.wire, End(Heart, !ok));
    case _ =>
  }

  lemma ReaderFrameKeepsInvariant(s: State, step: Step)
    requires Invariant(s) && Enabled(s, step) && (step.ReaderLocks? || step.ReaderWrote?)
    ensures Invariant(Next(s, step))
  {
    hide WellFramed, Open, Answered, Broken;
    if step.ReaderLocks? {
      WireGrows(s.wire, Begin(Reader, s.reader.frame));
    } else {
      WireGrows(s.wire, End(Reader, !step.ok && !s.reader.tolerant));
    }
  }

  lemma ReadKeepsInvariant(s: State, msg: Message)
    requires Invariant(s) && s.reader.Reading?
    ensures Invariant(Next(s, ReaderReads(msg)))
  {
    hide WellFramed, Open, Answered, Broken, Answers;
    assert Answered(s.wire) + [] == Answered(s.wire);
    OneMoreMessage(s.read, msg);
  }

  lemma OneMoreMessage(read: seq<Message>, msg: Message)
    ensures Answers(read + [msg])
            == Answers(read) + (if msg.Fetch? then [Reply(msg.id)] else if msg.PingMessage? then [Pong] else [])
  {
    assert (read + [msg])[..|read|] == read;
  }

  lemma ReaderKeepsInvariant(s: State, step: Step)
    requires Invariant(s) && Enabled(s, step) && !step.OfHeart()
    ensures Invariant(Next(s, step))
  {
    hide WellFramed, Open, Answered, Broken;
    match step
    case ReaderLocks => ReaderFrameKeepsInvariant(s, step);
    case ReaderWrote(_) => ReaderFrameKeepsInvariant(s, step);
    case ReaderReads(msg) => ReadKeepsInvariant(s, msg);
    case _ =>
  }

  lemma {:induction false} RunKeepsInvariant(steps: seq<Step>)
    requires Allowed(INITIAL, steps)
    ensures Invariant(Run(INITIAL, steps))
  {
    if steps != [] {
      RunKeepsInvariant(steps[..|steps| - 1]);
      var before, last := Run(INITIAL, steps[..|steps| - 1]), steps[|steps| - 1];
      if last.OfHeart() {
        HeartKeepsInvariant(before, last);
      } else {
        ReaderKeepsInvariant(before, last);
      }
    }
  }

  /** Over every interleaving: writes never overlap, and the answers begun, with the one about to begin, are
      those the messages read ask for, in order and once each: replies to fetches, pongs to pings. */
  lemma RepliesAreOrdered(steps: seq<Step>)
    requires Allowed(INITIAL, steps)
    ensures var s := Run(INITIAL, steps);
      && WellFramed(s.wire)
      && Answered(s.wire) + Owed(s) == Answers(s.read)
      && (!s.reader.WantsLock? ==> Answered(s.wire) == Answers(s.read))
  {
    RunKeepsInvariant(steps);
    assert Answered(Run(INITIAL, steps).wire) + [] == Answered(Run(INITIAL, steps).wire);
  }

  /** A write that the reader does not tolerate to fail ends its loop with an error, and the session
      returns it; a ping that fails ends the heartbeat. */
  lemma FailedWriteEndsSession(steps: seq<Step>)
    requires Allowed(INITIAL, steps)
    ensures var s := Run(INITIAL, steps);
      && (Broken(s.wire, Reader) ==> EndsWithError(s.reader))
      && (Broken(s.wire, Heart) ==> s.heart.Closing? || s.heart.Posting? || s.heart.Finished?)
  {
    RunKeepsInvariant(steps);
  }

  /** The heartbeat's pings whose write began. */
  function Pings(wire: seq<Token>): nat {
    if wire == [] then 0
    else Pings(wire[..|wire| - 1]) + if wire[|wire| - 1].Begin? && wire[|wire| - 1].who.Heart? then 1 else 0
  }

  function TicksTaken(steps: seq<Step>): nat {
    if steps == [] then 0
    else TicksTaken(steps[..|steps| - 1]) + if steps[|steps| - 1].HeartTicks? then 1 else 0
  }

  /** In every run the heartbeat attempts one ping for each tick it takes. */
  lemma {:induction false} PingsFollowTicks(steps: seq<Step>)
    requires Allowed(INITIAL, steps)
    ensures var s := Run(INITIAL, steps);
      Pings(s.wire) + (if s.heart.HeartWantsLock? then 1 else 0) == TicksTaken(steps)
  {
    if steps != [] {
      PingsFollowTicks(steps[..|steps| - 1]);
      var before, last := Run(INITIAL, steps[..|steps| - 1]), steps[|steps| - 1];
      StepPings(before, last);
    }
  }

  lemma StepPings(s: State, step: Step)
    requires Enabled(s, step)
    ensures var s' := Next(s, step);
      Pings(s'.wire) + (if s'.heart.HeartWantsLock? then 1 else 0)
      == Pings(s.wire) + (if s.heart.HeartWantsLock? then 1 else 0) + (if step.HeartTicks? then 1 else 0)
  {
    var s' := Next(s, step);
    if s'.wire != s.wire {
      assert s'.wire[..|s.wire|] == s.wire;
    }
  }

  // ---- how a session ends ------------------------------------------------------------------

  /** The reader's loop is over, with this result. */
  predicate OverWith(pc: ReaderPc, failed: bool) {
    (pc.Cancelling? || pc.Awaiting? || pc.Returned?) && pc.failed == failed
  }

  /** The step ends the loop, and with which result: without an error when the context is done or the peer
      has closed in good order, with one on any other failure, a message that makes no sense, or an answer
      that cannot be written and matters. */
  predicate EndsLoop(s: State, step: Step, failed: bool) {
    match step
    case ReaderSeesDone => !failed && s.reader.Selecting?
    case ReaderTakesError(closeError) => failed == !closeError && s.reader.Selecting?
    case ReaderReadFails(closeError) => failed == !closeError && s.reader.Reading?
    case ReaderReads(msg) => failed && msg.Bad?
    case ReaderWrote(ok) => failed && !ok && s.reader.Writing? && !s.reader.tolerant
    case _ => false
  }

  lemma StepEndsLoop(s: State, step: Step, failed: bool)
    requires Enabled(s, step)
    ensures OverWith(Next(s, step).reader, failed) <==> OverWith(s.reader, failed) || EndsLoop(s, step, failed)
  {
  }

  /** In every run the loop is over with a result exactly when some step of it has ended it so. */
  lemma {:induction false} ResultIsExplained(steps: seq<Step>, failed: bool)
    requires Allowed(INITIAL, steps)
    ensures OverWith(Run(INITIAL, steps).reader, failed) <==>
            exists i | 0 <= i < |steps| :: Allowed(INITIAL, steps[..i]) && EndsLoop(Run(INITIAL, steps[..i]), steps[i], failed)
  {
    hide Next, Enabled, EndsLoop;
    if steps != [] {
      var n := |steps| - 1;
      ResultIsExplained(steps[..n], failed);
      StepEndsLoop(Run(INITIAL, steps[..n]), steps[n], failed);
      forall i | 0 <= i < n
        ensures steps[..n][..i] == steps[..i]
      {
      }
      if i :| 0 <= i < n && Allowed(INITIAL, steps[..n][..i]) && EndsLoop(Run(INITIAL, steps[..n][..i]), steps[..n][i], failed) {
        assert Allowed(INITIAL, steps[..i]) && EndsLoop(Run(INITIAL, steps[..i]), steps[i], failed);
      }
      if i :| 0 <= i < |steps| && Allowed(INITIAL, steps[..i]) && EndsLoop(Run(INITIAL, steps[..i]), steps[i], failed) {
        if i < n {
          assert Allowed(INITIAL, steps[..n][..i]) && EndsLoop(Run(INITIAL, steps[..n][..i]), steps[..n][i], failed);
        }
      }
    }
  }

  // ---- teardown ----------------------------------------------------------------------------

  /** The heartbeat sends at most one error, and never blocks on the channel. */
  lemma PostNeverBlocks(steps: seq<Step>)
    requires Allowed(INITIAL, steps)
    ensures var s := Run(INITIAL, steps);
      s.sends <= 1 && (s.heart.Posting? ==> Enabled(s, HeartPosts))
  {
    RunKeepsInvariant(steps);
  }

  /** A step the heartbeat can take next. */
  function HeartStep(s: State): Step {
    match s.heart
    case Waiting => HeartQuits
    case HeartWantsLock => HeartLocks
    case Pinging => HeartWrote(false)
    case Closing => HeartCloses
    case Posting => HeartPosts
    case Finished => HeartQuits
  }

  lemma HeartIsFree(s: State)
    requires Invariant(s) && (s.reader.Awaiting? || s.reader.Returned?)
    ensures HeartStep(s).OfHeart() && (s.heart.Finished? || Enabled(s, HeartStep(s)))
  {
    hide WellFramed, Open, Answered, Broken;
    if s.holder.Some? {
      match s.holder.value
      case Reader => assert false;
      case Heart => assert s.heart.Pinging?;
    }
  }

  /** Once the reader waits for it, the heartbeat is never stuck before it has finished, and then the
      session can return. */
  lemma TeardownNeverBlocks(steps: seq<Step>)
    requires Allowed(INITIAL, steps) && Run(INITIAL, steps).reader.Awaiting?
    ensures var s := Run(INITIAL, steps);
      if s.heart.Finished? then Enabled(s, ReaderReturns) else Enabled(s, HeartStep(s)) && HeartStep(s).OfHeart()
  {
    hide Invariant, Run, Allowed;
    RunKeepsInvariant(steps);
    HeartIsFree(Run(INITIAL, steps));
  }

  /** How far the heartbeat is from its end, when no further tick comes. */
  function Potential(s: State): nat {
    (if s.tick then 6 else 0)
    + match s.heart
      case Finished => 0
      case Posting => 1
      case Closing => 2
      case Waiting => 3
      case Pinging => 4
      case HeartWantsLock => 5
  }

  function HeartSteps(steps: seq<Step>): nat {
    if steps == [] then 0
    else HeartSteps(steps[..|steps| - 1]) + if steps[|steps| - 1].OfHeart() then 1 else 0
  }

  function Ticks(steps: seq<Step>): nat {
    if steps == [] then 0
    else Ticks(steps[..|steps| - 1]) + if steps[|steps| - 1].TickerFires? then 1 else 0
  }

  lemma {:induction false} PotentialPays(s: State, more: seq<Step>)
    requires Allowed(s, more)
    ensures HeartSteps(more) + Potential(Run(s, more)) <= Potential(s) + 6 * Ticks(more)
  {
    hide Next, Enabled, Potential;
    if more == [] {
      assert Run(s, more) == s;
    } else {
      PotentialPays(s, more[..|more| - 1]);
      StepPays(Run(s, more[..|more| - 1]), more[|more| - 1]);
    }
  }

  lemma StepPays(s: State, step: Step)
    requires Enabled(s, step)
    ensures Potential(Next(s, step)) + (if step.OfHeart() then 1 else 0)
            <= Potential(s) + (if step.TickerFires? then 6 else 0)
  {
  }

  lemma {:induction false} RunConcat(s: State, steps: seq<Step>, more: seq<Step>)
    requires Allowed(s, steps) && Allowed(Run(s, steps), more)
    ensures Allowed(s, steps + more) && Run(s, steps + more) == Run(Run(s, steps), more)
  {
    hide Next, Enabled;
    if more == [] {
      assert steps + more == steps;
    } else {
      RunConcat(s, steps, more[..|more| - 1]);
      assert (steps + more)[..|steps + more| - 1] == steps + more[..|more| - 1];
    }
  }

  /** No deadlock at teardown: from the moment the reader waits, whatever the interleaving, the
      heartbeat takes at most 11 steps, and 6 more for each tick that still comes; and when it can
      take no step, it has finished and the session can return or has returned. */
  lemma TeardownTerminates(steps: seq<Step>, more: seq<Step>)
    requires Allowed(INITIAL, steps) && Run(INITIAL, steps).reader.Awaiting?
    requires Allowed(Run(INITIAL, steps), more)
    ensures HeartSteps(more) <= 11 + 6 * Ticks(more)
    ensures var s := Run(Run(INITIAL, steps), more);
      (forall step: Step | step.OfHeart() :: !Enabled(s, step)) ==>
        s.heart.Finished? && (Enabled(s, ReaderReturns) || s.reader.Returned?)
  {
    hide Next, Invariant, Allowed, Run;
    PotentialPays(Run(INITIAL, steps), more);
    RunConcat(INITIAL, steps, more);
    RunKeepsInvariant(steps);
    RunKeepsInvariant(steps + more);
    StillTearingDown(Run(INITIAL, steps), more);
    HeartIsFree(Run(Run(INITIAL, steps), more));
  }

  /** How many steps the heartbeat has left when its writes fail. */
  function StepsLeft(heart: HeartPc): nat {
    match heart
    case Finished => 0
    case Posting => 1
    case Closing => 2
    case Pinging => 3
    case HeartWantsLock => 4
    case Waiting => 5
  }

  lemma StepUsesUp(s: State, step: Step)
    requires Enabled(s, step) && s.cancelled && step != HeartWrote(true)
    ensures var s' := Next(s, step);
      s'.cancelled && StepsLeft(s'.heart) + (if step.OfHeart() then 1 else 0) <= StepsLeft(s.heart)
  {
  }

  /** Where a write with a cancelled context fails, the heartbeat takes at most five more steps from any
      moment of the teardown, however many ticks come. */
  lemma {:induction false} TeardownIsBounded(s: State, more: seq<Step>)
    requires Allowed(s, more) && s.cancelled
    requires HeartWrote(true) !in more
    ensures Run(s, more).cancelled
    ensures HeartSteps(more) + StepsLeft(Run(s, more).heart) <= StepsLeft(s.heart) <= 5
  {
    hide Next, Enabled, StepsLeft;
    StepsLeftBound(s.heart);
    if more == [] {
      assert Run(s, more) == s;
    } else {
      TeardownIsBounded(s, more[..|more| - 1]);
      assert more[|more| - 1] in more;
      StepUsesUp(Run(s, more[..|more| - 1]), more[|more| - 1]);
    }
  }

  lemma StepsLeftBound(heart: HeartPc)
    ensures StepsLeft(heart) <= 5
  {
  }

  lemma {:induction false} StillTearingDown(s: State, more: seq<Step>)
    requires Allowed(s, more) && (s.reader.Awaiting? || s.reader.Returned?)
    ensures Run(s, more).reader.Awaiting? || Run(s, more).reader.Returned?
  {
    if more != [] {
      StillTearingDown(s, more[..|more| - 1]);
    }
  }
}
