/** The event traces of a lease watcher, as a language. */
module WatcherTrace {
  import opened Common
  import opened LeaseWatcher

  // --- The language ---

  /**
   * Prefixes of (Renewed or Error Rotated)*, then nothing or Error Expired. Renewed, Error
   * and Expired carry the current lease, which Rotated replaces.
   */
  predicate RotateTrace(leaseId: string, trace: seq<LeaseEvent>)
    decreases |trace|
  {
    if trace == [] then true
    else match trace[0]
      case Renewed(id, _) => id == leaseId && RotateTrace(leaseId, trace[1..])
      case Error(id) =>
        id == leaseId &&
        (|trace| == 1
         || (trace[1].Rotated? && RotateTrace(trace[1].leaseId, trace[2..]))
         || trace[1..] == [Expired(leaseId)])
      case _ => false
  }

  /** Prefixes of Renewed* Error Expired, all for one lease. */
  predicate ReportTrace(leaseId: string, trace: seq<LeaseEvent>) {
    if trace == [] then true
    else match trace[0]
      case Renewed(id, _) => id == leaseId && ReportTrace(leaseId, trace[1..])
      case Error(id) => id == leaseId && (|trace| == 1 || trace[1..] == [Expired(leaseId)])
      case _ => false
  }

  predicate Trace(mode: Mode, leaseId: string, trace: seq<LeaseEvent>) {
    if mode.Rotate? then RotateTrace(leaseId, trace) else ReportTrace(leaseId, trace)
  }

  // --- The same language, read from left to right by an automaton ---

  datatype Stage = Idle(leaseId: string) | Failed(leaseId: string) | Over | Wrong

  function Read(mode: Mode, stage: Stage, e: LeaseEvent): Stage {
    match (stage, e)
    case (Idle(current), Renewed(id, _)) => if id == current then stage else Wrong
    case (Idle(current), Error(id)) => if id == current then Failed(current) else Wrong
    case (Failed(current), Rotated(id)) => if mode.Rotate? then Idle(id) else Wrong
    case (Failed(current), Expired(id)) => if id == current then Over else Wrong
    case _ => Wrong
  }

  function ReadAll(mode: Mode, stage: Stage, trace: seq<LeaseEvent>): Stage
    decreases |trace|
  {
    if trace == [] then stage else ReadAll(mode, Read(mode, stage, trace[0]), trace[1..])
  }

  lemma {:induction false} ReadAllAppend(mode: Mode, stage: Stage, trace: seq<LeaseEvent>, e: LeaseEvent)
    ensures ReadAll(mode, stage, trace + [e]) == Read(mode, ReadAll(mode, stage, trace), e)
    decreases |trace|
  {
    if trace == [] {
      assert trace + [e] == [e];
    } else {
      assert (trace + [e])[1..] == trace[1..] + [e];
      ReadAllAppend(mode, Read(mode, stage, trace[0]), trace[1..], e);
    }
  }

  lemma {:induction false} WrongForever(mode: Mode, trace: seq<LeaseEvent>)
    ensures ReadAll(mode, Wrong, trace) == Wrong
    ensures ReadAll(mode, Over, trace) != Wrong <==> trace == []
  {
    if trace != [] {
      WrongForever(mode, trace[1..]);
    }
  }

  /** The automaton accepts exactly the language. */
  lemma {:induction false} AutomatonMatchesTrace(mode: Mode, leaseId: string, trace: seq<LeaseEvent>)
    ensures Trace(mode, leaseId, trace) <==> ReadAll(mode, Idle(leaseId), trace) != Wrong
    decreases |trace|
  {
    if trace != [] {
      var rest := trace[1..];
      WrongForever(mode, rest);
      match trace[0]
      case Renewed(_, _) => AutomatonMatchesTrace(mode, leaseId, rest);
      case Error(_) =>
        if rest != [] {
          assert rest[1..] == trace[2..];
          WrongForever(mode, trace[2..]);
          if rest[0].Rotated? {
            AutomatonMatchesTrace(mode, rest[0].leaseId, trace[2..]);
          } else {
            assert trace[1..] == [Expired(leaseId)] <==> rest[0] == Expired(leaseId) && trace[2..] == [];
          }
        }
      case _ =>
    }
  }

  // --- Every trace of the task is in the language ---

  /** How far the automaton is when the task is at a given place. */
  predicate AtStage(mode: Mode, s: State, stage: Stage) {
    match s.pc
    case LoopHead => stage == Idle(s.leaseId)
    case Sleeping(_, _) => stage == Idle(s.leaseId)
    case Renewing => stage == Idle(s.leaseId)
    case Sending(event, next) =>
      (match next
       case ToLoop => stage == Idle(s.leaseId) && event.Renewed? && event.leaseId == s.leaseId
       case ToRotation => stage == Idle(s.leaseId) && event == Error(s.leaseId) && mode.Rotate?
       case ToExpired => stage == Idle(s.leaseId) && event == Error(s.leaseId) && mode.Report?
       case ToAdopt(id, _) => stage == Failed(s.leaseId) && event == Rotated(id) && mode.Rotate?
       case ToStop =>
         stage == Failed(s.leaseId) && event == Expired(s.leaseId)
         && (mode.Rotate? ==> |s.failures| == ATTEMPTS))
    case Attempt(n) => stage == Failed(s.leaseId) && mode.Rotate? && |s.failures| == n <= ATTEMPTS
    case BackingOff(n, _) => stage == Failed(s.leaseId) && mode.Rotate? && |s.failures| == n < ATTEMPTS
    case Rotating(n) => stage == Failed(s.leaseId) && mode.Rotate? && |s.failures| == n < ATTEMPTS
    case Stopped => !stage.Wrong? && (stage.Over? && mode.Rotate? ==> |s.failures| == ATTEMPTS)
  }

  lemma NextKeepsStage(mode: Mode, leaseId: string, s: State, a: Action)
    requires Next(mode, s, a).Some?
    requires AtStage(mode, s, ReadAll(mode, Idle(leaseId), s.emitted))
    ensures var s' := Next(mode, s, a).value; AtStage(mode, s', ReadAll(mode, Idle(leaseId), s'.emitted))
  {
    if a.Go? && s.pc.Sending? {
      ReadAllAppend(mode, Idle(leaseId), s.emitted, s.pc.event);
    }
  }

  lemma {:induction false} RunKeepsStage(mode: Mode, leaseId: string, ttl: nat, run: seq<Action>)
    requires Run(mode, Init(leaseId, ttl), run).Some?
    ensures var s := Run(mode, Init(leaseId, ttl), run).value;
            AtStage(mode, s, ReadAll(mode, Idle(leaseId), s.emitted))
  {
    if run != [] {
      var before := run[..|run| - 1];
      RunKeepsStage(mode, leaseId, ttl, before);
      NextKeepsStage(mode, leaseId, Run(mode, Init(leaseId, ttl), before).value, run[|run| - 1]);
    }
  }

  /**
   * Every run emits a trace of the language. Once Expired was emitted the task has stopped,
   * and a rotating task has then failed exactly three attempts since the Error event.
   */
  lemma EveryRunEmitsATrace(mode: Mode, leaseId: string, ttl: nat, run: seq<Action>)
    requires Run(mode, Init(leaseId, ttl), run).Some?
    ensures var s := Run(mode, Init(leaseId, ttl), run).value;
            && Trace(mode, leaseId, s.emitted)
            && (s.emitted != [] && s.emitted[|s.emitted| - 1].Expired? ==>
                  s.pc.Stopped? && (mode.Rotate? ==> |s.failures| == 3))
  {
    var s := Run(mode, Init(leaseId, ttl), run).value;
    RunKeepsStage(mode, leaseId, ttl, run);
    AutomatonMatchesTrace(mode, leaseId, s.emitted);
    if s.emitted != [] && s.emitted[|s.emitted| - 1].Expired? {
      ExpiredIsOver(mode, leaseId, s.emitted);
    }
  }

  lemma ExpiredIsOver(mode: Mode, leaseId: string, trace: seq<LeaseEvent>)
    requires trace != [] && trace[|trace| - 1].Expired?
    ensures ReadAll(mode, Idle(leaseId), trace) in {Over, Wrong}
  {
    var n := |trace| - 1;
    assert trace == trace[..n] + [trace[n]];
    ReadAllAppend(mode, Idle(leaseId), trace[..n], trace[n]);
  }

  // --- The channel ---

  predicate InOrder(s: State) {
    && |s.queue| <= 16
    && (!s.handle.Gone? ==> s.received + s.queue == s.emitted)
    && (s.handle.Gone? ==> s.queue == [] && s.received <= s.emitted)
  }

  lemma SendKeepsOrder(s: State, event: LeaseEvent, next: Then)
    requires Send(s, event, next).Some? && InOrder(s)
    ensures InOrder(Send(s, event, next).value)
  {
    if !s.handle.Gone? {
      assert s.received + (s.queue + [event]) == s.emitted + [event];
    }
  }

  lemma NextKeepsOrder(mode: Mode, s: State, a: Action)
    requires Next(mode, s, a).Some? && InOrder(s)
    ensures InOrder(Next(mode, s, a).value)
  {
    match a
    case Receive => assert (s.received + [s.queue[0]]) + s.queue[1..] == s.received + s.queue;
    case Go(_) =>
      if s.pc.Sending? {
        SendKeepsOrder(s, s.pc.event, s.pc.next);
      }
    case _ =>
  }

  /** The user receives the events in the order of emission, without a gap, and never more than 16 wait. */
  lemma {:induction false} EventsArriveInOrder(mode: Mode, leaseId: string, ttl: nat, run: seq<Action>)
    requires Run(mode, Init(leaseId, ttl), run).Some?
    ensures InOrder(Run(mode, Init(leaseId, ttl), run).value)
  {
    if run != [] {
      var before := run[..|run| - 1];
      EventsArriveInOrder(mode, leaseId, ttl, before);
      NextKeepsOrder(mode, Run(mode, Init(leaseId, ttl), before).value, run[|run| - 1]);
    }
  }

  // --- What the events say ---

  function GrantedBy(a: Action): seq<u64> {
    match a case RenewDone(Some(secs)) => [secs] case _ => []
  }

  function FreshBy(a: Action): seq<string> {
    match a case RotateDone(Some(lease)) => [lease.0] case _ => []
  }

  /** The leases that renewals have granted in a run. */
  function Granted(run: seq<Action>): seq<u64> {
    if run == [] then [] else Granted(run[..|run| - 1]) + GrantedBy(run[|run| - 1])
  }

  /** The leases that the callback has returned in a run. */
  function Fresh(run: seq<Action>): seq<string> {
    if run == [] then [] else Fresh(run[..|run| - 1]) + FreshBy(run[|run| - 1])
  }

  function SecsOf(e: LeaseEvent): seq<u64> {
    match e case Renewed(_, secs) => [secs] case _ => []
  }

  function FreshOf(e: LeaseEvent): seq<string> {
    match e case Rotated(leaseId) => [leaseId] case _ => []
  }

  function AllSecs(events: seq<LeaseEvent>): seq<u64> {
    if events == [] then [] else AllSecs(events[..|events| - 1]) + SecsOf(events[|events| - 1])
  }

  function AllFresh(events: seq<LeaseEvent>): seq<string> {
    if events == [] then [] else AllFresh(events[..|events| - 1]) + FreshOf(events[|events| - 1])
  }

  /** The events so far, and the one that is about to be sent. */
  function Announced(s: State): seq<LeaseEvent> {
    if s.pc.Sending? then s.emitted + [s.pc.event] else s.emitted
  }

  lemma OneMoreEvent(events: seq<LeaseEvent>, e: LeaseEvent)
    ensures AllSecs(events + [e]) == AllSecs(events) + SecsOf(e)
    ensures AllFresh(events + [e]) == AllFresh(events) + FreshOf(e)
  {
    assert (events + [e])[..|events|] == events;
  }

  /** The event that an action adds, if any. */
  function Adds(s: State, a: Action): Option<LeaseEvent> {
    match a
    case RenewDone(Some(secs)) => Some(Renewed(s.leaseId, secs))
    case RenewDone(None) => Some(Error(s.leaseId))
    case RotateDone(Some(lease)) => Some(Rotated(lease.0))
    case Go(_) =>
      if (s.pc.Sending? && s.pc.next.ToExpired?) || (s.pc.Attempt? && s.pc.n >= ATTEMPTS)
      then Some(Expired(s.leaseId)) else None
    case _ => None
  }

  lemma NextAdds(mode: Mode, s: State, a: Action)
    requires Next(mode, s, a).Some?
    ensures Announced(Next(mode, s, a).value) ==
            match Adds(s, a) case None => Announced(s) case Some(e) => Announced(s) + [e]
  {
  }

  lemma AddsWhatHappened(s: State, a: Action)
    ensures GrantedBy(a) == match Adds(s, a) case None => [] case Some(e) => SecsOf(e)
    ensures FreshBy(a) == match Adds(s, a) case None => [] case Some(e) => FreshOf(e)
  {
  }

  /**
   * In every run, the Renewed events say which leases the renewals granted, and the Rotated
   * events which leases the callback returned, each once and in order.
   */
  lemma {:induction false} EventsSayWhatHappened(mode: Mode, leaseId: string, ttl: nat, run: seq<Action>)
    requires Run(mode, Init(leaseId, ttl), run).Some?
    ensures var s := Run(mode, Init(leaseId, ttl), run).value;
            AllSecs(Announced(s)) == Granted(run) && AllFresh(Announced(s)) == Fresh(run)
  {
    if run != [] {
      var before, a := run[..|run| - 1], run[|run| - 1];
      var s := Run(mode, Init(leaseId, ttl), before).value;
      EventsSayWhatHappened(mode, leaseId, ttl, before);
      NextAdds(mode, s, a);
      AddsWhatHappened(s, a);
      if Adds(s, a).Some? {
        OneMoreEvent(Announced(s), Adds(s, a).value);
      }
    }
  }
}
