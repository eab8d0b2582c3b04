/**
 * The background task behind a lease watcher (`watch_lease_events` and `watch_lease_rotate`)
 * together with its handle, its bounded event channel and a clock, as a step system.
 */
module LeaseWatcher {
  import opened Common

  /** Give up when renewal fails, or ask for fresh credentials first. */
  datatype Mode = Report | Rotate

  datatype LeaseEvent =
    | Renewed(leaseId: string, secs: u64)
    | Error(leaseId: string)
    | Expired(leaseId: string)
    | Rotated(leaseId: string)

  const CAPACITY: nat := 16
  const MIN_RENEWAL_SLEEP: nat := SECOND
  const JITTER_MS: nat := 5000
  const ATTEMPTS: nat := 3

  /** The sleep in front of a renewal; `mul_f64(0.66)` is taken exactly. */
  function SleepTime(ttl: nat, jitterMs: nat): nat {
    Max(ttl * 33 / 50 + jitterMs * MILLI, MIN_RENEWAL_SLEEP)
  }

  /** The back-off in front of rotation attempt `n`: `500 * 2^n` milliseconds. */
  function BackoffTime(n: nat): nat {
    500 * MILLI * if n == 0 then 1 else if n == 1 then 2 else 4
  }

  /** What follows a completed send. */
  datatype Then =
    | ToLoop
    | ToRotation                          // after Error, when rotating
    | ToExpired                           // after Error, when reporting
    | ToAdopt(leaseId: string, ttl: nat)  // after Rotated
    | ToStop                              // after Expired

  /** Where the task is. */
  datatype Pc =
    | LoopHead
    | Sleeping(start: nat, deadline: nat)
    | Renewing
    | Sending(event: LeaseEvent, next: Then)
    | Attempt(n: nat)                     // head of the rotation loop
    | BackingOff(n: nat, deadline: nat)
    | Rotating(n: nat)
    | Stopped

  /** The handle in the hands of the user. */
  datatype Handle = Live | ShuttingDown | Gone

  /**
   * `emitted` are the events whose send has completed, `received` those the user has taken,
   * `renewals` the times at which renewals were sent, and `failures` the times at which
   * rotation attempts have failed since the last Error event.
   */
  datatype State = State(
    now: nat,
    handle: Handle,
    queue: seq<LeaseEvent>,
    received: seq<LeaseEvent>,
    emitted: seq<LeaseEvent>,
    leaseId: string,
    ttl: nat,
    pc: Pc,
    renewals: seq<nat>,
    failures: seq<nat>)

  datatype Action =
    | Tick(elapsed: nat)
    | Receive                                        // `recv` or `try_recv` takes an event
    | Shutdown                                       // `shutdown` is called: cancel and wait
    | DropHandle                                     // the handle, or the running `shutdown`, is dropped
    | Go(jitterMs: nat)                              // the task runs to its next wait
    | Wake                                           // the timer has elapsed
    | RenewDone(secs: Option<u64>)                   // the renewal succeeds with a lease, or fails
    | RotateDone(rotated: Option<(string, nat)>)       // the callback returns a lease, or fails
    | SeeCancel                                      // a wait notices the cancellation

  function Init(leaseId: string, ttl: nat): State {
    State(0, Live, [], [], [], leaseId, ttl, LoopHead, [], [])
  }

  /** The cancellation token is cancelled exactly by giving up the handle. */
  predicate Cancelled(s: State) {
    !s.handle.Live?
  }

  /**
   * The first poll of a wait that races a fresh timer against cancellation: the timer is
   * ready only if its deadline has passed, so an earlier cancellation wins.
   */
  function FirstPoll(s: State, deadline: nat, waiting: Pc): Pc {
    if Cancelled(s) && s.now < deadline then Stopped else waiting
  }

  function AfterSend(s: State, event: LeaseEvent, next: Then): State {
    var s' := s.(emitted := s.emitted + [event]);
    match next
    case ToLoop => s'.(pc := LoopHead)
    case ToRotation => s'.(pc := Attempt(0), failures := [])
    case ToExpired => s'.(pc := Sending(Expired(s.leaseId), ToStop))
    case ToAdopt(leaseId, ttl) => s'.(pc := LoopHead, leaseId := leaseId, ttl := ttl)
    case ToStop => s'.(pc := Stopped)
  }

  /** `tx.send`: waits for a free slot, and does not watch the cancellation. */
  function Send(s: State, event: LeaseEvent, next: Then): Option<State> {
    if s.handle.Gone? then Some(AfterSend(s, event, next))
    else if |s.queue| < CAPACITY then Some(AfterSend(s.(queue := s.queue + [event]), event, next))
    else None
  }

  function Next(mode: Mode, s: State, a: Action): Option<State> {
    match a
    case Tick(elapsed) => Some(s.(now := s.now + elapsed))
    case Receive =>
      if s.handle.Live? && s.queue != []
      then Some(s.(queue := s.queue[1..], received := s.received + [s.queue[0]]))
      else None
    case Shutdown => if s.handle.Live? then Some(s.(handle := ShuttingDown)) else None
    case DropHandle => if s.handle.Gone? then None else Some(s.(handle := Gone, queue := []))
    case Go(jitterMs) =>
      (match s.pc
       case LoopHead =>
         if jitterMs >= JITTER_MS then None
         else
           var deadline := s.now + SleepTime(s.ttl, jitterMs);
           Some(s.(pc := FirstPoll(s, deadline, Sleeping(s.now, deadline))))
       case Sending(event, next) => Send(s, event, next)
       case Attempt(n) =>
         if n >= ATTEMPTS then Some(s.(pc := Sending(Expired(s.leaseId), ToStop)))
         else if n > 0 then
           var deadline := s.now + BackoffTime(n);
           Some(s.(pc := FirstPoll(s, deadline, BackingOff(n, deadline))))
         else Some(s.(pc := Rotating(n)))
       case _ => None)
    case Wake =>
      (match s.pc
       case Sleeping(_, deadline) =>
         if s.now >= deadline then Some(s.(pc := Renewing, renewals := s.renewals + [s.now])) else None
       case BackingOff(n, deadline) => if s.now >= deadline then Some(s.(pc := Rotating(n))) else None
       case _ => None)
    case RenewDone(secs) =>
      if s.pc != Renewing then None
      else (match secs
            case Some(granted) =>
              Some(s.(pc := Sending(Renewed(s.leaseId, granted), ToLoop), ttl := FromSecs(granted)))
            case None =>
              Some(s.(pc := Sending(Error(s.leaseId), if mode.Rotate? then ToRotation else ToExpired))))
    case RotateDone(rotated) =>
      if !s.pc.Rotating? then None
      else (match rotated
            case Some(lease) => Some(s.(pc := Sending(Rotated(lease.0), ToAdopt(lease.0, lease.1))))
            case None => Some(s.(pc := Attempt(s.pc.n + 1), failures := s.failures + [s.now])))
    case SeeCancel =>
      if Cancelled(s) && (s.pc.Sleeping? || s.pc.Renewing? || s.pc.BackingOff? || s.pc.Rotating?)
      then Some(s.(pc := Stopped))
      else None
  }

  function Run(mode: Mode, s: State, run: seq<Action>): Option<State> {
    if run == [] then Some(s)
    else match Run(mode, s, run[..|run| - 1])
      case None => None
      case Some(before) => Next(mode, before, run[|run| - 1])
  }

  lemma {:induction false} RunConcat(mode: Mode, s: State, a: seq<Action>, b: seq<Action>)
    requires Run(mode, s, a).Some?
    ensures Run(mode, s, a + b) == Run(mode, Run(mode, s, a).value, b)
    decreases |b|
  {
    if b == [] {
      assert a + b == a;
    } else {
      assert (a + b)[..|a + b| - 1] == a + b[..|b| - 1];
      RunConcat(mode, s, a, b[..|b| - 1]);
    }
  }

  lemma RunOne(mode: Mode, s: State, run: seq<Action>, a: Action)
    ensures Run(mode, s, run + [a]) ==
            match Run(mode, s, run) case None => None case Some(before) => Next(mode, before, a)
  {
  }
}
