/**
 * The loops of `watch_lease_events` and `watch_lease_rotate` as they are written, refined to
 * the step system. The answers of the server and of the callback, the jitter and the moment of
 * the cancellation are arbitrary inputs; the user holds the handle and receives every event,
 * until the task is cancelled.
 */
module WatcherLoop {
  import opened Common
  import opened LeaseWatcher
  import opened WatcherTrace
  import opened WatcherShutdown
  import opened WatcherLanguage
  import opened RenewalTiming

  // --- What the task awaits ---

  type Jitter = ms: nat | ms < JITTER_MS

  /**
   * One attempt to rotate: whether the cancellation comes during the back-off in front of
   * it, and what the callback brings, which is nothing when the cancellation comes first.
   */
  datatype Try = Try(cancelled: bool, answer: Option<Option<(string, nat)>>)

  /**
   * One round of the loop: the jitter, whether the cancellation comes during the sleep, what
   * the renewal brings, and the attempts to rotate, should there be any.
   */
  datatype Round = Round(jitterMs: Jitter, cancelled: bool, renewal: Option<Option<u64>>, tries: nat -> Try)

  /** What the task has done so far: its events and timers, and the lease that it watches. */
  datatype Watch = Watch(leaseId: string, ttl: nat, events: seq<LeaseEvent>, timers: seq<nat>, stopped: bool)

  function Start(leaseId: string, ttl: nat): Watch {
    Watch(leaseId, ttl, [], [], false)
  }

  /** The step system has emitted the same events and watches the same lease. */
  predicate Follows(w: Watch, s: State) {
    s.emitted == w.events && s.leaseId == w.leaseId && s.ttl == w.ttl
  }

  // --- Specification ---

  /** The callback was asked and failed. */
  predicate PlainFailure(t: Try, n: nat) {
    (n == 0 || !t.cancelled) && t.answer == Some(None)
  }

  predicate Succeeds(t: Try, n: nat) {
    (n == 0 || !t.cancelled) && t.answer.Some? && t.answer.value.Some?
  }

  /** The first attempt from `n` on that is not a plain failure, or 3. */
  function Deciding(tries: nat -> Try, n: nat): (k: nat)
    requires n <= ATTEMPTS
    ensures n <= k <= ATTEMPTS
    ensures forall j :: n <= j < k ==> PlainFailure(tries(j), j)
    ensures k < ATTEMPTS ==> !PlainFailure(tries(k), k)
    decreases ATTEMPTS - n
  {
    if n < ATTEMPTS && PlainFailure(tries(n), n) then Deciding(tries, n + 1) else n
  }

  /** The timers in front of the attempts up to number `k`. */
  function Backoffs(k: nat): seq<nat> {
    if k == 0 then [] else if k == 1 then [BackoffTime(1)] else [BackoffTime(1), BackoffTime(2)]
  }

  /** The rotation that follows an Error event. */
  function AfterRotation(tries: nat -> Try, w: Watch): Watch {
    var k := Deciding(tries, 0);
    var w' := w.(timers := w.timers + Backoffs(k));
    if k == ATTEMPTS then w'.(events := w.events + [Expired(w.leaseId)], stopped := true)
    else if Succeeds(tries(k), k) then
      var lease := tries(k).answer.value.value;
      w'.(events := w.events + [Rotated(lease.0)], leaseId := lease.0, ttl := lease.1)
    else w'.(stopped := true)
  }

  function AfterRound(mode: Mode, r: Round, w: Watch): Watch {
    var slept := w.(timers := w.timers + [SleepTime(w.ttl, r.jitterMs)]);
    if r.cancelled || r.renewal.None? then slept.(stopped := true)
    else match r.renewal.value
      case Some(secs) => slept.(events := w.events + [Renewed(w.leaseId, secs)], ttl := FromSecs(secs))
      case None =>
        var failed := slept.(events := w.events + [Error(w.leaseId)]);
        if mode.Rotate? then AfterRotation(r.tries, failed)
        else failed.(events := failed.events + [Expired(w.leaseId)], stopped := true)
  }

  /** The first `n` rounds, or as many as it takes to stop. */
  function After(mode: Mode, world: nat -> Round, w: Watch, n: nat): Watch {
    if n == 0 then w
    else
      var before := After(mode, world, w, n - 1);
      if before.stopped then before else AfterRound(mode, world(n - 1), before)
  }

  /** The round is the last one: cancelled somewhere, or its lease is lost. */
  predicate Ends(mode: Mode, r: Round) {
    || r.cancelled
    || r.renewal.None?
    || (r.renewal.value.None?
        && (mode.Report? || (var k := Deciding(r.tries, 0); k == ATTEMPTS || !Succeeds(r.tries(k), k))))
  }

  /** The lease is lost: nothing was cancelled, the renewal failed, and so did all attempts to rotate. */
  predicate Loses(mode: Mode, r: Round) {
    && !r.cancelled && r.renewal == Some(None)
    && (mode.Rotate? ==> forall n :: 0 <= n < ATTEMPTS ==> PlainFailure(r.tries(n), n))
  }

  predicate SaysExpired(w: Watch) {
    w.events != [] && w.events[|w.events| - 1].Expired?
  }

  lemma RoundEnds(mode: Mode, r: Round, w: Watch)
    requires !w.stopped && !SaysExpired(w)
    ensures AfterRound(mode, r, w).stopped <==> Ends(mode, r)
    ensures SaysExpired(AfterRound(mode, r, w)) <==> Loses(mode, r)
    ensures Loses(mode, r) ==> Ends(mode, r)
  {
  }

  /** The first of `n` rounds that ends the task, or `n`. */
  function EndingRound(mode: Mode, world: nat -> Round, n: nat): (r: nat)
    ensures r <= n
    ensures forall q :: 0 <= q < r ==> !Ends(mode, world(q))
    ensures r < n ==> Ends(mode, world(r))
  {
    if n == 0 then 0
    else
      var r := EndingRound(mode, world, n - 1);
      if r < n - 1 || Ends(mode, world(r)) then r else n
  }

  /**
   * The task stops exactly with the first round that ends it, and says Expired exactly if
   * that round lost the lease.
   */
  lemma {:induction false} StopsExactly(mode: Mode, world: nat -> Round, leaseId: string, ttl: nat, n: nat)
    ensures var w, r := After(mode, world, Start(leaseId, ttl), n), EndingRound(mode, world, n);
            && (w.stopped <==> r < n)
            && (SaysExpired(w) <==> r < n && Loses(mode, world(r)))
  {
    if n > 0 {
      StopsExactly(mode, world, leaseId, ttl, n - 1);
      var before := After(mode, world, Start(leaseId, ttl), n - 1);
      if !before.stopped {
        RoundEnds(mode, world(n - 1), before);
      }
    }
  }

  // --- One round ---

  /** Attempt `n` was made, and the callback failed. */
  predicate Failed(t: Try, n: nat) {
    t.answer == Some(None) && !(n > 0 && t.cancelled)
  }

  /**
   * What a rotation with `k` failed attempts does: three are the end; otherwise the next one
   * brings a lease or is cancelled. In front of the second attempt the task waits for one
   * second, and in front of the third for two.
   */
  predicate RotatesAfter(k: nat, tries: nat -> Try, w: Watch, time: nat, w': Watch) {
    && k <= 3 && (forall j :: 0 <= j < k ==> Failed(tries(j), j)) && (k < 3 ==> !Failed(tries(k), k))
    && w'.timers == w.timers + [time] + (if k == 0 then [] else if k == 1 then [1_000_000_000]
                                         else [1_000_000_000, 2_000_000_000])
    && if k == 3 then
         w'.events == w.events + [Error(w.leaseId), Expired(w.leaseId)] && w'.stopped
         && w'.leaseId == w.leaseId && w'.ttl == w.ttl
       else match tries(k)
         case Try(cancelled, Some(Some(lease))) =>
           if k > 0 && cancelled then GivesUp(w, w')
           else
             w'.events == w.events + [Error(w.leaseId), Rotated(lease.0)] && !w'.stopped
             && w'.leaseId == lease.0 && w'.ttl == lease.1
         case _ => GivesUp(w, w')
  }

  predicate GivesUp(w: Watch, w': Watch) {
    w'.events == w.events + [Error(w.leaseId)] && w'.stopped && w'.leaseId == w.leaseId && w'.ttl == w.ttl
  }

  /** What one round does, case by case. */
  ghost predicate RoundIs(mode: Mode, r: Round, w: Watch, time: nat, w': Watch) {
    match (r.cancelled, r.renewal)
    case (false, Some(Some(secs))) =>
      var ttl := secs as nat * 1_000_000_000;
      w' == Watch(w.leaseId, ttl, w.events + [Renewed(w.leaseId, secs)], w.timers + [time], false)
    case (false, Some(None)) =>
      if mode.Rotate? then exists k :: RotatesAfter(k, r.tries, w, time, w')
      else
        w' == Watch(w.leaseId, w.ttl, w.events + [Error(w.leaseId), Expired(w.leaseId)], w.timers + [time], true)
    case _ => w' == Watch(w.leaseId, w.ttl, w.events, w.timers + [time], true)
  }

  lemma RotationIs(tries: nat -> Try, w: Watch, slept: Watch, time: nat)
    requires slept == w.(timers := w.timers + [time], events := w.events + [Error(w.leaseId)]) && !w.stopped
    ensures RotatesAfter(Deciding(tries, 0), tries, w, time, AfterRotation(tries, slept))
  {
    BackoffTimes();
    assert w.events + [Error(w.leaseId)] + [Expired(w.leaseId)] == w.events + [Error(w.leaseId), Expired(w.leaseId)];
    assert forall id :: w.events + [Error(w.leaseId)] + [Rotated(id)] == w.events + [Error(w.leaseId), Rotated(id)];
    assert w.timers + [time] + [] == w.timers + [time];
  }

  /** Every round starts with a sleep that fits the TTL, and goes on like this. */
  lemma RoundExactly(mode: Mode, r: Round, w: Watch)
    requires !w.stopped
    ensures SleepFits(w.ttl, r.jitterMs, SleepTime(w.ttl, r.jitterMs))
    ensures RoundIs(mode, r, w, SleepTime(w.ttl, r.jitterMs), AfterRound(mode, r, w))
  {
    var time := SleepTime(w.ttl, r.jitterMs);
    SleepExactly(w.ttl, r.jitterMs, 0);
    if mode.Rotate? && !r.cancelled && r.renewal == Some(None) {
      RotationIs(r.tries, w, w.(timers := w.timers + [time], events := w.events + [Error(w.leaseId)]), time);
    } else {
      assert w.events + [Error(w.leaseId)] + [Expired(w.leaseId)] == w.events + [Error(w.leaseId), Expired(w.leaseId)];
    }
  }

  lemma RoundAddsTimers(mode: Mode, r: Round, w: Watch)
    ensures w.timers + [SleepTime(w.ttl, r.jitterMs)] <= AfterRound(mode, r, w).timers
  {
  }

  lemma {:induction false} TimersGrow(mode: Mode, world: nat -> Round, w: Watch, m: nat, n: nat)
    requires m <= n
    ensures After(mode, world, w, m).timers <= After(mode, world, w, n).timers
  {
    if m < n {
      TimersGrow(mode, world, w, m, n - 1);
      RoundAddsTimers(mode, world(n - 1), After(mode, world, w, n - 1));
    }
  }

  lemma PrefixAt(a: seq<nat>, t: nat, b: seq<nat>, c: seq<nat>)
    requires a + [t] <= b && b <= c
    ensures |a| < |c| && c[|a|] == t
  {
    assert (a + [t])[|a|] == b[|a|] == c[|a|];
  }

  /** Of the timers of a task, the one that each round starts with fits the TTL at that moment. */
  lemma EverySleepFits(mode: Mode, world: nat -> Round, w: Watch, r: nat, n: nat)
    requires r < n && !After(mode, world, w, r).stopped
    ensures var before, timers := After(mode, world, w, r), After(mode, world, w, n).timers;
            && |before.timers| < |timers|
            && SleepFits(before.ttl, world(r).jitterMs, timers[|before.timers|])
  {
    var before := After(mode, world, w, r);
    RoundAddsTimers(mode, world(r), before);
    TimersGrow(mode, world, w, r + 1, n);
    PrefixAt(before.timers, SleepTime(before.ttl, world(r).jitterMs), After(mode, world, w, r + 1).timers,
             After(mode, world, w, n).timers);
    SleepExactly(before.ttl, world(r).jitterMs, 0);
  }

  // --- Proof steps for the step system ---

  /** The wait of the task notices a cancellation. */
  lemma CancelNow(mode: Mode, s0: State, run0: seq<Action>, mid: State) returns (run: seq<Action>, s: State)
    requires Leads(mode, s0, run0, mid) && Drained(mid)
    requires mid.pc.Sleeping? || mid.pc.Renewing? || mid.pc.BackingOff? || mid.pc.Rotating?
    ensures Leads(mode, s0, run, s) && s.pc.Stopped?
    ensures s.emitted == mid.emitted && s.leaseId == mid.leaseId && s.ttl == mid.ttl
  {
    run, s := Extend(mode, s0, run0, mid, Shutdown);
    run, s := Extend(mode, s0, run, s, SeeCancel);
  }

  lemma SleepAndWake(mode: Mode, s0: State, run0: seq<Action>, mid: State, jitterMs: nat)
    returns (run: seq<Action>, s: State)
    requires Leads(mode, s0, run0, mid) && Drained(mid) && mid.pc.LoopHead? && jitterMs < JITTER_MS
    ensures Leads(mode, s0, run, s)
    ensures s == mid.(pc := Renewing, now := mid.now + SleepTime(mid.ttl, jitterMs), renewals := s.renewals)
  {
    run, s := Extend(mode, s0, run0, mid, Go(jitterMs));
    run, s := Extend(mode, s0, run, s, Tick(SleepTime(mid.ttl, jitterMs)));
    run, s := Extend(mode, s0, run, s, Wake);
  }

  /** The back-off in front of a later attempt runs out. */
  lemma BackoffRunsOut(s0: State, run0: seq<Action>, mid: State) returns (run: seq<Action>, s: State)
    requires Leads(Rotate, s0, run0, mid) && mid.pc.BackingOff? && Drained(mid)
    ensures Leads(Rotate, s0, run, s) && s == mid.(pc := Rotating(mid.pc.n), now := s.now)
  {
    run, s := Extend(Rotate, s0, run0, mid, Tick(mid.pc.deadline));
    run, s := Extend(Rotate, s0, run, s, Wake);
  }

  // --- The rotation loop ---

  lemma DecidingFrom(tries: nat -> Try, n: nat)
    requires n <= ATTEMPTS && forall j :: 0 <= j < n ==> PlainFailure(tries(j), j)
    requires n == ATTEMPTS || !PlainFailure(tries(n), n)
    ensures Deciding(tries, 0) == n
  {
  }

  /** One attempt: the back-off and the callback, each raced against the cancellation. */
  method TryRotation(ghost s0: State, ghost run0: seq<Action>, ghost mid: State, w: Watch, n: nat, t: Try)
    returns (answer: Option<Option<(string, nat)>>, w': Watch, ghost run: seq<Action>, ghost s: State)
    requires Leads(Rotate, s0, run0, mid) && Drained(mid) && mid.pc == Attempt(n) && n < ATTEMPTS
    requires Follows(w, mid)
    ensures answer == if n > 0 && t.cancelled then None else t.answer
    ensures w' == w.(timers := w.timers + if n > 0 then [BackoffTime(n)] else [])
    ensures Leads(Rotate, s0, run, s) && Follows(w', s)
    ensures if answer.None? then s.pc.Stopped? else s.pc == Rotating(n) && Drained(s)
  {
    w' := w;
    run, s := Extend(Rotate, s0, run0, mid, Go(0));
    if n > 0 {
      w' := w'.(timers := w'.timers + [BackoffTime(n)]);
      if t.cancelled {
        run, s := CancelNow(Rotate, s0, run, s);
        return None, w', run, s;
      }
      run, s := BackoffRunsOut(s0, run, s);
    }
    answer := t.answer;
    if answer.None? {
      run, s := CancelNow(Rotate, s0, run, s);
    }
  }

  /**
   * Up to three attempts. The task is at the head of the loop again with the fresh lease, has
   * stopped, or has failed three times.
   */
  method RotateLease(ghost s0: State, ghost run0: seq<Action>, ghost mid: State, w: Watch, tries: nat -> Try)
    returns (rotated: bool, cancelled: bool, w': Watch, ghost run: seq<Action>, ghost s: State)
    requires Leads(Rotate, s0, run0, mid) && Drained(mid) && mid.pc == Attempt(0)
    requires Follows(w, mid)
    ensures Leads(Rotate, s0, run, s) && Follows(w', s)
    ensures var k := Deciding(tries, 0);
            && (rotated <==> k < ATTEMPTS && Succeeds(tries(k), k))
            && (cancelled <==> k < ATTEMPTS && !Succeeds(tries(k), k))
            && (rotated ==> w' == AfterRotation(tries, w))
            && (!rotated ==> w' == w.(timers := w.timers + Backoffs(k)))
    ensures rotated ==> s.pc.LoopHead? && Drained(s)
    ensures cancelled ==> s.pc.Stopped?
    ensures !rotated && !cancelled ==> s.pc == Attempt(3) && Drained(s)
  {
    rotated, cancelled, w' := false, false, w;
    run, s := run0, mid;
    for attempt := 0 to ATTEMPTS
      invariant !rotated && !cancelled
      invariant forall j :: 0 <= j < attempt ==> PlainFailure(tries(j), j)
      invariant w' == w.(timers := w.timers + Backoffs(if attempt == 0 then 0 else attempt - 1))
      invariant Leads(Rotate, s0, run, s) && Drained(s) && s.pc == Attempt(attempt) && Follows(w', s)
    {
      var answer;
      answer, w', run, s := TryRotation(s0, run, s, w', attempt, tries(attempt));
      match answer
      case Some(Some(lease)) =>
        w' := w'.(events := w'.events + [Rotated(lease.0)], leaseId := lease.0, ttl := lease.1);
        rotated := true;
        run, s := RotationSucceeds(s0, run, s, lease);
        DecidingFrom(tries, attempt);
        break;
      case Some(None) =>
        run, s := Extend(Rotate, s0, run, s, RotateDone(None));
      case None =>
        cancelled := true;
        DecidingFrom(tries, attempt);
        break;
    }
    if !rotated && !cancelled {
      DecidingFrom(tries, ATTEMPTS);
    }
  }

  // --- The two tasks ---

  /** The rotation, and the Expired event if it failed. */
  method RotateOrExpire(ghost s0: State, ghost run0: seq<Action>, ghost mid: State, w: Watch, tries: nat -> Try)
    returns (w': Watch, ghost run: seq<Action>, ghost s: State)
    requires Leads(Rotate, s0, run0, mid) && Drained(mid) && mid.pc == Attempt(0)
    requires Follows(w, mid) && !w.stopped
    ensures w' == AfterRotation(tries, w)
    ensures Leads(Rotate, s0, run, s) && Follows(w', s)
    ensures if w'.stopped then s.pc.Stopped? else s.pc.LoopHead? && Drained(s)
  {
    var rotated, cancelled;
    rotated, cancelled, w', run, s := RotateLease(s0, run0, mid, w, tries);
    if cancelled {
      w' := w'.(stopped := true);
    } else if !rotated {
      w' := w'.(events := w'.events + [Expired(w'.leaseId)], stopped := true);
      run, s := Extend(Rotate, s0, run, s, Go(0));
      run, s := SendAndReceive(Rotate, s0, run, s);
    }
  }

  /** The sleep and the renewal, each raced against the cancellation: no answer if that wins. */
  method SleepAndRenew(mode: Mode, ghost s0: State, ghost run0: seq<Action>, ghost mid: State, w: Watch, r: Round)
    returns (answer: Option<Option<u64>>, w': Watch, ghost run: seq<Action>, ghost s: State)
    requires Leads(mode, s0, run0, mid) && Drained(mid) && mid.pc.LoopHead? && Follows(w, mid) && !w.stopped
    ensures answer == if r.cancelled then None else r.renewal
    ensures w' == w.(timers := w.timers + [SleepTime(w.ttl, r.jitterMs)], stopped := answer.None?)
    ensures Leads(mode, s0, run, s) && Follows(w', s)
    ensures if w'.stopped then s.pc.Stopped? else s.pc.Renewing? && Drained(s)
  {
    w' := w.(timers := w.timers + [SleepTime(w.ttl, r.jitterMs)]);
    if r.cancelled {
      run, s := Extend(mode, s0, run0, mid, Go(r.jitterMs));
      run, s := CancelNow(mode, s0, run, s);
      return None, w'.(stopped := true), run, s;
    }
    run, s := SleepAndWake(mode, s0, run0, mid, r.jitterMs);
    answer := r.renewal;
    if answer.None? {
      run, s := CancelNow(mode, s0, run, s);
      w' := w'.(stopped := true);
    }
  }

  /** A task that has stopped does nothing in later rounds. */
  lemma {:induction false} StoppedStays(mode: Mode, world: nat -> Round, w: Watch, n: nat, m: nat)
    requires n <= m && After(mode, world, w, n).stopped
    ensures After(mode, world, w, m) == After(mode, world, w, n)
  {
    if n < m {
      StoppedStays(mode, world, w, n, m - 1);
    }
  }

  /** The first `rounds` rounds of the `watch_lease_rotate` task. */
  method WatchLeaseRotate(leaseId: string, ttl: nat, world: nat -> Round, rounds: nat)
    returns (w: Watch, ghost run: seq<Action>, ghost s: State)
    ensures w == After(Rotate, world, Start(leaseId, ttl), rounds)
    ensures Leads(Rotate, Init(leaseId, ttl), run, s) && Follows(w, s)
    ensures if w.stopped then s.pc.Stopped? else s.pc.LoopHead?
    ensures RotateTrace(leaseId, w.events)
  {
    w := Start(leaseId, ttl);
    run, s := [], Init(leaseId, ttl);
    ghost var s0 := s;
    for round := 0 to rounds
      invariant w == After(Rotate, world, Start(leaseId, ttl), round) && !w.stopped
      invariant Leads(Rotate, s0, run, s) && Follows(w, s) && Drained(s) && s.pc.LoopHead?
    {
      var answer;
      answer, w, run, s := SleepAndRenew(Rotate, s0, run, s, w, world(round));
      match answer {
        case None =>
        case Some(Some(secs)) =>
          w := w.(events := w.events + [Renewed(w.leaseId, secs)], ttl := FromSecs(secs));
          run, s := RenewalAnswered(Rotate, s0, run, s, Some(secs));
        case Some(None) =>
          w := w.(events := w.events + [Error(w.leaseId)]);
          run, s := RenewalAnswered(Rotate, s0, run, s, None);
          w, run, s := RotateOrExpire(s0, run, s, w, world(round).tries);
      }
      if w.stopped {
        StoppedStays(Rotate, world, Start(leaseId, ttl), round + 1, rounds);
        break;
      }
    }
    EveryRunEmitsATrace(Rotate, leaseId, ttl, run);
  }

  /** The first `rounds` rounds of the `watch_lease_events` task. */
  method WatchLeaseEvents(leaseId: string, ttl: nat, world: nat -> Round, rounds: nat)
    returns (w: Watch, ghost run: seq<Action>, ghost s: State)
    ensures w == After(Report, world, Start(leaseId, ttl), rounds)
    ensures Leads(Report, Init(leaseId, ttl), run, s) && Follows(w, s)
    ensures if w.stopped then s.pc.Stopped? else s.pc.LoopHead?
    ensures ReportTrace(leaseId, w.events)
  {
    w := Start(leaseId, ttl);
    run, s := [], Init(leaseId, ttl);
    ghost var s0 := s;
    for round := 0 to rounds
      invariant w == After(Report, world, Start(leaseId, ttl), round) && !w.stopped
      invariant Leads(Report, s0, run, s) && Follows(w, s) && Drained(s) && s.pc.LoopHead?
    {
      var answer;
      answer, w, run, s := SleepAndRenew(Report, s0, run, s, w, world(round));
      match answer {
        case None =>
        case Some(Some(secs)) =>
          w := w.(events := w.events + [Renewed(w.leaseId, secs)], ttl := FromSecs(secs));
          run, s := RenewalAnswered(Report, s0, run, s, Some(secs));
        case Some(None) =>
          w := w.(events := w.events + [Error(w.leaseId)]);
          w := w.(events := w.events + [Expired(w.leaseId)], stopped := true);
          run, s := RenewalAnswered(Report, s0, run, s, None);
          run, s := SendAndReceive(Report, s0, run, s);
      }
      if w.stopped {
        StoppedStays(Report, world, Start(leaseId, ttl), round + 1, rounds);
        break;
      }
    }
    EveryRunEmitsATrace(Report, leaseId, ttl, run);
  }
}
