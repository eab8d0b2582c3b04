/** The circuit breaker: its three mutex-protected operations, and every history of them. */
module CircuitBreaker {
  import opened Common

  datatype Config = Config(failureThreshold: u32, resetTimeout: nat)

  datatype State =
    | Closed(consecutiveFailures: u32)
    | Open(since: nat)
    | HalfOpen(since: nat)

  /** Failures in a row that open the circuit. A threshold of 0 acts like 1. */
  function TripCount(c: Config): nat {
    Max(1, c.failureThreshold as nat)
  }

  /** What every operation keeps; it leaves room for one more `+ 1` in a `u32`. */
  predicate WellFormed(c: Config, s: State) {
    s.Closed? ==> s.consecutiveFailures as nat < TripCount(c)
  }

  /** `since.elapsed()`, which is zero for an instant in the future. */
  function Elapsed(since: nat, now: nat): nat {
    if now >= since then now - since else 0
  }

  /** A check at clock reading `now` lets the request through. */
  predicate Admits(c: Config, s: State, now: nat) {
    s.Closed? || Elapsed(s.since, now) >= c.resetTimeout
  }

  /**
   * One critical section. A check reads the clock twice: `at` to measure the elapsed time
   * and `stamp` for the new probe. A call that is dropped between its check and its record
   * simply leaves no record behind.
   */
  datatype Op =
    | Check(at: nat, stamp: nat)
    | Success
    | Failure(at: nat)

  function Apply(c: Config, s: State, op: Op): (s': State)
    requires WellFormed(c, s)
    ensures WellFormed(c, s')
  {
    match op
    case Check(at, stamp) =>
      if s.Closed? || !Admits(c, s, at) then s else HalfOpen(stamp)
    case Success => Closed(0)
    case Failure(at) =>
      match s
      case Closed(n) => if n as nat + 1 >= c.failureThreshold as nat then Open(at) else Closed(n + 1)
      case HalfOpen(_) => Open(at)
      case Open(_) => s
  }

  function Run(c: Config, s: State, ops: seq<Op>): (s': State)
    requires WellFormed(c, s)
    ensures WellFormed(c, s')
  {
    if ops == [] then s else Apply(c, Run(c, s, ops[..|ops| - 1]), ops[|ops| - 1])
  }

  /** The breaker object, with the operations that it has seen. */
  class CircuitBreaker {
    const config: Config
    var state: State
    ghost var history: seq<Op>

    ghost predicate Valid()
      reads this
    {
      WellFormed(config, state) && state == Run(config, Closed(0), history)
    }

    constructor (config: Config)
      ensures Valid() && this.config == config && state == Closed(0) && history == []
    {
      this.config := config;
      state := Closed(0);
      history := [];
    }

    /** `at` and `stamp` are the two clock readings. */
    method Check(at: nat, stamp: nat) returns (admitted: bool)
      requires Valid()
      modifies this
      ensures Valid()
      ensures admitted <==> Admits(config, old(state), at)
      ensures state == Apply(config, old(state), Op.Check(at, stamp))
      ensures history == old(history) + [Op.Check(at, stamp)]
    {
      RunOne(config, history, Op.Check(at, stamp));
      history := history + [Op.Check(at, stamp)];
      match state
      case Closed(_) => return true;
      case Open(since) =>
        if Elapsed(since, at) >= config.resetTimeout {
          state := HalfOpen(stamp);
          return true;
        }
        return false;
      case HalfOpen(since) =>
        if Elapsed(since, at) >= config.resetTimeout {
          state := HalfOpen(stamp);
          return true;
        }
        return false;
    }

    method RecordSuccess()
      requires Valid()
      modifies this
      ensures Valid()
      ensures state == Apply(config, old(state), Success)
      ensures history == old(history) + [Success]
    {
      RunOne(config, history, Success);
      history := history + [Success];
      state := Closed(0);
    }

    method RecordFailure(at: nat)
      requires Valid()
      modifies this
      ensures Valid()
      ensures state == Apply(config, old(state), Failure(at))
      ensures history == old(history) + [Failure(at)]
    {
      RunOne(config, history, Failure(at));
      history := history + [Failure(at)];
      match state
      case Closed(n) =>
        var newCount: u32 := n + 1; // stays in range because of Valid()
        if newCount >= config.failureThreshold {
          state := Open(at);
        } else {
          state := Closed(newCount);
        }
      case HalfOpen(_) => state := Open(at);
      case Open(_) =>
    }

    /** Any operations of other calls, in the order in which they take the mutex. */
    method Interleave(ops: seq<Op>)
      requires Valid()
      modifies this
      ensures Valid()
      ensures state == Run(config, old(state), ops)
      ensures history == old(history) + ops
    {
      for i := 0 to |ops|
        invariant Valid()
        invariant state == Run(config, old(state), ops[..i])
        invariant history == old(history) + ops[..i]
      {
        assert ops[..i + 1] == ops[..i] + [ops[i]];
        assert ops[..i + 1][..i] == ops[..i];
        match ops[i]
        case Check(at, stamp) => var _ := Check(at, stamp);
        case Success => RecordSuccess();
        case Failure(at) => RecordFailure(at);
      }
      assert ops[..|ops|] == ops;
    }
  }

  lemma RunOne(c: Config, history: seq<Op>, op: Op)
    ensures Run(c, Closed(0), history + [op]) == Apply(c, Run(c, Closed(0), history), op)
  {
    assert (history + [op])[..|history|] == history;
  }

  lemma {:induction false} RunConcat(c: Config, s: State, a: seq<Op>, b: seq<Op>)
    requires WellFormed(c, s)
    ensures Run(c, s, a + b) == Run(c, Run(c, s, a), b)
    decreases |b|
  {
    if b == [] {
      assert a + b == a;
    } else {
      assert (a + b)[..|a + b| - 1] == a + b[..|b| - 1];
      RunConcat(c, s, a, b[..|b| - 1]);
    }
  }

  // --- Counting failures ---

  /** Failures recorded since the last recorded success, or since the start. */
  function FailuresSinceSuccess(ops: seq<Op>): nat {
    if ops == [] || ops[|ops| - 1].Success? then 0
    else FailuresSinceSuccess(ops[..|ops| - 1]) + if ops[|ops| - 1].Failure? then 1 else 0
  }

  /**
   * The circuit is closed, and lets everybody through, exactly while too few failures were
   * recorded, and its counter is exact.
   */
  lemma {:induction false} ClosedIffFewFailures(c: Config, ops: seq<Op>)
    ensures Run(c, Closed(0), ops).Closed? <==> FailuresSinceSuccess(ops) < TripCount(c)
    ensures var s := Run(c, Closed(0), ops);
            s.Closed? ==> s.consecutiveFailures as nat == FailuresSinceSuccess(ops)
    ensures FailuresSinceSuccess(ops) < TripCount(c) ==> forall now :: Admits(c, Run(c, Closed(0), ops), now)
  {
    if ops != [] {
      ClosedIffFewFailures(c, ops[..|ops| - 1]);
    }
  }

  // --- The last move ---

  /** The timeout since `since` is over. A clock reading from before counts as `since`. */
  predicate IsOver(c: Config, since: nat, now: nat) {
    now >= since + c.resetTimeout || c.resetTimeout == 0
  }

  /** A failure recorded after this history opens the circuit: the last straw, or a failed probe. */
  predicate Opens(c: Config, before: seq<Op>)
    decreases |before|, 1
  {
    FailuresSinceSuccess(before) + 1 == TripCount(c) || Probing(c, before)
  }

  /**
   * Operation `op` after history `before` opens the circuit, or lets a probe through. The
   * definition only looks at what was recorded and at the readings of the clock.
   */
  predicate Moves(c: Config, before: seq<Op>, op: Op)
    decreases |before|, 2
  {
    match op
    case Check(at, _) =>
      FailuresSinceSuccess(before) >= TripCount(c) && IsOver(c, LastMove(c, before), at)
    case Failure(_) => Opens(c, before)
    case Success => false
  }

  /** The clock reading of the last move; refused checks and failures of late calls leave it alone. */
  function LastMove(c: Config, ops: seq<Op>): nat
    decreases |ops|, 0
  {
    if ops == [] then 0
    else
      var before, op := ops[..|ops| - 1], ops[|ops| - 1];
      if Moves(c, before, op) then (if op.Check? then op.stamp else op.at) else LastMove(c, before)
  }

  /** The last move let a probe through, and nothing was recorded since. */
  predicate Probing(c: Config, ops: seq<Op>)
    decreases |ops|, 0
  {
    && ops != []
    && var before, op := ops[..|ops| - 1], ops[|ops| - 1];
       op.Check? && (Moves(c, before, op) || Probing(c, before))
  }

  /** The state after any history, told from the history alone. */
  lemma {:induction false} StateOfHistory(c: Config, ops: seq<Op>)
    ensures Run(c, Closed(0), ops) ==
            if FailuresSinceSuccess(ops) < TripCount(c) then Closed(FailuresSinceSuccess(ops) as u32)
            else if Probing(c, ops) then HalfOpen(LastMove(c, ops))
            else Open(LastMove(c, ops))
    ensures Probing(c, ops) ==> FailuresSinceSuccess(ops) >= TripCount(c)
  {
    if ops != [] {
      var before, op := ops[..|ops| - 1], ops[|ops| - 1];
      StateOfHistory(c, before);
      assert op.Check? ==> (Moves(c, before, op) <==>
        !Run(c, Closed(0), before).Closed? && Admits(c, Run(c, Closed(0), before), op.at));
      assert op.Failure? ==> (Moves(c, before, op) <==> Opens(c, before));
    }
  }

  /**
   * The breaker never gets stuck: a check is let through exactly when too few failures were
   * recorded, or the timeout has passed since the last move. Refused checks and abandoned
   * probes do not put this off.
   */
  lemma RecoversExactly(c: Config, ops: seq<Op>, now: nat)
    ensures Admits(c, Run(c, Closed(0), ops), now) <==>
              FailuresSinceSuccess(ops) < TripCount(c) || IsOver(c, LastMove(c, ops), now)
  {
    StateOfHistory(c, ops);
  }

  // --- Time ---

  /** The clock after an operation, if it read the clock. */
  function OpClock(clock: nat, op: Op): nat {
    match op
    case Check(_, stamp) => stamp
    case Failure(at) => at
    case Success => clock
  }

  predicate OpInTime(clock: nat, op: Op) {
    match op
    case Check(at, stamp) => clock <= at <= stamp
    case Failure(at) => clock <= at
    case Success => true
  }

  /** The latest clock reading of a history that started at `t0`. */
  function Clock(t0: nat, ops: seq<Op>): nat {
    if ops == [] then t0 else OpClock(Clock(t0, ops[..|ops| - 1]), ops[|ops| - 1])
  }

  /** Clock readings never decrease: the clock is monotone and the operations exclude each other. */
  predicate Timed(t0: nat, ops: seq<Op>) {
    ops == [] || (Timed(t0, ops[..|ops| - 1]) && OpInTime(Clock(t0, ops[..|ops| - 1]), ops[|ops| - 1]))
  }

  predicate NoSuccess(ops: seq<Op>) {
    forall i :: 0 <= i < |ops| ==> !ops[i].Success?
  }

  /** Times at least `gap` apart, all at least `gap` after `start`. */
  predicate SpacedFrom(start: nat, gap: nat, times: seq<nat>) {
    && (times != [] ==> times[0] >= start + gap)
    && forall i :: 0 <= i < |times| - 1 ==> times[i + 1] >= times[i] + gap
  }

  /** The admission that an operation stands for, if any. */
  function Admission(c: Config, s: State, op: Op): seq<nat> {
    if op.Check? && Admits(c, s, op.at) then [op.at] else []
  }

  /** The times of the checks that were let through. */
  function Admissions(c: Config, s: State, ops: seq<Op>): seq<nat>
    requires WellFormed(c, s)
  {
    if ops == [] then []
    else
      Admissions(c, s, ops[..|ops| - 1])
      + Admission(c, Run(c, s, ops[..|ops| - 1]), ops[|ops| - 1])
  }

  /** An open or half-open circuit was last touched no earlier than its latest admission. */
  predicate ProbeInv(c: Config, start: nat, times: seq<nat>, s: State, clock: nat) {
    && !s.Closed? && s.since <= clock
    && SpacedFrom(start, c.resetTimeout, times)
    && s.since >= if times == [] then start else times[|times| - 1]
  }

  lemma NextKeepsProbes(c: Config, start: nat, times: seq<nat>, s: State, clock: nat, op: Op)
    requires ProbeInv(c, start, times, s, clock) && !op.Success? && OpInTime(clock, op)
    ensures ProbeInv(c, start, times + Admission(c, s, op), Apply(c, s, op), OpClock(clock, op))
  {
  }

  /** Between successes, an open circuit lets probes through no faster than one per timeout. */
  lemma {:induction false} ProbesAreSpaced(c: Config, s: State, t0: nat, ops: seq<Op>)
    requires !s.Closed? && s.since <= t0
    requires Timed(t0, ops) && NoSuccess(ops)
    ensures ProbeInv(c, s.since, Admissions(c, s, ops), Run(c, s, ops), Clock(t0, ops))
  {
    if ops != [] {
      var before := ops[..|ops| - 1];
      assert forall i :: 0 <= i < |before| ==> before[i] == ops[i];
      ProbesAreSpaced(c, s, t0, before);
      NextKeepsProbes(c, s.since, Admissions(c, s, before), Run(c, s, before), Clock(t0, before), ops[|ops| - 1]);
    }
  }

  /**
   * A failure opens the circuit at `at`: from then on, until a success is recorded, the first
   * admission comes a timeout later and the others are a timeout apart.
   */
  lemma SpacedAfterOpening(c: Config, before: seq<Op>, at: nat, after: seq<Op>)
    requires Opens(c, before) && Timed(at, after) && NoSuccess(after)
    ensures var tripped := Run(c, Closed(0), before + [Failure(at)]);
            && tripped == Open(at)
            && SpacedFrom(at, c.resetTimeout, Admissions(c, tripped, after))
            && Run(c, Closed(0), before + [Failure(at)] + after) == Run(c, tripped, after)
            && !Run(c, tripped, after).Closed?
  {
    var history := before + [Failure(at)];
    assert history[..|history| - 1] == before;
    StateOfHistory(c, before);
    RunConcat(c, Closed(0), history, after);
    ProbesAreSpaced(c, Run(c, Closed(0), history), at, after);
  }

  /** `n` admissions take at least `n - 1` timeouts. */
  lemma {:induction false} AdmissionRate(start: nat, gap: nat, times: seq<nat>, i: nat, j: nat)
    requires SpacedFrom(start, gap, times) && i <= j < |times|
    ensures times[j] - times[i] >= (j - i) * gap
    decreases j
  {
    if i < j {
      AdmissionRate(start, gap, times, i, j - 1);
      assert (j - i) * gap == (j - 1 - i) * gap + gap;
    }
  }

  /** With a clock that does not go back, the last move is in the past. */
  lemma {:induction false} LastMoveIsPast(c: Config, ops: seq<Op>)
    requires Timed(0, ops)
    ensures LastMove(c, ops) <= Clock(0, ops)
  {
    if ops != [] {
      LastMoveIsPast(c, ops[..|ops| - 1]);
    }
  }

  /**
   * Whatever happened before, probes abandoned without a record included, a check one
   * timeout after the last move is let through, and so is any check one timeout after the
   * last operation.
   */
  lemma AlwaysRecovers(c: Config, ops: seq<Op>, now: nat)
    requires now >= LastMove(c, ops) + c.resetTimeout || (Timed(0, ops) && now >= Clock(0, ops) + c.resetTimeout)
    ensures Admits(c, Run(c, Closed(0), ops), now)
  {
    RecoversExactly(c, ops, now);
    if Timed(0, ops) {
      LastMoveIsPast(c, ops);
    }
  }

  // --- Late successes ---

  /** Calls that were let through and have recorded nothing yet. */
  function InFlight(c: Config, ops: seq<Op>): int {
    if ops == [] then 0
    else
      var before, op := ops[..|ops| - 1], ops[|ops| - 1];
      InFlight(c, before) + if op.Check? then |Admission(c, Run(c, Closed(0), before), op)| else -1
  }

  /** Every record was made by a call that had been let through. */
  predicate Feasible(c: Config, ops: seq<Op>) {
    ops == [] || (Feasible(c, ops[..|ops| - 1]) && InFlight(c, ops) >= 0)
  }

  /**
   * A success closes the circuit even when it belongs to a call that was let through before
   * the circuit opened: however it opened, and even if no probe was let through since.
   */
  lemma LateSuccessCloses(c: Config, before: seq<Op>, at: nat, after: seq<Op>)
    requires Opens(c, before) && NoSuccess(after)
    ensures var ops := before + [Failure(at)] + after;
            !Run(c, Closed(0), ops).Closed? && Run(c, Closed(0), ops + [Success]) == Closed(0)
  {
    var ops := before + [Failure(at)] + after;
    assert (ops + [Success])[..|ops|] == ops;
    StaysOpen(c, before, at, after);
  }

  lemma {:induction false} StaysOpen(c: Config, before: seq<Op>, at: nat, after: seq<Op>)
    requires Opens(c, before) && NoSuccess(after)
    ensures FailuresSinceSuccess(before + [Failure(at)] + after) >= TripCount(c)
    ensures !Run(c, Closed(0), before + [Failure(at)] + after).Closed?
    decreases |after|
  {
    var ops := before + [Failure(at)] + after;
    if after == [] {
      assert ops == before + [Failure(at)] && ops[..|ops| - 1] == before;
      StateOfHistory(c, before);
    } else {
      var shorter := after[..|after| - 1];
      assert ops[..|ops| - 1] == before + [Failure(at)] + shorter;
      assert forall i :: 0 <= i < |shorter| ==> shorter[i] == after[i];
      StaysOpen(c, before, at, shorter);
    }
    ClosedIffFewFailures(c, ops);
  }

  /** A check of a closed circuit puts one more call under way. */
  lemma CheckWhenClosed(c: Config, ops: seq<Op>, at: nat)
    requires Run(c, Closed(0), ops).Closed? && Feasible(c, ops) && InFlight(c, ops) >= 0
    ensures var more := ops + [Check(at, at)];
            && Feasible(c, more) && InFlight(c, more) == InFlight(c, ops) + 1
            && FailuresSinceSuccess(more) == FailuresSinceSuccess(ops)
            && Run(c, Closed(0), more) == Run(c, Closed(0), ops)
  {
    assert (ops + [Check(at, at)])[..|ops|] == ops;
  }

  /** A record takes one call off. */
  lemma Recorded(c: Config, ops: seq<Op>, op: Op)
    requires !op.Check? && Feasible(c, ops) && InFlight(c, ops) >= 1
    ensures var more := ops + [op];
            && Feasible(c, more) && InFlight(c, more) == InFlight(c, ops) - 1
            && FailuresSinceSuccess(more) == (if op.Success? then 0 else FailuresSinceSuccess(ops) + 1)
            && Run(c, Closed(0), more) == Apply(c, Run(c, Closed(0), ops), op)
  {
    assert (ops + [op])[..|ops|] == ops;
  }

  lemma TwoCalls(c: Config, at: nat) returns (ops: seq<Op>)
    ensures Feasible(c, ops) && InFlight(c, ops) == 2 && FailuresSinceSuccess(ops) == 0 && NoSuccess(ops)
  {
    var first: seq<Op> := [] + [Check(at, at)];
    CheckWhenClosed(c, [], at);
    CheckWhenClosed(c, first, at);
    ops := first + [Check(at, at)];
  }

  /** For every threshold there is such a history: `n` calls have failed and two are under way. */
  lemma {:induction false} TwoCallsLeft(c: Config, at: nat, n: nat) returns (ops: seq<Op>)
    requires n < TripCount(c)
    ensures Feasible(c, ops) && InFlight(c, ops) == 2 && FailuresSinceSuccess(ops) == n && NoSuccess(ops)
  {
    if n == 0 {
      ops := TwoCalls(c, at);
    } else {
      var before := TwoCallsLeft(c, at, n - 1);
      Recorded(c, before, Failure(at));
      ClosedIffFewFailures(c, before + [Failure(at)]);
      CheckWhenClosed(c, before + [Failure(at)], at);
      ops := before + [Failure(at)] + [Check(at, at)];
    }
  }

  /** So with every threshold a late success can close a circuit that has just opened. */
  lemma LateSuccessIsPossible(c: Config, at: nat) returns (ops: seq<Op>)
    ensures Feasible(c, ops + [Success]) && NoSuccess(ops)
    ensures Run(c, Closed(0), ops) == Open(at) && Run(c, Closed(0), ops + [Success]) == Closed(0)
  {
    var before := TwoCallsLeft(c, at, TripCount(c) - 1);
    ClosedIffFewFailures(c, before);
    Recorded(c, before, Failure(at));
    ops := before + [Failure(at)];
    Recorded(c, ops, Success);
  }
}
