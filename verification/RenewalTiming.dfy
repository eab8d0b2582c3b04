/** Timing of the lease watchers. */
module RenewalTiming {
  import opened Common
  import LeaseWatcher
  import WatcherShutdown

  // --- Watchers ---

  /**
   * `time` is the sleep for this TTL and jitter, in nanoseconds: 33/50 of the TTL, rounded
   * down, and the jitter, but at least one second.
   */
  predicate SleepFits(ttl: nat, jitterMs: nat, time: nat) {
    && time >= 1_000_000_000
    && 50 * (time - jitterMs * 1_000_000) > 33 * ttl - 50
    && (time > 1_000_000_000 ==> 50 * (time - jitterMs * 1_000_000) <= 33 * ttl)
  }

  /** Some jitter below five seconds explains the sleep. */
  ghost predicate SleepsFor(ttl: nat, time: nat) {
    exists jitterMs: nat :: jitterMs < 5000 && SleepFits(ttl, jitterMs, time)
  }

  lemma SleepExactly(ttl: nat, jitterMs: nat, time: nat)
    ensures SleepFits(ttl, jitterMs, LeaseWatcher.SleepTime(ttl, jitterMs))
    ensures SleepFits(ttl, jitterMs, time) && time > 1_000_000_000 ==> time == LeaseWatcher.SleepTime(ttl, jitterMs)
  {
    var base := ttl * 33 / 50;
    assert 50 * base <= 33 * ttl < 50 * base + 50;
  }

  /** A TTL of more than 14.702941176 seconds, in nanoseconds. */
  predicate LongEnough(ttl: nat) {
    17 * ttl > 50 * 4_999_000_000
  }

  /** Waking before the TTL is over, for every jitter, takes exactly a TTL that is long enough. */
  lemma WakesInTimeExactly(ttl: nat)
    ensures (forall jitterMs: nat :: jitterMs < 5000 ==> LeaseWatcher.SleepTime(ttl, jitterMs) < ttl)
            <==> LongEnough(ttl)
  {
    var base := ttl * 33 / 50;
    assert 50 * base <= 33 * ttl < 50 * base + 50;
    if !LongEnough(ttl) {
      assert LeaseWatcher.SleepTime(ttl, LeaseWatcher.JITTER_MS - 1) >= ttl;
    }
  }

  /** In whole seconds that is 15, and not 14. */
  lemma FifteenSeconds(secs: u64)
    ensures LongEnough(FromSecs(secs)) <==> secs >= 15
  {
  }

  predicate AtLeastApart(times: seq<nat>, gap: nat) {
    forall i :: 0 < i < |times| ==> times[i] >= times[i - 1] + gap
  }

  /** The renewals so far are a second apart, and the next one will be, too. */
  predicate Paced(s: LeaseWatcher.State) {
    && AtLeastApart(s.renewals, SECOND)
    && (s.renewals != [] ==>
          var last := s.renewals[|s.renewals| - 1];
          last <= s.now && (s.pc.Sleeping? ==> last + SECOND <= s.pc.deadline))
  }

  lemma NextKeepsPace(mode: LeaseWatcher.Mode, s: LeaseWatcher.State, a: LeaseWatcher.Action)
    requires Paced(s) && LeaseWatcher.Next(mode, s, a).Some?
    ensures Paced(LeaseWatcher.Next(mode, s, a).value)
  {
  }

  /** Whatever the TTLs, zero included, renewals are sent at least one second apart. */
  lemma {:induction false} RenewalsArePaced(mode: LeaseWatcher.Mode, leaseId: string, ttl: nat,
                                            run: seq<LeaseWatcher.Action>)
    requires LeaseWatcher.Run(mode, LeaseWatcher.Init(leaseId, ttl), run).Some?
    ensures Paced(LeaseWatcher.Run(mode, LeaseWatcher.Init(leaseId, ttl), run).value)
  {
    if run != [] {
      var before := run[..|run| - 1];
      RenewalsArePaced(mode, leaseId, ttl, before);
      NextKeepsPace(mode, LeaseWatcher.Run(mode, LeaseWatcher.Init(leaseId, ttl), before).value, run[|run| - 1]);
    }
  }

  /** The renewals that were answered in a run. */
  function AnsweredRenewals(run: seq<LeaseWatcher.Action>): nat {
    if run == [] then 0 else AnsweredRenewals(run[..|run| - 1]) + if run[|run| - 1].RenewDone? then 1 else 0
  }

  /** In every run each renewal is on record: those that were answered, and the one that is under way or was dropped. */
  lemma {:induction false} RenewalsAreOnRecord(mode: LeaseWatcher.Mode, leaseId: string, ttl: nat,
                                               run: seq<LeaseWatcher.Action>)
    requires LeaseWatcher.Run(mode, LeaseWatcher.Init(leaseId, ttl), run).Some?
    ensures var s, n := LeaseWatcher.Run(mode, LeaseWatcher.Init(leaseId, ttl), run).value, AnsweredRenewals(run);
            if s.pc.Renewing? then |s.renewals| == n + 1
            else if s.pc.Stopped? then n <= |s.renewals| <= n + 1
            else |s.renewals| == n
  {
    if run != [] {
      RenewalsAreOnRecord(mode, leaseId, ttl, run[..|run| - 1]);
    }
  }

  /** So `k` renewals take at least `k - 1` seconds. */
  lemma {:induction false} RenewalRate(times: seq<nat>, gap: nat, i: nat, j: nat)
    requires AtLeastApart(times, gap) && i <= j < |times|
    ensures times[j] - times[i] >= (j - i) * gap
    decreases j
  {
    if i < j {
      RenewalRate(times, gap, i, j - 1);
      assert (j - i) * gap == (j - 1 - i) * gap + gap;
    }
  }

  /** The TTL of the lease that the task watches: the latest that was granted, or the initial one. */
  function CurrentTtl(ttl: nat, run: seq<LeaseWatcher.Action>): nat {
    if run == [] then ttl
    else match run[|run| - 1]
      case RenewDone(Some(secs)) => FromSecs(secs)
      case RotateDone(Some(lease)) => lease.1
      case _ => CurrentTtl(ttl, run[..|run| - 1])
  }

  /** The task has the TTL `ttl`, or is about to adopt it, and sleeps as long as it says. */
  predicate SleepsByTtl(s: LeaseWatcher.State, ttl: nat) {
    && (if s.pc.Sending? && s.pc.next.ToAdopt? then s.pc.next.ttl == ttl else s.ttl == ttl)
    && (s.pc.Sleeping? ==>
          s.pc.start <= s.now
          && exists jitterMs: nat :: jitterMs < LeaseWatcher.JITTER_MS
               && s.pc.deadline == s.pc.start + LeaseWatcher.SleepTime(ttl, jitterMs))
  }

  lemma NextSleepsByTtl(mode: LeaseWatcher.Mode, s: LeaseWatcher.State, a: LeaseWatcher.Action, ttl: nat)
    requires SleepsByTtl(s, ttl) && LeaseWatcher.Next(mode, s, a).Some?
    ensures SleepsByTtl(LeaseWatcher.Next(mode, s, a).value,
                        match a
                        case RenewDone(Some(secs)) => FromSecs(secs)
                        case RotateDone(Some(lease)) => lease.1
                        case _ => ttl)
  {
  }

  lemma {:induction false} RunSleepsByTtl(mode: LeaseWatcher.Mode, leaseId: string, ttl: nat,
                                          run: seq<LeaseWatcher.Action>)
    requires LeaseWatcher.Run(mode, LeaseWatcher.Init(leaseId, ttl), run).Some?
    ensures SleepsByTtl(LeaseWatcher.Run(mode, LeaseWatcher.Init(leaseId, ttl), run).value, CurrentTtl(ttl, run))
  {
    if run != [] {
      var before := run[..|run| - 1];
      RunSleepsByTtl(mode, leaseId, ttl, before);
      NextSleepsByTtl(mode, LeaseWatcher.Run(mode, LeaseWatcher.Init(leaseId, ttl), before).value,
                      run[|run| - 1], CurrentTtl(ttl, before));
    }
  }

  /**
   * In every run, whether its TTL is the initial one or came with a renewal or a rotation, a
   * sleeping task sleeps 33/50 of that TTL and a jitter, and at least a second. If the TTL is
   * long enough, it is set to wake before it is over.
   */
  lemma SleepsEndBeforeTheLease(mode: LeaseWatcher.Mode, leaseId: string, ttl: nat, run: seq<LeaseWatcher.Action>)
    requires LeaseWatcher.Run(mode, LeaseWatcher.Init(leaseId, ttl), run).Some?
    requires LeaseWatcher.Run(mode, LeaseWatcher.Init(leaseId, ttl), run).value.pc.Sleeping?
    ensures var s := LeaseWatcher.Run(mode, LeaseWatcher.Init(leaseId, ttl), run).value;
            && s.pc.start <= s.now && s.pc.start <= s.pc.deadline
            && SleepsFor(CurrentTtl(ttl, run), s.pc.deadline - s.pc.start)
            && (LongEnough(CurrentTtl(ttl, run)) ==> s.pc.deadline < s.pc.start + CurrentTtl(ttl, run))
  {
    RunSleepsByTtl(mode, leaseId, ttl, run);
    WakesInTimeExactly(CurrentTtl(ttl, run));
    var s := LeaseWatcher.Run(mode, LeaseWatcher.Init(leaseId, ttl), run).value;
    var jitterMs: nat :| jitterMs < LeaseWatcher.JITTER_MS
      && s.pc.deadline == s.pc.start + LeaseWatcher.SleepTime(CurrentTtl(ttl, run), jitterMs);
    SleepExactly(CurrentTtl(ttl, run), jitterMs, 0);
  }

  /** All runs that watch a lease with this TTL from the start wake in time. */
  ghost predicate AlwaysInTime(mode: LeaseWatcher.Mode, leaseId: string, ttl: nat) {
    forall run, s ::
      WatcherShutdown.Leads(mode, LeaseWatcher.Init(leaseId, ttl), run, s)
      && s.pc.Sleeping? && CurrentTtl(ttl, run) == ttl
      ==> s.pc.deadline < s.pc.start + ttl
  }

  /** The bound is exact, to the nanosecond. */
  lemma InTimeExactly(mode: LeaseWatcher.Mode, leaseId: string, ttl: nat)
    ensures AlwaysInTime(mode, leaseId, ttl) <==> LongEnough(ttl)
  {
    if LongEnough(ttl) {
      forall run, s |
        WatcherShutdown.Leads(mode, LeaseWatcher.Init(leaseId, ttl), run, s)
        && s.pc.Sleeping? && CurrentTtl(ttl, run) == ttl
        ensures s.pc.deadline < s.pc.start + ttl
      {
        SleepsEndBeforeTheLease(mode, leaseId, ttl, run);
      }
    } else {
      WakesInTimeExactly(ttl);
      var jitterMs: nat :| jitterMs < LeaseWatcher.JITTER_MS && LeaseWatcher.SleepTime(ttl, jitterMs) >= ttl;
      var init := LeaseWatcher.Init(leaseId, ttl);
      var run, s := WatcherShutdown.Extend(mode, init, [], init, LeaseWatcher.Go(jitterMs));
      assert CurrentTtl(ttl, run) == CurrentTtl(ttl, run[..0]);
    }
  }

  /**
   * Failed rotation attempts are one second and then two seconds apart, or more, and the timer
   * in between is set to one and then two seconds from the moment when the task starts it.
   */
  predicate BacksOff(s: LeaseWatcher.State) {
    var f := s.failures;
    && (|f| >= 2 ==> f[1] >= f[0] + 1_000_000_000)
    && (|f| >= 3 ==> f[2] >= f[1] + 2_000_000_000)
    && (f != [] ==> f[|f| - 1] <= s.now)
    && WaitsSince(s)
  }

  predicate WaitsSince(s: LeaseWatcher.State) {
    var f := s.failures;
    match s.pc
    case Attempt(n) => |f| == n
    case BackingOff(n, deadline) =>
      && 1 <= |f| == n <= 2
      && f[|f| - 1] + n * 1_000_000_000 <= deadline <= s.now + n * 1_000_000_000
    case Rotating(n) => |f| == n <= 2 && (f != [] ==> s.now >= f[|f| - 1] + n * 1_000_000_000)
    case _ => true
  }

  lemma BackoffTimes()
    ensures LeaseWatcher.BackoffTime(1) == 1_000_000_000 && LeaseWatcher.BackoffTime(2) == 2_000_000_000
  {
  }

  lemma FailureBacksOff(s: LeaseWatcher.State)
    requires BacksOff(s) && s.pc.Rotating?
    ensures BacksOff(s.(pc := LeaseWatcher.Attempt(s.pc.n + 1), failures := s.failures + [s.now]))
  {
  }

  lemma GoBacksOff(mode: LeaseWatcher.Mode, s: LeaseWatcher.State, jitterMs: nat)
    requires BacksOff(s) && LeaseWatcher.Next(mode, s, LeaseWatcher.Go(jitterMs)).Some?
    ensures BacksOff(LeaseWatcher.Next(mode, s, LeaseWatcher.Go(jitterMs)).value)
  {
    BackoffTimes();
  }

  lemma NextBacksOff(mode: LeaseWatcher.Mode, s: LeaseWatcher.State, a: LeaseWatcher.Action)
    requires BacksOff(s) && LeaseWatcher.Next(mode, s, a).Some?
    ensures BacksOff(LeaseWatcher.Next(mode, s, a).value)
  {
    match a
    case Go(jitterMs) => GoBacksOff(mode, s, jitterMs);
    case RotateDone(None) => FailureBacksOff(s);
    case Tick(_) =>
      assert LeaseWatcher.Next(mode, s, a).value.failures == s.failures;
    case Wake =>
      assert LeaseWatcher.Next(mode, s, a).value.failures == s.failures;
    case _ =>
      var s' := LeaseWatcher.Next(mode, s, a).value;
      assert s'.failures == s.failures && s'.now == s.now;
  }

  /** In every run the attempts to rotate back off exponentially. */
  lemma {:induction false} RotationsBackOff(mode: LeaseWatcher.Mode, leaseId: string, ttl: nat,
                                            run: seq<LeaseWatcher.Action>)
    requires LeaseWatcher.Run(mode, LeaseWatcher.Init(leaseId, ttl), run).Some?
    ensures BacksOff(LeaseWatcher.Run(mode, LeaseWatcher.Init(leaseId, ttl), run).value)
  {
    if run != [] {
      var before := run[..|run| - 1];
      RotationsBackOff(mode, leaseId, ttl, before);
      NextBacksOff(mode, LeaseWatcher.Run(mode, LeaseWatcher.Init(leaseId, ttl), before).value, run[|run| - 1]);
    }
  }
}
