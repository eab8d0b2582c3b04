/** Cancelling a lease watcher: how much it still sends, and when `shutdown` returns. */
module WatcherShutdown {
  import opened Common
  import opened LeaseWatcher

  // --- At most two more sends ---

  function SendsAfter(next: Then): nat {
    if next.ToRotation? || next.ToExpired? then 1 else 0
  }

  /** How many sends a cancelled task may still complete. */
  function Budget(pc: Pc): (b: nat)
    ensures b <= 2
  {
    match pc
    case LoopHead => 0
    case Sleeping(_, _) => 2
    case Renewing => 2
    case Sending(_, next) => 1 + SendsAfter(next)
    case Attempt(n) => if n == 0 || n >= ATTEMPTS then 1 else 0
    case BackingOff(_, _) => 1
    case Rotating(_) => 1
    case Stopped => 0
  }

  /** How many actions a cancelled task still takes. */
  function Rank(pc: Pc): (r: nat)
    ensures r <= 7
  {
    match pc
    case Stopped => 0
    case LoopHead => 1
    case Sending(_, next) =>
      (match next case ToStop => 1 case ToLoop => 2 case ToAdopt(_, _) => 2 case ToExpired => 2 case ToRotation => 5)
    case Attempt(n) => if n == 0 then 4 else if n >= ATTEMPTS then 2 else 1
    case Rotating(_) => 3
    case BackingOff(_, _) => 4
    case Renewing => 6
    case Sleeping(_, _) => 7
  }

  /** An action of the task itself. */
  predicate OfTask(a: Action) {
    a.Go? || a.Wake? || a.RenewDone? || a.RotateDone? || a.SeeCancel?
  }

  function TaskMoves(run: seq<Action>): nat {
    if run == [] then 0
    else TaskMoves(run[..|run| - 1]) + if OfTask(run[|run| - 1]) then 1 else 0
  }

  lemma NextSpendsBudget(mode: Mode, s: State, a: Action)
    requires Cancelled(s) && Next(mode, s, a).Some?
    ensures var s' := Next(mode, s, a).value;
            && Cancelled(s')
            && |s'.emitted| + Budget(s'.pc) <= |s.emitted| + Budget(s.pc)
            && |s'.queue| + Budget(s'.pc) <= |s.queue| + Budget(s.pc)
            && Rank(s'.pc) + (if OfTask(a) then 1 else 0) <= Rank(s.pc)
  {
  }

  /** A cancelled task completes at most two more sends and takes at most seven more actions. */
  lemma {:induction false} AtMostTwoMoreSends(mode: Mode, s: State, run: seq<Action>)
    requires Cancelled(s) && Run(mode, s, run).Some?
    ensures var s' := Run(mode, s, run).value;
            && Cancelled(s')
            && |s'.emitted| + Budget(s'.pc) <= |s.emitted| + Budget(s.pc) <= |s.emitted| + 2
            && |s'.queue| + Budget(s'.pc) <= |s.queue| + Budget(s.pc)
            && TaskMoves(run) + Rank(s'.pc) <= Rank(s.pc) <= 7
  {
    if run != [] {
      var before := run[..|run| - 1];
      AtMostTwoMoreSends(mode, s, before);
      NextSpendsBudget(mode, Run(mode, s, before).value, run[|run| - 1]);
    }
  }

  // --- When `shutdown` returns ---

  /** The task waits for a slot that nobody will free. */
  predicate Stuck(s: State) {
    s.pc.Sending? && s.handle.ShuttingDown? && |s.queue| >= CAPACITY
  }

  /** The task can act, without help of the server or the clock. */
  predicate CanGoOn(mode: Mode, s: State) {
    Next(mode, s, Go(0)).Some? || Next(mode, s, SeeCancel).Some?
  }

  lemma OnlyFullChannelBlocks(mode: Mode, s: State)
    requires Cancelled(s)
    ensures CanGoOn(mode, s) <==> !s.pc.Stopped? && !Stuck(s)
  {
  }

  /**
   * With enough free slots, two always being enough, or after the handle was dropped, a
   * cancelled task can always act until it has stopped, and it stops after at most seven
   * of its actions.
   */
  lemma ShutdownEnds(mode: Mode, s: State, run: seq<Action>)
    requires Cancelled(s) && Run(mode, s, run).Some?
    requires s.handle.Gone? || |s.queue| <= 14 || |s.queue| + Budget(s.pc) <= CAPACITY
    ensures var s' := Run(mode, s, run).value;
            (s'.pc.Stopped? || CanGoOn(mode, s')) && TaskMoves(run) <= 7
    ensures TaskMoves(run) == 7 ==> Run(mode, s, run).value.pc.Stopped?
  {
    AtMostTwoMoreSends(mode, s, run);
    if s.handle.Gone? {
      GoneForever(mode, s, run);
    }
    OnlyFullChannelBlocks(mode, Run(mode, s, run).value);
  }

  lemma {:induction false} GoneForever(mode: Mode, s: State, run: seq<Action>)
    requires s.handle.Gone? && Run(mode, s, run).Some?
    ensures Run(mode, s, run).value.handle.Gone?
  {
    if run != [] {
      GoneForever(mode, s, run[..|run| - 1]);
    }
  }

  /** A stuck task stays stuck until the pending `shutdown` is dropped. */
  lemma {:induction false} StuckForever(mode: Mode, s: State, run: seq<Action>)
    requires Stuck(s) && Run(mode, s, run).Some? && DropHandle !in run
    ensures Stuck(Run(mode, s, run).value) && TaskMoves(run) == 0
  {
    if run != [] {
      var before := run[..|run| - 1];
      assert run[|run| - 1] in run;
      assert forall a :: a in before ==> a in run;
      StuckForever(mode, s, before);
    }
  }

  ghost predicate NeverStuck(mode: Mode, s: State) {
    forall run, s' :: Run(mode, s, run) == Some(s') && DropHandle !in run ==> !Stuck(s')
  }

  lemma Prepend(mode: Mode, s: State, a: Action, rest: seq<Action>)
    requires Next(mode, s, a).Some?
    ensures Run(mode, s, [a] + rest) == Run(mode, Next(mode, s, a).value, rest)
  {
    assert [a][..0] == [];
    assert Run(mode, s, [a]) == Next(mode, s, a);
    RunConcat(mode, s, [a], rest);
  }

  /** An action that keeps the budget, in favour of a full channel. */
  function Spend(s: State): Action {
    match s.pc
    case Sleeping(_, deadline) => if s.now < deadline then Tick(deadline - s.now) else Wake
    case BackingOff(_, deadline) => if s.now < deadline then Tick(deadline - s.now) else Wake
    case Renewing => RenewDone(None)
    case Rotating(_) => RotateDone(Some(("", 0)))
    case _ => Go(0)
  }

  lemma SpendKeepsBudget(mode: Mode, s: State)
    requires s.handle.ShuttingDown? && |s.queue| <= CAPACITY < |s.queue| + Budget(s.pc) && !Stuck(s)
    ensures var s' := Next(mode, s, Spend(s));
            && s'.Some? && s'.value.handle.ShuttingDown?
            && |s'.value.queue| <= CAPACITY < |s'.value.queue| + Budget(s'.value.pc)
            && (Rank(s'.value.pc) < Rank(s.pc) || (Spend(s).Tick? && s'.value.pc == s.pc && Spend(s'.value).Wake?))
  {
  }

  /** With too few free slots there is a run into a stuck state. */
  lemma RunIntoStuck(mode: Mode, s: State) returns (run: seq<Action>)
    requires s.handle.ShuttingDown? && |s.queue| <= CAPACITY < |s.queue| + Budget(s.pc)
    ensures Run(mode, s, run).Some? && Stuck(Run(mode, s, run).value) && DropHandle !in run
    decreases Rank(s.pc), if Spend(s).Tick? then 1 else 0
  {
    if Stuck(s) {
      run := [];
    } else {
      SpendKeepsBudget(mode, s);
      var rest := RunIntoStuck(mode, Next(mode, s, Spend(s)).value);
      Prepend(mode, s, Spend(s), rest);
      run := [Spend(s)] + rest;
    }
  }

  /** The exact condition under which a `shutdown` that has begun cannot get stuck. */
  lemma ShutdownExactly(mode: Mode, s: State)
    requires s.handle.ShuttingDown? && |s.queue| <= CAPACITY
    ensures NeverStuck(mode, s) <==> |s.queue| + Budget(s.pc) <= CAPACITY
  {
    if |s.queue| + Budget(s.pc) <= CAPACITY {
      forall run, s' | Run(mode, s, run) == Some(s') && DropHandle !in run
        ensures !Stuck(s')
      {
        AtMostTwoMoreSends(mode, s, run);
      }
    } else {
      var run := RunIntoStuck(mode, s);
    }
  }

  // --- A stuck shutdown is reachable ---

  ghost predicate Leads(mode: Mode, s: State, run: seq<Action>, s': State) {
    Run(mode, s, run) == Some(s')
  }

  lemma Extend(mode: Mode, s: State, run0: seq<Action>, mid: State, a: Action) returns (run: seq<Action>, s': State)
    requires Leads(mode, s, run0, mid) && Next(mode, mid, a).Some?
    ensures run == run0 + [a] && Next(mode, mid, a) == Some(s') && Leads(mode, s, run, s')
  {
    run := run0 + [a];
    s' := Next(mode, mid, a).value;
    RunOne(mode, s, run0, a);
  }

  /** The task sleeps and wakes up to renew. */
  lemma ToRenewing(mode: Mode, s: State, run0: seq<Action>, mid: State) returns (run: seq<Action>, s': State)
    requires Leads(mode, s, run0, mid) && mid.pc.LoopHead? && mid.handle.Live?
    ensures Leads(mode, s, run, s')
    ensures s' == mid.(pc := Renewing, now := s'.now, renewals := s'.renewals)
  {
    var deadline := mid.now + SleepTime(mid.ttl, 0);
    run, s' := Extend(mode, s, run0, mid, Go(0));
    run, s' := Extend(mode, s, run, s', Tick(SleepTime(mid.ttl, 0)));
    run, s' := Extend(mode, s, run, s', Wake);
  }

  /** A user who never receives lets the channel fill up. */
  lemma {:induction false} FillChannel(mode: Mode, leaseId: string, ttl: nat, n: nat)
    returns (run: seq<Action>, s: State)
    requires n <= CAPACITY
    ensures Leads(mode, Init(leaseId, ttl), run, s)
    ensures s.pc.LoopHead? && s.handle.Live? && |s.queue| == n
  {
    if n == 0 {
      run, s := [], Init(leaseId, ttl);
    } else {
      run, s := FillChannel(mode, leaseId, ttl, n - 1);
      run, s := ToRenewing(mode, Init(leaseId, ttl), run, s);
      run, s := Extend(mode, Init(leaseId, ttl), run, s, RenewDone(Some(60)));
      run, s := Extend(mode, Init(leaseId, ttl), run, s, Go(0));
    }
  }

  /** A watcher whose user does not drain the channel can make `shutdown` wait forever. */
  lemma StuckIsReachable(mode: Mode, leaseId: string, ttl: nat) returns (run: seq<Action>, s: State)
    ensures Leads(mode, Init(leaseId, ttl), run, s) && Stuck(s)
  {
    run, s := FillChannel(mode, leaseId, ttl, CAPACITY);
    run, s := ToRenewing(mode, Init(leaseId, ttl), run, s);
    run, s := Extend(mode, Init(leaseId, ttl), run, s, RenewDone(Some(60)));
    run, s := Extend(mode, Init(leaseId, ttl), run, s, Shutdown);
  }
}
