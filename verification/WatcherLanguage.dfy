/** Every trace of the language is emitted by some run: the language is exact. */
module WatcherLanguage {
  import opened Common
  import opened LeaseWatcher
  import opened WatcherTrace
  import opened WatcherShutdown

  /** The user holds the handle and has received everything so far. */
  predicate Drained(s: State) {
    s.handle.Live? && s.queue == []
  }

  /** The same task with the same output, at another place and time. */
  predicate SameOutput(s: State, s': State) {
    Drained(s') && s'.emitted == s.emitted && s'.leaseId == s.leaseId
  }

  lemma SendAndReceive(mode: Mode, s: State, run0: seq<Action>, mid: State) returns (run: seq<Action>, s': State)
    requires Leads(mode, s, run0, mid) && mid.pc.Sending? && Drained(mid)
    ensures Leads(mode, s, run, s') && Drained(s')
    ensures var after := AfterSend(mid, mid.pc.event, mid.pc.next);
            s'.emitted == after.emitted && s'.pc == after.pc && s'.leaseId == after.leaseId && s'.ttl == after.ttl
  {
    run, s' := Extend(mode, s, run0, mid, Go(0));
    run, s' := Extend(mode, s, run, s', Receive);
  }

  /** The renewal is answered, and the user receives the event. */
  lemma RenewalAnswered(mode: Mode, s0: State, run0: seq<Action>, mid: State, secs: Option<u64>)
    returns (run: seq<Action>, s: State)
    requires Leads(mode, s0, run0, mid) && mid.pc.Renewing? && Drained(mid)
    ensures Leads(mode, s0, run, s) && Drained(s) && s.leaseId == mid.leaseId
    ensures secs.Some? ==>
              s.pc.LoopHead? && s.ttl == FromSecs(secs.value)
              && s.emitted == mid.emitted + [Renewed(mid.leaseId, secs.value)]
    ensures secs.None? ==>
              s.pc == (if mode.Rotate? then Attempt(0) else Sending(Expired(mid.leaseId), ToStop))
              && s.ttl == mid.ttl && s.emitted == mid.emitted + [Error(mid.leaseId)]
  {
    run, s := Extend(mode, s0, run0, mid, RenewDone(secs));
    run, s := SendAndReceive(mode, s0, run, s);
  }

  /** The callback returns a lease, and the user receives the event. */
  lemma RotationSucceeds(s0: State, run0: seq<Action>, mid: State, lease: (string, nat))
    returns (run: seq<Action>, s: State)
    requires Leads(Rotate, s0, run0, mid) && mid.pc.Rotating? && Drained(mid)
    ensures Leads(Rotate, s0, run, s) && Drained(s) && s.pc.LoopHead?
    ensures s.leaseId == lease.0 && s.ttl == lease.1 && s.emitted == mid.emitted + [Rotated(lease.0)]
  {
    run, s := Extend(Rotate, s0, run0, mid, RotateDone(Some(lease)));
    run, s := SendAndReceive(Rotate, s0, run, s);
  }

  lemma FailAttempt(mode: Mode, s: State, run0: seq<Action>, mid: State) returns (run: seq<Action>, s': State)
    requires Leads(mode, s, run0, mid) && mid.pc.Attempt? && mid.pc.n < ATTEMPTS && Drained(mid)
    ensures Leads(mode, s, run, s') && SameOutput(mid, s') && s'.pc == Attempt(mid.pc.n + 1)
  {
    run, s' := Extend(mode, s, run0, mid, Go(0));
    if mid.pc.n > 0 {
      run, s' := Extend(mode, s, run, s', Tick(BackoffTime(mid.pc.n)));
      run, s' := Extend(mode, s, run, s', Wake);
    }
    run, s' := Extend(mode, s, run, s', RotateDone(None));
  }

  /** A renewal succeeds, and the user receives the event. */
  lemma EmitRenewed(mode: Mode, s: State, run0: seq<Action>, mid: State, secs: u64)
    returns (run: seq<Action>, s': State)
    requires Leads(mode, s, run0, mid) && mid.pc.LoopHead? && Drained(mid)
    ensures Leads(mode, s, run, s') && Drained(s') && s'.pc.LoopHead? && s'.leaseId == mid.leaseId
    ensures s'.emitted == mid.emitted + [Renewed(mid.leaseId, secs)]
  {
    run, s' := ToRenewing(mode, s, run0, mid);
    run, s' := RenewalAnswered(mode, s, run, s', Some(secs));
  }

  /** A renewal fails, and the user receives the event. */
  lemma EmitError(mode: Mode, s: State, run0: seq<Action>, mid: State) returns (run: seq<Action>, s': State)
    requires Leads(mode, s, run0, mid) && mid.pc.LoopHead? && Drained(mid)
    ensures Leads(mode, s, run, s') && Drained(s') && s'.leaseId == mid.leaseId
    ensures s'.emitted == mid.emitted + [Error(mid.leaseId)]
    ensures s'.pc == if mode.Rotate? then Attempt(0) else Sending(Expired(mid.leaseId), ToStop)
  {
    run, s' := ToRenewing(mode, s, run0, mid);
    run, s' := RenewalAnswered(mode, s, run, s', None);
  }

  lemma EmitRotated(s: State, run0: seq<Action>, mid: State, leaseId: string)
    returns (run: seq<Action>, s': State)
    requires Leads(Rotate, s, run0, mid) && mid.pc == Attempt(0) && Drained(mid)
    ensures Leads(Rotate, s, run, s') && Drained(s') && s'.pc.LoopHead? && s'.leaseId == leaseId
    ensures s'.emitted == mid.emitted + [Rotated(leaseId)]
  {
    run, s' := Extend(Rotate, s, run0, mid, Go(0));
    run, s' := RotationSucceeds(s, run, s', (leaseId, 0));
  }

  lemma EmitExpired(mode: Mode, s: State, run0: seq<Action>, mid: State) returns (run: seq<Action>, s': State)
    requires Leads(mode, s, run0, mid) && Drained(mid)
    requires mid.pc == if mode.Rotate? then Attempt(0) else Sending(Expired(mid.leaseId), ToStop)
    ensures Leads(mode, s, run, s') && s'.emitted == mid.emitted + [Expired(mid.leaseId)]
  {
    run, s' := run0, mid;
    if mode.Rotate? {
      run, s' := FailAttempt(mode, s, run, s');
      run, s' := FailAttempt(mode, s, run, s');
      run, s' := FailAttempt(mode, s, run, s');
      run, s' := Extend(mode, s, run, s', Go(0));
    }
    run, s' := SendAndReceive(mode, s, run, s');
  }

  /** The four ways in which a trace goes on. */
  lemma TraceCases(mode: Mode, leaseId: string, trace: seq<LeaseEvent>)
    requires trace != [] && Trace(mode, leaseId, trace)
    ensures trace[0].Renewed? ==> trace[0].leaseId == leaseId && Trace(mode, leaseId, trace[1..])
    ensures !trace[0].Renewed? ==> trace[0] == Error(leaseId)
    ensures !trace[0].Renewed? && |trace| > 1 && trace[1].Rotated? ==>
              mode.Rotate? && Trace(mode, trace[1].leaseId, trace[2..])
    ensures !trace[0].Renewed? && |trace| > 1 && !trace[1].Rotated? ==> trace == [Error(leaseId), Expired(leaseId)]
  {
  }

  /** The task emits the next event or two of a trace, and is ready for the rest, if there is any. */
  lemma EmitBlock(mode: Mode, s: State, run0: seq<Action>, mid: State, trace: seq<LeaseEvent>)
    returns (run: seq<Action>, s': State, rest: seq<LeaseEvent>)
    requires Leads(mode, s, run0, mid) && mid.pc.LoopHead? && Drained(mid)
    requires trace != [] && Trace(mode, mid.leaseId, trace)
    ensures Leads(mode, s, run, s') && |rest| < |trace| && s'.emitted + rest == mid.emitted + trace
    ensures rest != [] ==> s'.pc.LoopHead? && Drained(s') && Trace(mode, s'.leaseId, rest)
  {
    TraceCases(mode, mid.leaseId, trace);
    rest := [];
    if trace[0].Renewed? {
      run, s' := EmitRenewed(mode, s, run0, mid, trace[0].secs);
      rest := trace[1..];
      assert trace == [trace[0]] + rest;
    } else {
      run, s' := EmitError(mode, s, run0, mid);
      if |trace| == 1 {
        assert trace == [Error(mid.leaseId)];
      } else if trace[1].Rotated? {
        run, s' := EmitRotated(s, run, s', trace[1].leaseId);
        rest := trace[2..];
        assert trace == [trace[0]] + [trace[1]] + rest;
      } else {
        run, s' := EmitExpired(mode, s, run, s');
      }
    }
  }

  /** From the head of the loop the task can emit any trace for its current lease. */
  lemma {:induction false} EmitTrace(mode: Mode, s: State, run0: seq<Action>, mid: State, trace: seq<LeaseEvent>)
    returns (run: seq<Action>, s': State)
    requires Leads(mode, s, run0, mid) && mid.pc.LoopHead? && Drained(mid)
    requires Trace(mode, mid.leaseId, trace)
    ensures Leads(mode, s, run, s') && s'.emitted == mid.emitted + trace
    decreases |trace|
  {
    run, s' := run0, mid;
    if trace != [] {
      var rest;
      run, s', rest := EmitBlock(mode, s, run0, mid, trace);
      if rest != [] {
        run, s' := EmitTrace(mode, s, run, s', rest);
      }
    }
  }

  ghost predicate Emits(mode: Mode, leaseId: string, ttl: nat, trace: seq<LeaseEvent>) {
    exists run, s :: Leads(mode, Init(leaseId, ttl), run, s) && s.emitted == trace
  }

  /** The emitted traces are exactly the traces of the language. */
  lemma TracesExactly(mode: Mode, leaseId: string, ttl: nat, trace: seq<LeaseEvent>)
    ensures Emits(mode, leaseId, ttl, trace) <==> Trace(mode, leaseId, trace)
  {
    if Emits(mode, leaseId, ttl, trace) {
      var run, s :| Leads(mode, Init(leaseId, ttl), run, s) && s.emitted == trace;
      EveryRunEmitsATrace(mode, leaseId, ttl, run);
    }
    if Trace(mode, leaseId, trace) {
      var init := Init(leaseId, ttl);
      assert Leads(mode, init, [], init);
      var run, s := EmitTrace(mode, init, [], init, trace);
    }
  }
}
