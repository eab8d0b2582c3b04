/**
 * Where the guarantees of the lifecycle end: runs that show what is not promised, and the
 * exact condition for freedom from self-deadlock.
 */
module LifecycleLimits {
  import opened Common
  import opened TokenStore
  import opened LoginPath
  import opened Lifecycle
  import opened LifecycleSafety
  import opened LifecycleProgress
  import opened LifecycleDecision

  // --- Composing runs ---

  ghost predicate Leads(c: Config, s: State, run: seq<Action>, s': State) {
    Run(c, s, run) == Some(s')
  }

  lemma LeadsStep(c: Config, s: State, run: seq<Action>, mid: State, a: Action)
    requires Leads(c, s, run, mid)
    ensures Run(c, s, run + [a]) == Next(c, mid, a)
  {
  }

  lemma LeadsFurther(c: Config, s: State, run: seq<Action>, mid: State, more: seq<Action>, s': State)
    requires Leads(c, s, run, mid) && Leads(c, mid, more, s')
    ensures Leads(c, s, run + more, s')
  {
    RunConcat(c, s, run, more);
  }

  function With(s: State, id: nat, t: Task): State {
    s.(tasks := s.tasks[id := t])
  }

  /** A step that only moves the caller. */
  lemma Moved(c: Config, s: State, run: seq<Action>, mid: State, id: nat, t: Task, t': Task)
    requires Leads(c, s, run, With(mid, id, t))
    requires Local(c, Observe(mid), id, t) == Some(Silent(t'))
    ensures Leads(c, s, run + [Step(id)], With(mid, id, t'))
  {
    LeadsStep(c, s, run, With(mid, id, t), Step(id));
    assert mid.tasks[id := t][id := t'] == mid.tasks[id := t'];
    assert mid.log + [] == mid.log;
  }

  lemma Received(c: Config, s: State, run: seq<Action>, mid: State, id: nat, t: Task, reply: Reply, t': Task)
    requires Leads(c, s, run, With(mid, id, t))
    requires Receive(c, t, reply) == Some(t')
    ensures Leads(c, s, run + [Respond(id, reply)], With(mid, id, t'))
  {
    LeadsStep(c, s, run, With(mid, id, t), Respond(id, reply));
    assert mid.tasks[id := t][id := t'] == mid.tasks[id := t'];
  }

  /** A caller in its outermost activation, with the requests it has made and their answers. */
  function Caller(path: Bytes, pc: Pc, calls: seq<Call>, answers: seq<Reply>): Task {
    Task([Frame(path, pc)], calls, answers, [])
  }

  lemma GotoSingle(t: Task, pc: Pc)
    requires |t.frames| == 1
    ensures Goto(t, pc) == t.(frames := [Frame(t.frames[0].path, pc)])
  {
  }

  // --- Building blocks ---

  const LEASE: AuthInfo := AuthInfo("t", 1, true)

  function Writer(pc: Pc, stored: seq<AuthInfo>): Task {
    Task([Frame([], pc)], [], [], stored)
  }

  /** Another writer stores and announces `auth`, at one instant. */
  lemma WriterRuns(c: Config, s: State, id: nat, auth: AuthInfo) returns (run: seq<Action>)
    requires id !in s.tasks
    ensures Leads(c, s, run,
              With(Write(s, FromAuth(auth, s.now)), id, Writer(Finished(Answered(Some(auth))), [auth]))
              .(log := s.log + [Stored(id, Elsewhere, auth, s.now), Notified(id, auth)]))
  {
    run := [SpawnWriter(id, auth)];
    var s1 := With(s, id, Writer(OtherStore(auth), []));
    assert run[..0] == [];
    assert Leads(c, s, run, s1);
    LeadsStep(c, s, run, s1, Step(id));
    run := run + [Step(id)];
    GotoSingle(s1.tasks[id], OtherNotify(auth));
    var s2 := With(Write(s, FromAuth(auth, s.now)), id, Writer(OtherNotify(auth), [auth]))
              .(log := s.log + [Stored(id, Elsewhere, auth, s.now)]);
    assert s1.tasks[id].stored + [auth] == [auth];
    assert s2.tasks == s1.tasks[id := s2.tasks[id]];
    assert Leads(c, s, run, s2);
    LeadsStep(c, s, run, s2, Step(id));
    run := run + [Step(id)];
    GotoSingle(s2.tasks[id], Finished(Answered(Some(auth))));
    var done := Writer(Finished(Answered(Some(auth))), [auth]);
    assert s.tasks[id := done] == s2.tasks[id := done];
    assert s.log + [Stored(id, Elsewhere, auth, s.now), Notified(id, auth)] == s2.log + [Notified(id, auth)];
  }

  /** A state in which a renewable token is due and nobody holds the lock. */
  lemma ReachDue(c: Config) returns (run: seq<Action>, s: State)
    ensures Leads(c, Init(None), run, s)
    ensures DueForRenewal(s) && s.lock == None && s.tasks.Keys == {0} && s.version == 1 && s.now == 800 * MILLI
  {
    run := WriterRuns(c, Init(None), 0, LEASE);
    var s1 := Run(c, Init(None), run).value;
    LeadsStep(c, Init(None), run, s1, Tick(800 * MILLI));
    run := run + [Tick(800 * MILLI)];
    s := s1.(now := 800 * MILLI);
  }

  /** A new caller finds the token due and queues for the lock. */
  lemma ReachQueue(c: Config, s: State, id: nat, path: Bytes) returns (run: seq<Action>)
    requires id !in s.tasks && DueForRenewal(s) && !IsLogin(path)
    ensures Leads(c, s, run, With(s, id, Caller(path, AwaitLock(s.version), [], [])))
  {
    run := [Spawn(id, path)];
    assert run[..0] == [];
    assert Leads(c, s, run, With(s, id, Caller(path, Enter, [], [])));
    GotoSingle(Caller(path, Enter, [], []), ReadToken);
    Moved(c, s, run, s, id, Caller(path, Enter, [], []), Caller(path, ReadToken, [], []));
    run := run + [Step(id)];
    GotoSingle(Caller(path, ReadToken, [], []), AwaitLock(s.version));
    Moved(c, s, run, s, id, Caller(path, ReadToken, [], []), Caller(path, AwaitLock(s.version), [], []));
    run := run + [Step(id)];
  }

  function Locked(s: State, id: nat): State {
    s.(lock := Some(Owner(id, 0)))
  }

  /** A caller in the queue takes the free lock, looks again, and decides to renew. */
  lemma ReachReady(c: Config, s: State, id: nat, path: Bytes, seen: nat) returns (run: seq<Action>)
    requires s.lock == None && s.token.Some? && NeedsRenewal(s.token.value, s.now)
    ensures Leads(c, With(s, id, Caller(path, AwaitLock(seen), [], [])), run,
                  With(Locked(s, id), id, Caller(path, RenewReady, [], [])))
  {
    var from := With(s, id, Caller(path, AwaitLock(seen), [], []));
    run := [];
    LeadsStep(c, from, run, from, Step(id));
    run := run + [Step(id)];
    GotoSingle(Caller(path, AwaitLock(seen), [], []), Recheck(seen));
    GotoSingle(Caller(path, Recheck(seen), [], []), RenewReady);
    var taken := With(Locked(s, id), id, Caller(path, Recheck(seen), [], []));
    assert taken.tasks == from.tasks[id := Caller(path, Recheck(seen), [], [])];
    assert s.log + [] == s.log;
    assert Leads(c, from, run, taken);
    Moved(c, from, run, Locked(s, id), id, Caller(path, Recheck(seen), [], []), Caller(path, RenewReady, [], []));
    run := run + [Step(id)];
  }

  function Sending(s: State, id: nat, path: Bytes): State {
    With(Locked(s, id), id, Caller(path, RenewInFlight, [RenewSelf], [])).(log := s.log + [Sent(id, RenewSelf, s.now)])
  }

  lemma ReachSending(c: Config, s: State, id: nat, path: Bytes) returns (run: seq<Action>)
    ensures Leads(c, With(Locked(s, id), id, Caller(path, RenewReady, [], [])), run, Sending(s, id, path))
  {
    var from := With(Locked(s, id), id, Caller(path, RenewReady, [], []));
    run := [];
    LeadsStep(c, from, run, from, Step(id));
    run := run + [Step(id)];
    GotoSingle(Caller(path, RenewReady, [], []), RenewInFlight);
    assert from.tasks[id].calls + [RenewSelf] == [RenewSelf];
    assert Sending(s, id, path).tasks == from.tasks[id := Caller(path, RenewInFlight, [RenewSelf], [])];
  }

  /** A new caller gets as far as sending a renewal, all at one instant. */
  lemma ExtendToSending(c: Config, s0: State, run0: seq<Action>, s: State, id: nat, path: Bytes)
    returns (run: seq<Action>)
    requires Leads(c, s0, run0, s)
    requires id !in s.tasks && s.lock == None && DueForRenewal(s) && !IsLogin(path)
    ensures Leads(c, s0, run, Sending(s, id, path)) && run0 <= run
  {
    var queued := With(s, id, Caller(path, AwaitLock(s.version), [], []));
    var ready := With(Locked(s, id), id, Caller(path, RenewReady, [], []));
    var more := ReachQueue(c, s, id, path);
    LeadsFurther(c, s0, run0, s, more, queued);
    run := run0 + more;
    more := ReachReady(c, s, id, path, s.version);
    LeadsFurther(c, s0, run, queued, more, ready);
    run := run + more;
    more := ReachSending(c, s, id, path);
    LeadsFurther(c, s0, run, ready, more, Sending(s, id, path));
    run := run + more;
  }

  // --- Renewals without `auth` are not shared ---

  function Released(s: State, id: nat, path: Bytes): State {
    With(s, id, Caller(path, SendRequest, [RenewSelf], [Answered(None)])).(log := s.log + [Sent(id, RenewSelf, s.now)])
  }

  /** An answer without `auth` counts as success and changes nothing but the caller. */
  lemma RenewedWithoutAuth(c: Config, s0: State, run0: seq<Action>, s: State, id: nat, path: Bytes)
    requires Leads(c, s0, run0, Sending(s, id, path)) && s.lock == None
    ensures Leads(c, s0, run0 + [Respond(id, Answered(None))] + [Step(id)], Released(s, id, path))
  {
    var logged := Locked(s, id).(log := s.log + [Sent(id, RenewSelf, s.now)]);
    var sending := Caller(path, RenewInFlight, [RenewSelf], []);
    var unlocking := Caller(path, Unlock(true), [RenewSelf], [Answered(None)]);
    assert sending.answers + [Answered(None)] == unlocking.answers;
    GotoSingle(sending.(answers := unlocking.answers), Unlock(true));
    Received(c, s0, run0, logged, id, sending, Answered(None), unlocking);
    var run1 := run0 + [Respond(id, Answered(None))];
    LeadsStep(c, s0, run1, With(logged, id, unlocking), Step(id));
    GotoSingle(unlocking, SendRequest);
    assert With(logged, id, unlocking).tasks[id := Caller(path, SendRequest, [RenewSelf], [Answered(None)])]
        == Released(s, id, path).tasks;
    assert logged.log + [] == logged.log;
  }

  /**
   * A renewal that succeeds without `auth` changes nothing, so the next caller sends another
   * one under the lock at the same instant.
   */
  lemma RenewalWithoutAuthIsNotShared(c: Config) returns (run: seq<Action>, s: State, k: nat)
    ensures Leads(c, Init(None), run, s) && k + 1 < |s.log|
    ensures s.log[k] == Sent(1, RenewSelf, s.now) && s.log[k + 1] == Sent(2, RenewSelf, s.now)
    ensures Respond(1, Answered(None)) in run
  {
    var path: Bytes := [];
    var run0, s1 := ReachDue(c);
    var run1 := ExtendToSending(c, Init(None), run0, s1, 1, path);
    RenewedWithoutAuth(c, Init(None), run1, s1, 1, path);
    var run2 := run1 + [Respond(1, Answered(None))] + [Step(1)];
    assert run2[|run1|] == Respond(1, Answered(None));
    var s2 := Released(s1, 1, path);
    run := ExtendToSending(c, Init(None), run2, s2, 2, path);
    assert run[|run1|] == Respond(1, Answered(None));
    s := Sending(s2, 2, path);
    k := |s1.log|;
  }

  // --- Self-deadlock ---

  /** The caller waits for the lock that it holds itself. */
  predicate SelfDeadlocked(s: State, id: nat) {
    && id in s.tasks && s.tasks[id].frames != [] && TopPc(s.tasks[id]).AwaitLock?
    && s.lock.Some? && s.lock.value.task == id
  }

  /** Only dropping the caller ends a self-deadlock. */
  lemma {:induction false} SelfDeadlockIsForever(c: Config, s: State, id: nat, run: seq<Action>)
    requires SelfDeadlocked(s, id) && Run(c, s, run).Some? && Cancel(id) !in run
    requires LockInv(s)
    ensures SelfDeadlocked(Run(c, s, run).value, id) && LockInv(Run(c, s, run).value)
  {
    if run != [] {
      var before := run[..|run| - 1];
      assert run[|run| - 1] in run;
      assert forall a :: a in before ==> a in run;
      SelfDeadlockIsForever(c, s, id, before);
      StaysDeadlocked(c, Run(c, s, before).value, id, run[|run| - 1]);
    }
  }

  lemma StaysDeadlocked(c: Config, s: State, id: nat, a: Action)
    requires SelfDeadlocked(s, id) && LockInv(s) && Next(c, s, a).Some? && a != Cancel(id)
    ensures SelfDeadlocked(Next(c, s, a).value, id) && LockInv(Next(c, s, a).value)
  {
    NextKeepsLock(c, s, a);
    match a
    case Step(j) =>
      LocalHeld(c, Observe(s), j, s.tasks[j]);
      assert j != id ==> Held(s.tasks[j].frames) == {};
    case _ =>
  }

  /** A login path that is not exempt lets a caller wait for its own lock. */
  lemma OtherLoginPathsDeadlock(path: Bytes) returns (run: seq<Action>, s: State)
    requires !IsLogin(path)
    ensures Leads(Config(Some(path)), Init(None), run, s) && SelfDeadlocked(s, 1)
  {
    var c := Config(Some(path));
    var run0, due := ReachDue(c);
    run := ExtendToSending(c, Init(None), run0, due, 1, path);
    var logged := Locked(due, 1).(log := due.log + [Sent(1, RenewSelf, due.now)]);
    var sending := Caller(path, RenewInFlight, [RenewSelf], []);
    var starting := Caller(path, StartLogin(true), [RenewSelf], [Failed]);
    assert sending.answers + [Failed] == starting.answers;
    GotoSingle(sending.(answers := starting.answers), StartLogin(true));
    Received(c, Init(None), run, logged, 1, sending, Failed, starting);
    run := run + [Respond(1, Failed)];

    var nested := Inner(path, Enter);
    GotoSingle(starting, LoginWait(true));
    assert Push(Goto(starting, LoginWait(true)), path).frames == nested.frames;
    Moved(c, Init(None), run, logged, 1, starting, nested);
    run := run + [Step(1)];
    GotoInner(path, Enter, ReadToken);
    Moved(c, Init(None), run, logged, 1, nested, Inner(path, ReadToken));
    run := run + [Step(1)];
    GotoInner(path, ReadToken, AwaitLock(logged.version));
    Moved(c, Init(None), run, logged, 1, Inner(path, ReadToken), Inner(path, AwaitLock(logged.version)));
    run := run + [Step(1)];
    s := With(logged, 1, Inner(path, AwaitLock(logged.version)));
  }

  /** A caller that logs in while it holds the lock. */
  function Inner(path: Bytes, pc: Pc): Task {
    Task([Frame(path, LoginWait(true)), Frame(path, pc)], [RenewSelf], [Failed], [])
  }

  lemma GotoInner(path: Bytes, pc: Pc, pc': Pc)
    ensures Goto(Inner(path, pc), pc') == Inner(path, pc')
  {
  }

  ghost predicate NeverSelfDeadlocks(c: Config) {
    forall init, run, s, id :: Leads(c, Init(init), run, s) ==> !SelfDeadlocked(s, id)
  }

  /** No run self-deadlocks exactly when the login request is exempt from the lifecycle. */
  lemma SelfDeadlockExactly(path: Bytes)
    ensures NeverSelfDeadlocks(Config(Some(path))) <==> IsLogin(path)
  {
    var c := Config(Some(path));
    if IsLogin(path) {
      forall init, run, s, id | Leads(c, Init(init), run, s)
        ensures !SelfDeadlocked(s, id)
      {
        RunKeepsTasks(c, init, run);
        RunKeepsLock(c, init, run);
        if SelfDeadlocked(s, id) {
          OwnerMoves(c, s);
        }
      }
    } else {
      var run, s := OtherLoginPathsDeadlock(path);
    }
  }

  // --- Nesting without bound ---

  /** `n` activations that wait for a login, and one more that starts. */
  function Chain(path: Bytes, n: nat): Task {
    Task(seq(n, i => Frame(path, LoginWait(false))) + [Frame(path, Enter)], [], [], [])
  }

  /** Without a token, a login path that is not exempt nests without bound. */
  lemma {:induction false} OtherLoginPathsNest(path: Bytes, n: nat) returns (run: seq<Action>)
    requires !IsLogin(path)
    ensures Leads(Config(Some(path)), Init(None), run, With(Init(None), 0, Chain(path, n)))
  {
    var c := Config(Some(path));
    if n == 0 {
      run := [Spawn(0, path)];
      assert run[..0] == [];
      assert Chain(path, 0).frames == [Frame(path, Enter)];
    } else {
      run := OtherLoginPathsNest(path, n - 1);
      var t0 := Chain(path, n - 1);
      var t1 := Goto(t0, ReadToken);
      var t2 := Goto(t1, StartLogin(false));
      Moved(c, Init(None), run, Init(None), 0, t0, t1);
      run := run + [Step(0)];
      Moved(c, Init(None), run, Init(None), 0, t1, t2);
      run := run + [Step(0)];
      assert Push(Goto(t2, LoginWait(false)), path).frames == Chain(path, n).frames;
      Moved(c, Init(None), run, Init(None), 0, t2, Chain(path, n));
      run := run + [Step(0)];
    }
  }

  ghost predicate NestsAtMostTwice(c: Config) {
    forall init, run, s, id :: Leads(c, Init(init), run, s) && id in s.tasks ==> |s.tasks[id].frames| <= 2
  }

  /** The nesting of `execute` is bounded exactly when the login request is exempt. */
  lemma NestingExactly(path: Bytes)
    ensures NestsAtMostTwice(Config(Some(path))) <==> IsLogin(path)
  {
    var c := Config(Some(path));
    if IsLogin(path) {
      forall init, run, s, id | Leads(c, Init(init), run, s) && id in s.tasks
        ensures |s.tasks[id].frames| <= 2
      {
        RunKeepsTasks(c, init, run);
      }
    } else {
      var run := OtherLoginPathsNest(path, 2);
      assert 0 in With(Init(None), 0, Chain(path, 2)).tasks;
    }
  }

  // --- Two more things that are not promised ---

  /**
   * Callbacks may come in another order than writes: the last value announced need not be
   * the value that is stored.
   */
  lemma AnnouncementsMayLag(c: Config, a: AuthInfo, b: AuthInfo) returns (run: seq<Action>, s: State)
    ensures Leads(c, Init(None), run, s)
    ensures s.log == [Stored(0, Elsewhere, a, 0), Stored(1, Elsewhere, b, 0), Notified(1, b), Notified(0, a)]
    ensures s.token == Some(FromAuth(b, 0))
  {
    run := [SpawnWriter(0, a)];
    s := With(Init(None), 0, Writer(OtherStore(a), []));
    assert run[..0] == [];
    assert Leads(c, Init(None), run, s);
    run, s := WriterStores(c, run, s, 0, a);
    run, s := Extend(c, run, s, SpawnWriter(1, b));
    run, s := WriterStores(c, run, s, 1, b);
    run, s := WriterAnnounces(c, run, s, 1, b);
    run, s := WriterAnnounces(c, run, s, 0, a);
  }

  lemma WriterStores(c: Config, run0: seq<Action>, s0: State, id: nat, auth: AuthInfo)
    returns (run: seq<Action>, s: State)
    requires Leads(c, Init(None), run0, s0) && id in s0.tasks && s0.tasks[id] == Writer(OtherStore(auth), [])
    ensures run == run0 + [Step(id)]
    ensures Leads(c, Init(None), run, s) && s.log == s0.log + [Stored(id, Elsewhere, auth, s0.now)]
    ensures s.token == Some(FromAuth(auth, s0.now)) && s.now == s0.now
    ensures s.tasks == s0.tasks[id := Writer(OtherNotify(auth), [auth])] && s.lock == s0.lock
  {
    GotoSingle(s0.tasks[id], OtherNotify(auth));
    assert s0.tasks[id].stored + [auth] == [auth];
    run, s := Extend(c, run0, s0, Step(id));
  }

  lemma WriterAnnounces(c: Config, run0: seq<Action>, s0: State, id: nat, auth: AuthInfo)
    returns (run: seq<Action>, s: State)
    requires Leads(c, Init(None), run0, s0) && id in s0.tasks && s0.tasks[id] == Writer(OtherNotify(auth), [auth])
    ensures Leads(c, Init(None), run, s) && s.log == s0.log + [Notified(id, auth)]
    ensures s.token == s0.token && s.now == s0.now
    ensures s.tasks == s0.tasks[id := Writer(Finished(Answered(Some(auth))), [auth])]
  {
    GotoSingle(s0.tasks[id], Finished(Answered(Some(auth))));
    run, s := Extend(c, run0, s0, Step(id));
  }

  lemma Extend(c: Config, run0: seq<Action>, s0: State, a: Action) returns (run: seq<Action>, s: State)
    requires Leads(c, Init(None), run0, s0) && Next(c, s0, a).Some?
    ensures run == run0 + [a] && Leads(c, Init(None), run, s) && Next(c, s0, a) == Some(s)
  {
    run := run0 + [a];
    s := Next(c, s0, a).value;
    LeadsStep(c, Init(None), run0, s0, a);
  }

  // --- Renewing whatever is stored ---

  lemma StepSingle(c: Config, run0: seq<Action>, s0: State, id: nat, pc: Pc) returns (run: seq<Action>, s: State)
    requires Leads(c, Init(None), run0, s0) && id in s0.tasks && |s0.tasks[id].frames| == 1
    requires Local(c, Observe(s0), id, s0.tasks[id]).Some?
    requires TopPc(Local(c, Observe(s0), id, s0.tasks[id]).value.task) == pc && !pc.LoginWait?
    requires !ChangesNesting(c, s0.tasks[id])
    ensures Leads(c, Init(None), run, s) && Next(c, s0, Step(id)) == Some(s)
    ensures id in s.tasks && |s.tasks[id].frames| == 1 && TopPc(s.tasks[id]) == pc
  {
    LocalMoves(c, Observe(s0), id, s0.tasks[id]);
    run, s := Extend(c, run0, s0, Step(id));
  }

  /** The grant has an expiry that is on the clock when it is stored early enough. */
  predicate CanBecomeDue(auth: AuthInfo) {
    0 < FromSecs(auth.leaseDuration) < INSTANT_END
  }

  /** While a caller waits for the lock, somebody else stores `auth`, and it becomes due. */
  lemma OvertakenCaller(c: Config, auth: AuthInfo) returns (run: seq<Action>, s: State)
    requires CanBecomeDue(auth)
    ensures Leads(c, Init(None), run, s) && Decides(c, s, 1)
    ensures s.tasks[1].frames == [Frame([], Recheck(1))]
    ensures s.token == Some(FromAuth(auth, 800 * MILLI)) && s.lock == Some(Owner(1, 0))
  {
    var run0, due := ReachDue(c);
    var queued := With(due, 1, Caller([], AwaitLock(1), [], []));
    var more := ReachQueue(c, due, 1, []);
    LeadsFurther(c, Init(None), run0, due, more, queued);
    run := run0 + more;
    more := WriterRuns(c, queued, 2, auth);
    s := Run(c, queued, more).value;
    LeadsFurther(c, Init(None), run, queued, more, s);
    run := run + more;
    run, s := Extend(c, run, s, Tick(FromSecs(auth.leaseDuration)));
    GotoSingle(s.tasks[1], Recheck(1));
    run, s := StepSingle(c, run, s, 1, Recheck(1));
    GotoSingle(s.tasks[1], RenewReady);
  }

  /** So a renew-self is sent for any such grant, renewable or not. */
  lemma AnyGrantIsRenewed(c: Config, auth: AuthInfo) returns (run: seq<Action>, s: State)
    requires CanBecomeDue(auth)
    ensures Leads(c, Init(None), run, s)
    ensures s.log != [] && s.log[|s.log| - 1] == Sent(1, RenewSelf, s.now)
    ensures s.token == Some(FromAuth(auth, 800 * MILLI)) && s.lock == Some(Owner(1, 0))
  {
    run, s := OvertakenCaller(c, auth);
    run, s := StepSingle(c, run, s, 1, RenewReady);
    run, s := StepSingle(c, run, s, 1, RenewInFlight);
  }

  /** Some caller with the lock decides to renew a token that was stored for `auth`. */
  ghost predicate IsRenewedSomewhere(c: Config, auth: AuthInfo) {
    exists run, s, id, at :: Leads(c, Init(None), run, s) && Decides(c, s, id) && s.token == Some(FromAuth(auth, at))
  }

  /**
   * Which grants are renewed under the lock depends on their leases alone: the second look
   * does not ask whether the token is renewable. So renew-self is sent for tokens that are
   * not renewable exactly if the server grants such a token with an expiry on the clock.
   */
  lemma RenewedExactly(c: Config, auth: AuthInfo)
    ensures IsRenewedSomewhere(c, auth) <==> CanBecomeDue(auth)
  {
    if CanBecomeDue(auth) {
      var run, s := OvertakenCaller(c, auth);
    }
  }
}
