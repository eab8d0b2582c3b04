/** The ways in which a call of `execute` can end, exactly. */
module LifecycleOutcomes {
  import opened Common
  import opened TokenStore
  import opened LoginPath
  import opened Lifecycle
  import opened LifecycleSafety
  import opened LifecycleProgress
  import opened LifecycleDecision
  import opened LifecycleLimits

  /**
   * What a call has issued, received and stored by the time it gives `reply`: it was let
   * through and `reply` answers its request, or it was turned away. It logs in only with a method.
   */
  predicate Possible(c: Config, calls: seq<Call>, answers: seq<Reply>, stored: seq<AuthInfo>, reply: Reply) {
    && (Requested(calls, answers, stored, reply) || (reply.Failed? && Stopped(c, calls, answers, stored)))
    && (Login in calls ==> c.loginPath.Some?)
  }

  function AtPc(path: Bytes, pc: Pc, calls: seq<Call>, answers: seq<Reply>, stored: seq<AuthInfo>): Task {
    Task([Frame(path, pc)], calls, answers, stored)
  }

  /** Some call for `path` ends like this in some run. */
  ghost predicate EndsSomewhere(c: Config, path: Bytes, calls: seq<Call>, answers: seq<Reply>, stored: seq<AuthInfo>,
                                reply: Reply)
  {
    exists init, run, s, id ::
      && Leads(c, Init(init), run, s) && IsCaller(run, id)
      && id in s.tasks && s.tasks[id] == AtPc(path, Finished(reply), calls, answers, stored)
  }

  // --- No other ways ---

  predicate WithoutLogin(t: Task) {
    |t.frames| <= 1 && Login !in t.calls
  }

  lemma LocalWithoutLogin(c: Config, v: View, id: nat, t: Task)
    requires c.loginPath.None? && WithoutLogin(t) && Local(c, v, id, t).Some?
    ensures WithoutLogin(Local(c, v, id, t).value.task)
  {
  }

  lemma {:induction false} RunWithoutMethod(c: Config, init: Option<string>, run: seq<Action>)
    requires c.loginPath.None? && Run(c, Init(init), run).Some?
    ensures var s := Run(c, Init(init), run).value; forall id :: id in s.tasks ==> WithoutLogin(s.tasks[id])
  {
    if run != [] {
      var before, a := run[..|run| - 1], run[|run| - 1];
      var s := Run(c, Init(init), before).value;
      RunWithoutMethod(c, init, before);
      if a.Step? {
        LocalWithoutLogin(c, Observe(s), a.id, s.tasks[a.id]);
      }
    }
  }

  lemma EndsArePossible(c: Config, init: Option<string>, run: seq<Action>, id: nat, reply: Reply)
    requires LoginIsExempt(c) && Run(c, Init(init), run).Some? && IsCaller(run, id)
    requires var s := Run(c, Init(init), run).value;
             id in s.tasks && |s.tasks[id].frames| == 1 && TopPc(s.tasks[id]) == Finished(reply)
    ensures var t := Run(c, Init(init), run).value.tasks[id]; Possible(c, t.calls, t.answers, t.stored, reply)
  {
    RunKeepsTasks(c, init, run);
    CallersAreNoWriters(c, init, run, id);
    if c.loginPath.None? {
      RunWithoutMethod(c, init, run);
    }
  }

  // --- Each of these ways ---

  lemma GotoAt(path: Bytes, calls: seq<Call>, answers: seq<Reply>, stored: seq<AuthInfo>)
    ensures forall pc, pc' ::
              Goto(AtPc(path, pc, calls, answers, stored), pc') == AtPc(path, pc', calls, answers, stored)
  {
  }

  lemma Steps(c: Config, run0: seq<Action>, s0: State, id: nat, t: Task) returns (run: seq<Action>, s: State)
    requires Leads(c, Init(None), run0, s0) && IsCaller(run0, id) && id in s0.tasks
    requires Local(c, Observe(s0), id, s0.tasks[id]).Some?
    requires Local(c, Observe(s0), id, s0.tasks[id]).value.task == t
    ensures Leads(c, Init(None), run, s) && IsCaller(run, id) && id in s.tasks && s.tasks[id] == t
  {
    run, s := Extend(c, run0, s0, Step(id));
  }

  lemma IsAnswered(c: Config, run0: seq<Action>, s0: State, id: nat, reply: Reply, t: Task)
    returns (run: seq<Action>, s: State)
    requires Leads(c, Init(None), run0, s0) && IsCaller(run0, id) && id in s0.tasks
    requires Receive(c, s0.tasks[id], reply) == Some(t)
    ensures Leads(c, Init(None), run, s) && IsCaller(run, id) && id in s.tasks && s.tasks[id] == t
  {
    run, s := Extend(c, run0, s0, Respond(id, reply));
  }

  /** From a request that is to be sent to its answer. */
  lemma SendsItsRequest(c: Config, run0: seq<Action>, s0: State, id: nat, path: Bytes, calls: seq<Call>,
                        answers: seq<Reply>, stored: seq<AuthInfo>, reply: Reply)
    returns (run: seq<Action>, s: State)
    requires Leads(c, Init(None), run0, s0) && IsCaller(run0, id) && id in s0.tasks
    requires s0.tasks[id] == AtPc(path, SendRequest, calls, answers, stored)
    ensures Leads(c, Init(None), run, s) && IsCaller(run, id) && id in s.tasks
    ensures s.tasks[id] == AtPc(path, Finished(reply), calls + [Request], answers + [reply], stored)
  {
    GotoAt(path, calls, answers, stored);
    GotoAt(path, calls + [Request], answers + [reply], stored);
    run, s := Steps(c, run0, s0, id, AtPc(path, InFlight, calls + [Request], answers, stored));
    var answered := AtPc(path, InFlight, calls + [Request], answers + [reply], stored);
    assert s.tasks[id].(answers := answers + [reply]) == answered;
    run, s := IsAnswered(c, run, s, id, reply, Goto(answered, Finished(reply)));
  }

  /** From the answer to a renewal to the end of the section with the lock, or to the login in it. */
  lemma RenewalEnds(c: Config, run0: seq<Action>, s0: State, id: nat, path: Bytes, reply: Reply)
    returns (run: seq<Action>, s: State)
    requires Leads(c, Init(None), run0, s0) && IsCaller(run0, id) && id in s0.tasks
    requires s0.tasks[id] == AtPc(path, RenewInFlight, [RenewSelf], [], [])
    ensures Leads(c, Init(None), run, s) && IsCaller(run, id) && id in s.tasks
    ensures s.tasks[id] ==
            match reply
            case Failed =>
              AtPc(path, if c.loginPath.Some? then StartLogin(true) else Finished(Failed), [RenewSelf], [Failed], [])
            case Answered(None) => AtPc(path, SendRequest, [RenewSelf], [reply], [])
            case Answered(Some(auth)) => AtPc(path, SendRequest, [RenewSelf], [reply], [auth])
  {
    var calls: seq<Call> := [RenewSelf];
    var answers := [reply];
    assert s0.tasks[id].(answers := [] + [reply]) == AtPc(path, RenewInFlight, calls, answers, []);
    GotoAt(path, calls, answers, []);
    match reply
    case Failed =>
      if c.loginPath.Some? {
        run, s := IsAnswered(c, run0, s0, id, reply, AtPc(path, StartLogin(true), calls, answers, []));
      } else {
        run, s := IsAnswered(c, run0, s0, id, reply, AtPc(path, Unlock(false), calls, answers, []));
        run, s := Steps(c, run, s, id, AtPc(path, Finished(Failed), calls, answers, []));
      }
    case Answered(None) =>
      run, s := IsAnswered(c, run0, s0, id, reply, AtPc(path, Unlock(true), calls, answers, []));
      run, s := Steps(c, run, s, id, AtPc(path, SendRequest, calls, answers, []));
    case Answered(Some(auth)) =>
      run, s := IsAnswered(c, run0, s0, id, reply, AtPc(path, RenewStore(auth), calls, answers, []));
      assert [] + [auth] == [auth];
      GotoAt(path, calls, answers, [auth]);
      run, s := Steps(c, run, s, id, AtPc(path, RenewNotify(auth), calls, answers, [auth]));
      run, s := Steps(c, run, s, id, AtPc(path, Unlock(true), calls, answers, [auth]));
      run, s := Steps(c, run, s, id, AtPc(path, SendRequest, calls, answers, [auth]));
  }

  function Nested2(path: Bytes, locked: bool, login: Bytes, pc: Pc, calls: seq<Call>, answers: seq<Reply>): Task {
    Task([Frame(path, LoginWait(locked)), Frame(login, pc)], calls, answers, [])
  }

  lemma GotoNested(path: Bytes, locked: bool, login: Bytes, pc: Pc, pc': Pc, calls: seq<Call>, answers: seq<Reply>)
    ensures Goto(Nested2(path, locked, login, pc, calls, answers), pc')
            == Nested2(path, locked, login, pc', calls, answers)
  {
  }

  /** From the decision to log in to the answer. */
  lemma LoginIsAnswered(c: Config, run0: seq<Action>, s0: State, id: nat, path: Bytes, locked: bool, reply: Reply)
    returns (run: seq<Action>, s: State)
    requires Leads(c, Init(None), run0, s0) && IsCaller(run0, id) && id in s0.tasks
    requires c.loginPath.Some? && LoginIsExempt(c)
    requires s0.tasks[id] == AtPc(path, StartLogin(locked), Before(locked), AnswersBefore(locked), [])
    ensures Leads(c, Init(None), run, s) && IsCaller(run, id) && id in s.tasks
    ensures s.tasks[id] == Nested2(path, locked, c.loginPath.value, Finished(reply),
                                   Before(locked) + [Login], AnswersBefore(locked) + [reply])
  {
    var login, calls, answers := c.loginPath.value, Before(locked), AnswersBefore(locked);
    assert Push(Goto(s0.tasks[id], LoginWait(locked)), login) == Nested2(path, locked, login, Enter, calls, answers);
    run, s := Steps(c, run0, s0, id, Nested2(path, locked, login, Enter, calls, answers));
    GotoNested(path, locked, login, Enter, SendRequest, calls, answers);
    run, s := Steps(c, run, s, id, Nested2(path, locked, login, SendRequest, calls, answers));
    GotoNested(path, locked, login, SendRequest, InFlight, calls, answers);
    run, s := Steps(c, run, s, id, Nested2(path, locked, login, InFlight, calls + [Login], answers));
    GotoNested(path, locked, login, InFlight, Finished(reply), calls + [Login], answers + [reply]);
    run, s := IsAnswered(c, run, s, id, reply,
                         Nested2(path, locked, login, Finished(reply), calls + [Login], answers + [reply]));
  }

  /** One of the two stores of a login, with its announcement. */
  lemma LoginStores(c: Config, run0: seq<Action>, s0: State, id: nat, path: Bytes, locked: bool, auth: AuthInfo,
                    calls: seq<Call>, answers: seq<Reply>, inner: bool)
    returns (run: seq<Action>, s: State)
    requires Leads(c, Init(None), run0, s0) && IsCaller(run0, id) && id in s0.tasks
    requires s0.tasks[id] == if inner then AtPc(path, InnerStore(auth, locked), calls, answers, [])
                             else AtPc(path, OuterStore(auth, locked), calls, answers, [auth])
    ensures Leads(c, Init(None), run, s) && IsCaller(run, id) && id in s.tasks
    ensures s.tasks[id] == if inner then AtPc(path, OuterStore(auth, locked), calls, answers, [auth])
                           else AtPc(path, AfterLogin(locked, true), calls, answers, [auth, auth])
  {
    if inner {
      assert [] + [auth] == [auth];
      GotoAt(path, calls, answers, []);
      GotoAt(path, calls, answers, [auth]);
      run, s := Steps(c, run0, s0, id, AtPc(path, InnerNotify(auth, locked), calls, answers, [auth]));
      run, s := Steps(c, run, s, id, AtPc(path, OuterStore(auth, locked), calls, answers, [auth]));
    } else {
      assert [auth] + [auth] == [auth, auth];
      GotoAt(path, calls, answers, [auth]);
      GotoAt(path, calls, answers, [auth, auth]);
      run, s := Steps(c, run0, s0, id, AtPc(path, OuterNotify(auth, locked), calls, answers, [auth, auth]));
      run, s := Steps(c, run, s, id, AtPc(path, AfterLogin(locked, true), calls, answers, [auth, auth]));
    }
  }

  /** From a good answer to the login to the request. */
  lemma LoginSucceeds(c: Config, run0: seq<Action>, s0: State, id: nat, path: Bytes, locked: bool, auth: AuthInfo,
                      calls: seq<Call>, answers: seq<Reply>)
    returns (run: seq<Action>, s: State)
    requires Leads(c, Init(None), run0, s0) && IsCaller(run0, id) && id in s0.tasks && c.loginPath.Some?
    requires s0.tasks[id] == Nested2(path, locked, c.loginPath.value, Finished(Answered(Some(auth))), calls, answers)
    ensures Leads(c, Init(None), run, s) && IsCaller(run, id) && id in s.tasks
    ensures s.tasks[id] == AtPc(path, SendRequest, calls, answers, [auth, auth])
  {
    assert Pop(s0.tasks[id]) == AtPc(path, LoginWait(locked), calls, answers, []);
    GotoAt(path, calls, answers, []);
    run, s := Steps(c, run0, s0, id, AtPc(path, InnerStore(auth, locked), calls, answers, []));
    run, s := LoginStores(c, run, s, id, path, locked, auth, calls, answers, true);
    run, s := LoginStores(c, run, s, id, path, locked, auth, calls, answers, false);
    if locked {
      GotoAt(path, calls, answers, [auth, auth]);
      run, s := Steps(c, run, s, id, AtPc(path, SendRequest, calls, answers, [auth, auth]));
    }
  }

  /** From a bad answer to the login to the end. */
  lemma LoginFails(c: Config, run0: seq<Action>, s0: State, id: nat, path: Bytes, locked: bool, reply: Reply,
                   calls: seq<Call>, answers: seq<Reply>)
    returns (run: seq<Action>, s: State)
    requires Leads(c, Init(None), run0, s0) && IsCaller(run0, id) && id in s0.tasks && c.loginPath.Some?
    requires s0.tasks[id] == Nested2(path, locked, c.loginPath.value, Finished(reply), calls, answers)
    requires reply in {Failed, Answered(None)}
    ensures Leads(c, Init(None), run, s) && IsCaller(run, id) && id in s.tasks
    ensures s.tasks[id] == AtPc(path, Finished(Failed), calls, answers, [])
  {
    assert Pop(s0.tasks[id]) == AtPc(path, LoginWait(locked), calls, answers, []);
    GotoAt(path, calls, answers, []);
    run, s := Steps(c, run0, s0, id, AtPc(path, AfterLogin(locked, false), calls, answers, []));
    if locked {
      run, s := Steps(c, run, s, id, AtPc(path, Finished(Failed), calls, answers, []));
    }
  }

  // --- How a call gets there ---

  /** The client has a token that never expires. */
  lemma ReachRequest(c: Config, path: Bytes) returns (run: seq<Action>, s: State)
    requires !IsLogin(path)
    ensures Leads(c, Init(None), run, s) && IsCaller(run, 1) && 1 in s.tasks
    ensures s.tasks[1] == AtPc(path, SendRequest, [], [], [])
  {
    GotoAt(path, [], [], []);
    run := [SetToken("")];
    assert run[..0] == [];
    s := Next(c, Init(None), SetToken("")).value;
    run, s := Extend(c, run, s, Spawn(1, path));
    run, s := Extend(c, run, s, Step(1));
    run, s := Extend(c, run, s, Step(1));
  }

  /** The client has no token. */
  lemma ReachLogin(c: Config, path: Bytes) returns (run: seq<Action>, s: State)
    requires !IsLogin(path) && c.loginPath.Some?
    ensures Leads(c, Init(None), run, s) && IsCaller(run, 1) && 1 in s.tasks
    ensures s.tasks[1] == AtPc(path, StartLogin(false), [], [], [])
  {
    GotoAt(path, [], [], []);
    run := [Spawn(1, path)];
    assert run[..0] == [];
    s := Next(c, Init(None), Spawn(1, path)).value;
    run, s := Extend(c, run, s, Step(1));
    run, s := Extend(c, run, s, Step(1));
  }

  /** Somebody else has stored a token that is due. */
  lemma ReachDueToken(c: Config) returns (run: seq<Action>, s: State)
    ensures Leads(c, Init(None), run, s) && IsCaller(run, 1)
    ensures DueForRenewal(s) && s.lock == None && s.tasks.Keys == {0}
  {
    run := [SpawnWriter(0, LEASE)];
    assert run[..0] == [];
    s := Next(c, Init(None), SpawnWriter(0, LEASE)).value;
    run, s := WriterStores(c, run, s, 0, LEASE);
    run, s := Extend(c, run, s, Tick(800 * MILLI));
  }

  lemma ReachLock(c: Config, path: Bytes) returns (run: seq<Action>, s: State)
    requires !IsLogin(path)
    ensures Leads(c, Init(None), run, s) && IsCaller(run, 1) && 1 in s.tasks && DueForRenewal(s)
    ensures exists seen :: s.tasks[1] == AtPc(path, Recheck(seen), [], [], [])
  {
    GotoAt(path, [], [], []);
    run, s := ReachDueToken(c);
    var seen := s.version;
    run, s := Extend(c, run, s, Spawn(1, path));
    run, s := Extend(c, run, s, Step(1));
    run, s := Extend(c, run, s, Step(1));
    run, s := Extend(c, run, s, Step(1));
    assert s.tasks[1] == AtPc(path, Recheck(seen), [], [], []);
  }

  lemma ReachRenewal(c: Config, path: Bytes) returns (run: seq<Action>, s: State)
    requires !IsLogin(path)
    ensures Leads(c, Init(None), run, s) && IsCaller(run, 1) && 1 in s.tasks
    ensures s.tasks[1] == AtPc(path, RenewInFlight, [RenewSelf], [], [])
  {
    GotoAt(path, [], [], []);
    run, s := ReachLock(c, path);
    run, s := Steps(c, run, s, 1, AtPc(path, RenewReady, [], [], []));
    assert [] + [RenewSelf] == [RenewSelf];
    run, s := Steps(c, run, s, 1, AtPc(path, RenewInFlight, [RenewSelf], [], []));
  }

  // --- All of them ---

  lemma ReachLoginAnswer(c: Config, path: Bytes, locked: bool, reply: Reply) returns (run: seq<Action>, s: State)
    requires !IsLogin(path) && c.loginPath.Some? && LoginIsExempt(c)
    ensures Leads(c, Init(None), run, s) && IsCaller(run, 1) && 1 in s.tasks
    ensures s.tasks[1] == Nested2(path, locked, c.loginPath.value, Finished(reply),
                                  Before(locked) + [Login], AnswersBefore(locked) + [reply])
  {
    if locked {
      run, s := ReachRenewal(c, path);
      run, s := RenewalEnds(c, run, s, 1, path, Failed);
    } else {
      run, s := ReachLogin(c, path);
    }
    run, s := LoginIsAnswered(c, run, s, 1, path, locked, reply);
  }

  lemma PassedIsReached(c: Config, path: Bytes, calls: seq<Call>, answers: seq<Reply>, stored: seq<AuthInfo>)
    returns (run: seq<Action>, s: State)
    requires LoginIsExempt(c) && !IsLogin(path) && Passed(calls, answers, stored)
    requires Login in calls ==> c.loginPath.Some?
    ensures Leads(c, Init(None), run, s) && IsCaller(run, 1) && 1 in s.tasks
    ensures s.tasks[1] == AtPc(path, SendRequest, calls, answers, stored)
  {
    if calls == [] {
      run, s := ReachRequest(c, path);
    } else if calls == [RenewSelf] {
      run, s := ReachRenewal(c, path);
      run, s := RenewalEnds(c, run, s, 1, path, answers[0]);
    } else {
      var locked, reply := calls[0] == RenewSelf, Answered(Some(stored[0]));
      assert calls == Before(locked) + [Login] && answers == AnswersBefore(locked) + [reply];
      assert stored == [stored[0], stored[0]];
      run, s := ReachLoginAnswer(c, path, locked, reply);
      run, s := LoginSucceeds(c, run, s, 1, path, locked, stored[0], calls, answers);
    }
  }

  lemma StoppedIsReached(c: Config, path: Bytes, calls: seq<Call>, answers: seq<Reply>)
    returns (run: seq<Action>, s: State)
    requires LoginIsExempt(c) && !IsLogin(path) && Stopped(c, calls, answers, [])
    requires Login in calls ==> c.loginPath.Some?
    ensures Leads(c, Init(None), run, s) && IsCaller(run, 1) && 1 in s.tasks
    ensures s.tasks[1] == AtPc(path, Finished(Failed), calls, answers, [])
  {
    if calls == [RenewSelf] {
      run, s := ReachRenewal(c, path);
      run, s := RenewalEnds(c, run, s, 1, path, Failed);
    } else {
      var locked, reply := calls[0] == RenewSelf, answers[|answers| - 1];
      assert calls == Before(locked) + [Login] && answers == AnswersBefore(locked) + [reply];
      run, s := ReachLoginAnswer(c, path, locked, reply);
      run, s := LoginFails(c, run, s, 1, path, locked, reply, calls, answers);
    }
  }

  lemma PossibleIsReached(c: Config, path: Bytes, calls: seq<Call>, answers: seq<Reply>, stored: seq<AuthInfo>,
                          reply: Reply)
    returns (run: seq<Action>, s: State)
    requires LoginIsExempt(c) && !IsLogin(path) && Possible(c, calls, answers, stored, reply)
    ensures Leads(c, Init(None), run, s) && IsCaller(run, 1) && 1 in s.tasks
    ensures s.tasks[1] == AtPc(path, Finished(reply), calls, answers, stored)
  {
    if Requested(calls, answers, stored, reply) {
      var before, replies := calls[..|calls| - 1], answers[..|answers| - 1];
      assert calls == before + [Request] && answers == replies + [reply];
      run, s := PassedIsReached(c, path, before, replies, stored);
      run, s := SendsItsRequest(c, run, s, 1, path, before, replies, stored, reply);
    } else {
      run, s := StoppedIsReached(c, path, calls, answers);
    }
  }

  /**
   * What calls of `execute` for a path have issued, received and stored when they give their
   * reply, over all runs: exactly what is possible.
   */
  lemma OutcomesExactly(c: Config, path: Bytes, calls: seq<Call>, answers: seq<Reply>, stored: seq<AuthInfo>,
                        reply: Reply)
    requires LoginIsExempt(c) && !IsLogin(path)
    ensures EndsSomewhere(c, path, calls, answers, stored, reply) <==> Possible(c, calls, answers, stored, reply)
  {
    if EndsSomewhere(c, path, calls, answers, stored, reply) {
      var init, run, s, id :|
        && Leads(c, Init(init), run, s) && IsCaller(run, id)
        && id in s.tasks && s.tasks[id] == AtPc(path, Finished(reply), calls, answers, stored);
      EndsArePossible(c, init, run, id, reply);
    }
    if Possible(c, calls, answers, stored, reply) {
      var run, s := PossibleIsReached(c, path, calls, answers, stored, reply);
    }
  }
}
