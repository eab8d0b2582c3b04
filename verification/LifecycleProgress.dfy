/**
 * What one call of `execute` does when the auth method logs in through an exempt path, as
 * every built-in method does: bounded nesting, ordered requests, no deadlock, an end.
 */
module LifecycleProgress {
  import opened Common
  import opened TokenStore
  import opened LoginPath
  import opened Lifecycle
  import opened LifecycleSafety

  /** The login request does not enter the token lifecycle itself. */
  predicate LoginIsExempt(c: Config) {
    c.loginPath.Some? ==> IsLogin(c.loginPath.value)
  }

  // --- What a caller has done by the time it is at a given place ---

  function Before(locked: bool): seq<Call> {
    if locked then [RenewSelf] else []
  }

  /** A caller that logs in under the lock does so because its renewal failed. */
  function AnswersBefore(locked: bool): seq<Reply> {
    if locked then [Failed] else []
  }

  /** The last request was a login, alone or after a failed renewal, and `reply` its answer. */
  predicate LoginAnswered(calls: seq<Call>, answers: seq<Reply>, reply: Reply) {
    || (calls == [Login] && answers == [reply])
    || (calls == [RenewSelf, Login] && answers == [Failed, reply])
  }

  /**
   * The lifecycle let the caller through: it had nothing to do, or its renewal was answered,
   * or its login was answered with an auth value that was then stored twice.
   */
  predicate Passed(calls: seq<Call>, answers: seq<Reply>, stored: seq<AuthInfo>) {
    || (calls == [] && answers == [] && stored == [])
    || (calls == [RenewSelf] && answers == [Answered(None)] && stored == [])
    || (calls == [RenewSelf] && |stored| == 1 && answers == [Answered(Some(stored[0]))])
    || (|stored| == 2 && stored[0] == stored[1] && LoginAnswered(calls, answers, Answered(Some(stored[0]))))
  }

  /**
   * The lifecycle turned the caller away, and nothing was stored: its renewal failed and
   * there is no method, or its login failed or was answered without an auth value.
   */
  predicate Stopped(c: Config, calls: seq<Call>, answers: seq<Reply>, stored: seq<AuthInfo>) {
    && stored == []
    && ((c.loginPath.None? && calls == [RenewSelf] && answers == [Failed])
        || LoginAnswered(calls, answers, Failed)
        || LoginAnswered(calls, answers, Answered(None)))
  }

  /** The request itself was issued after the lifecycle had let the caller through. */
  predicate Requesting(calls: seq<Call>, answers: seq<Reply>, stored: seq<AuthInfo>) {
    calls != [] && calls[|calls| - 1] == Request && Passed(calls[..|calls| - 1], answers, stored)
  }

  /** And it has been answered. */
  predicate Requested(calls: seq<Call>, answers: seq<Reply>, stored: seq<AuthInfo>, reply: Reply) {
    answers != [] && answers[|answers| - 1] == reply && Requesting(calls, answers[..|answers| - 1], stored)
  }

  predicate OuterOk(c: Config, pc: Pc, calls: seq<Call>, answers: seq<Reply>, stored: seq<AuthInfo>) {
    match pc
    case RenewInFlight => calls == [RenewSelf] && answers == [] && stored == []
    case RenewStore(auth) => calls == [RenewSelf] && answers == [Answered(Some(auth))] && stored == []
    case RenewNotify(auth) => calls == [RenewSelf] && answers == [Answered(Some(auth))] && stored == [auth]
    case StartLogin(locked) =>
      c.loginPath.Some? && calls == Before(locked) && answers == AnswersBefore(locked) && stored == []
    case LoginWait(_) => false
    case InnerStore(auth, locked) => LoggingIn(locked, auth, calls, answers) && stored == []
    case InnerNotify(auth, locked) => LoggingIn(locked, auth, calls, answers) && stored == [auth]
    case OuterStore(auth, locked) => LoggingIn(locked, auth, calls, answers) && stored == [auth]
    case OuterNotify(auth, locked) => LoggingIn(locked, auth, calls, answers) && stored == [auth, auth]
    case Unlock(ok) => if ok then Passed(calls, answers, stored) else Stopped(c, calls, answers, stored)
    case SendRequest => Passed(calls, answers, stored)
    case InFlight => Requesting(calls, answers, stored)
    case Finished(reply) =>
      || Requested(calls, answers, stored, reply)
      || (reply.Failed? && Stopped(c, calls, answers, stored))
      || (calls == [] && answers == [] && |stored| == 1)
    case OtherNotify(auth) => calls == [] && answers == [] && stored == [auth]
    case _ => calls == [] && answers == [] && stored == []
  }

  predicate LoggingIn(locked: bool, auth: AuthInfo, calls: seq<Call>, answers: seq<Reply>) {
    calls == Before(locked) + [Login] && answers == AnswersBefore(locked) + [Answered(Some(auth))]
  }

  predicate InnerOk(frame: Frame, locked: bool, calls: seq<Call>, answers: seq<Reply>, stored: seq<AuthInfo>) {
    && IsLogin(frame.path)
    && stored == []
    && match frame.pc
       case Enter => calls == Before(locked) && answers == AnswersBefore(locked)
       case SendRequest => calls == Before(locked) && answers == AnswersBefore(locked)
       case InFlight => calls == Before(locked) + [Login] && answers == AnswersBefore(locked)
       case Finished(reply) => calls == Before(locked) + [Login] && answers == AnswersBefore(locked) + [reply]
       case _ => false
  }

  /** A caller is dropped while it waits: for the lock, or for an answer. */
  predicate Dropped(calls: seq<Call>, answers: seq<Reply>, stored: seq<AuthInfo>) {
    || (stored == [] && answers == [] && (calls == [] || calls == [RenewSelf]))
    || (stored == [] && exists locked :: calls == Before(locked) + [Login] && answers == AnswersBefore(locked))
    || Requesting(calls, answers, stored)
  }

  predicate TaskOk(c: Config, t: Task) {
    if |t.frames| == 0 then Dropped(t.calls, t.answers, t.stored)
    else if |t.frames| == 1 then OuterOk(c, t.frames[0].pc, t.calls, t.answers, t.stored)
    else
      && |t.frames| == 2 && t.frames[0].pc.LoginWait?
      && InnerOk(t.frames[1], t.frames[0].pc.locked, t.calls, t.answers, t.stored)
  }

  predicate Writes(pc: Pc) {
    pc.RenewStore? || pc.InnerStore? || pc.OuterStore? || pc.OtherStore?
  }

  predicate Issues(pc: Pc) {
    pc.RenewReady? || pc.SendRequest?
  }

  lemma WriteKeepsTask(c: Config, v: View, id: nat, t: Task)
    requires |t.frames| == 1 && TaskOk(c, t) && Writes(TopPc(t))
    ensures var e := Local(c, v, id, t);
            e.Some? && e.value.task.frames != [] && TaskOk(c, e.value.task)
  {
    var t' := Local(c, v, id, t).value.task;
    if TopPc(t).OuterStore? {
      assert t'.stored == [TopPc(t).auth, TopPc(t).auth];
    }
  }

  lemma IssueKeepsTask(c: Config, v: View, id: nat, t: Task)
    requires |t.frames| == 1 && TaskOk(c, t) && Issues(TopPc(t))
    ensures var e := Local(c, v, id, t);
            e.Some? && e.value.task.frames != [] && TaskOk(c, e.value.task)
  {
  }

  /** The caller looks at the token, or is on its way to look. */
  predicate Looks(pc: Pc) {
    pc.Enter? || pc.ReadToken? || pc.AwaitLock? || pc.Recheck?
  }

  lemma LookKeepsTask(c: Config, v: View, id: nat, t: Task)
    requires |t.frames| == 1 && TaskOk(c, t) && Looks(TopPc(t)) && Local(c, v, id, t).Some?
    ensures var t' := Local(c, v, id, t).value.task;
            t'.frames != [] && TaskOk(c, t')
  {
  }

  /** The caller announces what it has stored. */
  predicate Announces(pc: Pc) {
    pc.RenewNotify? || pc.InnerNotify? || pc.OuterNotify? || pc.OtherNotify?
  }

  lemma AnnouncementKeepsTask(c: Config, v: View, id: nat, t: Task)
    requires |t.frames| == 1 && TaskOk(c, t) && Announces(TopPc(t))
    ensures var e := Local(c, v, id, t);
            e.Some? && e.value.task.frames != [] && TaskOk(c, e.value.task)
  {
  }

  lemma OuterKeepsTask(c: Config, v: View, id: nat, t: Task)
    requires |t.frames| == 1 && TaskOk(c, t) && Local(c, v, id, t).Some?
    requires LoginIsExempt(c)
    ensures var t' := Local(c, v, id, t).value.task;
            t'.frames != [] && TaskOk(c, t')
  {
    if Writes(TopPc(t)) {
      WriteKeepsTask(c, v, id, t);
    } else if Issues(TopPc(t)) {
      IssueKeepsTask(c, v, id, t);
    } else if Looks(TopPc(t)) {
      LookKeepsTask(c, v, id, t);
    } else if Announces(TopPc(t)) {
      AnnouncementKeepsTask(c, v, id, t);
    }
  }

  lemma InnerKeepsTask(c: Config, v: View, id: nat, t: Task)
    requires |t.frames| == 2 && TaskOk(c, t) && Local(c, v, id, t).Some?
    ensures var t' := Local(c, v, id, t).value.task;
            t'.frames != [] && TaskOk(c, t')
  {
    if TopPc(t).Finished? {
      ReturnKeepsTask(c, t, TopPc(t).reply);
    }
  }

  lemma ReturnKeepsTask(c: Config, t: Task, reply: Reply)
    requires |t.frames| == 2 && t.frames[0].pc.LoginWait? && t.stored == []
    requires var locked := t.frames[0].pc.locked;
             t.calls == Before(locked) + [Login] && t.answers == AnswersBefore(locked) + [reply]
    ensures Return(t, reply).frames != [] && TaskOk(c, Return(t, reply))
  {
    assert LoginAnswered(t.calls, t.answers, reply);
    match reply
    case Failed =>
    case Answered(None) =>
    case Answered(Some(auth)) =>
  }

  lemma ReceiveKeepsTask(c: Config, t: Task, reply: Reply)
    requires TaskOk(c, t) && Receive(c, t, reply).Some?
    ensures var t' := Receive(c, t, reply).value;
            t'.frames != [] && TaskOk(c, t')
  {
  }

  predicate TasksInv(c: Config, s: State) {
    forall id :: id in s.tasks ==> TaskOk(c, s.tasks[id])
  }

  lemma NextKeepsTasks(c: Config, s: State, a: Action)
    requires LoginIsExempt(c) && TasksInv(c, s) && Next(c, s, a).Some?
    ensures TasksInv(c, Next(c, s, a).value)
  {
    match a
    case Step(id) =>
      if |s.tasks[id].frames| == 1 {
        OuterKeepsTask(c, Observe(s), id, s.tasks[id]);
      } else {
        InnerKeepsTask(c, Observe(s), id, s.tasks[id]);
      }
    case Respond(id, reply) => ReceiveKeepsTask(c, s.tasks[id], reply);
    case Cancel(id) => CancelKeepsTask(c, s.tasks[id]);
    case _ =>
  }

  lemma CancelKeepsTask(c: Config, t: Task)
    requires TaskOk(c, t) && Suspended(t)
    ensures Dropped(t.calls, t.answers, t.stored)
  {
  }

  lemma {:induction false} RunKeepsTasks(c: Config, init: Option<string>, run: seq<Action>)
    requires LoginIsExempt(c) && Run(c, Init(init), run).Some?
    ensures TasksInv(c, Run(c, Init(init), run).value)
  {
    if run != [] {
      var before := run[..|run| - 1];
      RunKeepsTasks(c, init, before);
      NextKeepsTasks(c, Run(c, Init(init), before).value, run[|run| - 1]);
    }
  }

  // --- One call ---

  function Order(call: Call): nat {
    match call case RenewSelf => 0 case Login => 1 case Request => 2
  }

  predicate InOrder(calls: seq<Call>) {
    forall i, j :: 0 <= i < j < |calls| ==> Order(calls[i]) < Order(calls[j])
  }

  /**
   * In every run, a caller has at most two nested activations, and has issued at most one
   * renew-self, one login and one request, in this order. If it issued the request, its
   * renewal, if any, was answered, or else failed and was followed by a login; and its
   * login, if any, was answered with an auth value that it stored twice.
   */
  lemma CallsInOrder(c: Config, init: Option<string>, run: seq<Action>, id: nat)
    requires LoginIsExempt(c) && Run(c, Init(init), run).Some?
    requires id in Run(c, Init(init), run).value.tasks
    ensures var t := Run(c, Init(init), run).value.tasks[id];
            && |t.frames| <= 2
            && |t.answers| <= |t.calls| <= 3 && InOrder(t.calls)
            && (Request in t.calls && RenewSelf in t.calls ==>
                  t.calls[0] == RenewSelf && t.answers != [] && (t.answers[0].Failed? <==> Login in t.calls))
            && (Request in t.calls && Login in t.calls ==>
                  exists auth :: t.stored == [auth, auth] && Answered(Some(auth)) in t.answers)
  {
    RunKeepsTasks(c, init, run);
    TaskIsInOrder(c, Run(c, Init(init), run).value.tasks[id]);
  }

  lemma TaskIsInOrder(c: Config, t: Task)
    requires TaskOk(c, t)
    ensures |t.answers| <= |t.calls| <= 3 && InOrder(t.calls)
    ensures Request in t.calls && RenewSelf in t.calls ==>
              t.calls[0] == RenewSelf && t.answers != [] && (t.answers[0].Failed? <==> Login in t.calls)
    ensures Request in t.calls && Login in t.calls ==>
              exists auth :: t.stored == [auth, auth] && Answered(Some(auth)) in t.answers
  {
    if Request in t.calls {
      RequestIsLast(c, t);
      var answered := |t.frames| == 1 && TopPc(t).Finished?;
      var before := if answered then t.answers[..|t.answers| - 1] else t.answers;
      assert before <= t.answers;
      RequestedInOrder(t.calls, before, t.stored);
    } else {
      WithoutRequest(c, t);
    }
  }

  lemma WithoutRequest(c: Config, t: Task)
    requires TaskOk(c, t) && Request !in t.calls
    ensures |t.answers| <= |t.calls| <= 2 && InOrder(t.calls)
  {
  }

  lemma RequestedInOrder(calls: seq<Call>, answers: seq<Reply>, stored: seq<AuthInfo>)
    requires Requesting(calls, answers, stored)
    ensures |answers| + 1 == |calls| <= 3 && InOrder(calls)
    ensures RenewSelf in calls ==> calls[0] == RenewSelf && answers != [] && (answers[0].Failed? <==> Login in calls)
    ensures Login in calls ==> exists auth :: stored == [auth, auth] && Answered(Some(auth)) in answers
  {
    var before := calls[..|calls| - 1];
    assert calls == before + [Request];
    if before == [] {
      assert calls == [Request];
    } else if before == [RenewSelf] {
      assert calls == [RenewSelf, Request];
    } else {
      assert stored == [stored[0], stored[0]];
      assert Answered(Some(stored[0])) == answers[|answers| - 1];
      assert calls == [Login, Request] || calls == [RenewSelf, Login, Request];
    }
  }

  lemma LifecycleMakesNoRequest(c: Config, calls: seq<Call>, answers: seq<Reply>, stored: seq<AuthInfo>)
    requires Passed(calls, answers, stored) || Stopped(c, calls, answers, stored)
    ensures Request !in calls && |answers| == |calls|
  {
  }

  /** Only the activation of the user makes the request, and makes it last. */
  lemma RequestIsLast(c: Config, t: Task)
    requires TaskOk(c, t) && Request in t.calls
    ensures if |t.frames| == 1 && TopPc(t).Finished? then Requested(t.calls, t.answers, t.stored, TopPc(t).reply)
            else Requesting(t.calls, t.answers, t.stored)
  {
    if |t.frames| == 1 {
      match TopPc(t)
      case Unlock(_) => LifecycleMakesNoRequest(c, t.calls, t.answers, t.stored);
      case SendRequest => LifecycleMakesNoRequest(c, t.calls, t.answers, t.stored);
      case Finished(reply) =>
        if !Requested(t.calls, t.answers, t.stored, reply) && t.calls != [] {
          LifecycleMakesNoRequest(c, t.calls, t.answers, t.stored);
        }
      case _ =>
    }
  }

  lemma AnswersMatchCalls(t: Task)
    requires |t.frames| == 1 && TopPc(t).Finished? && Requested(t.calls, t.answers, t.stored, TopPc(t).reply)
    ensures |t.answers| == |t.calls| && TopPc(t).reply == t.answers[|t.answers| - 1]
  {
    RequestedInOrder(t.calls, t.answers[..|t.answers| - 1], t.stored);
  }

  /** What a finished call of `execute` gives back: the answer to the request, or a failure. */
  predicate Earned(c: Config, t: Task, reply: Reply) {
    if Request in t.calls then
      |t.answers| == |t.calls| && reply == t.answers[|t.answers| - 1]
    else
      && reply.Failed?
      && t.answers != [] && |t.answers| == |t.calls|
      && var last := t.answers[|t.answers| - 1];
         if Login in t.calls then !last.Answered? || last.auth.None?
         else t.calls == [RenewSelf] && last.Failed? && c.loginPath.None?
  }

  // --- Callers and writers ---

  /** The task is a writer, at work or done. */
  predicate WritesOnly(t: Task) {
    |t.frames| == 1 && (TopPc(t).OtherStore? || TopPc(t).OtherNotify? || (TopPc(t).Finished? && t.calls == []))
  }

  lemma StepKeepsWriters(c: Config, v: View, id: nat, t: Task)
    requires TaskOk(c, t) && Local(c, v, id, t).Some? && WritesOnly(Local(c, v, id, t).value.task)
    ensures WritesOnly(t)
  {
    var t' := Local(c, v, id, t).value.task;
    if |t.frames| == 2 && TopPc(t).Finished? {
      ReturnKeepsTask(c, t, TopPc(t).reply);
    } else if !ChangesNesting(c, t) {
      LocalMoves(c, v, id, t);
    }
  }

  lemma ReplyMakesNoWriter(c: Config, t: Task, reply: Reply)
    requires TaskOk(c, t) && Receive(c, t, reply).Some?
    ensures !WritesOnly(Receive(c, t, reply).value)
  {
  }

  /** A task of the run that was not started as a writer. */
  ghost predicate IsCaller(run: seq<Action>, id: nat) {
    forall auth :: SpawnWriter(id, auth) !in run
  }

  lemma {:induction false} CallersAreNoWriters(c: Config, init: Option<string>, run: seq<Action>, id: nat)
    requires LoginIsExempt(c) && Run(c, Init(init), run).Some? && IsCaller(run, id)
    requires id in Run(c, Init(init), run).value.tasks
    ensures !WritesOnly(Run(c, Init(init), run).value.tasks[id])
  {
    var before, a := run[..|run| - 1], run[|run| - 1];
    var s := Run(c, Init(init), before).value;
    assert a in run && forall b :: b in before ==> b in run;
    RunKeepsTasks(c, init, before);
    if id in s.tasks {
      CallersAreNoWriters(c, init, before, id);
      if a == Step(id) && WritesOnly(Next(c, s, a).value.tasks[id]) {
        StepKeepsWriters(c, Observe(s), id, s.tasks[id]);
      } else if a.Respond? && a.id == id {
        ReplyMakesNoWriter(c, s.tasks[id], a.reply);
      }
    }
  }

  /**
   * In every run, a call of `execute` that has ended gives back the answer to its request, or
   * it was turned away: its login failed or brought no auth value, or its renewal failed and
   * there was no method to fall back on.
   */
  lemma ResultsAreEarned(c: Config, init: Option<string>, run: seq<Action>, id: nat)
    requires LoginIsExempt(c) && Run(c, Init(init), run).Some? && IsCaller(run, id)
    requires var s := Run(c, Init(init), run).value;
             && id in s.tasks && |s.tasks[id].frames| == 1 && TopPc(s.tasks[id]).Finished?
    ensures var t := Run(c, Init(init), run).value.tasks[id]; Earned(c, t, TopPc(t).reply)
  {
    RunKeepsTasks(c, init, run);
    CallersAreNoWriters(c, init, run, id);
    ResultIsEarned(c, Run(c, Init(init), run).value.tasks[id]);
  }

  lemma ResultIsEarned(c: Config, t: Task)
    requires TaskOk(c, t) && |t.frames| == 1 && TopPc(t).Finished? && t.calls != []
    ensures Earned(c, t, TopPc(t).reply)
  {
    if Request in t.calls {
      RequestIsLast(c, t);
      AnswersMatchCalls(t);
    }
  }

  // --- Every caller ends ---

  function PcRank(pc: Pc): nat {
    match pc
    case Enter => 18
    case ReadToken => 17
    case AwaitLock(_) => 16
    case Recheck(_) => 15
    case RenewReady => 14
    case RenewInFlight => 13
    case StartLogin(_) => 12
    case LoginWait(_) => 8
    case InnerStore(_, _) => 7
    case InnerNotify(_, _) => 6
    case OuterStore(_, _) => 5
    case OuterNotify(_, _) => 4
    case RenewStore(_) => 5
    case RenewNotify(_) => 4
    case Unlock(_) => 3
    case SendRequest => 2
    case InFlight => 1
    case Finished(_) => 0
    case OtherStore(_) => 2
    case OtherNotify(_) => 1
  }

  function InnerRank(pc: Pc): nat {
    match pc
    case Enter => 3
    case SendRequest => 2
    case InFlight => 1
    case _ => 0
  }

  /** An upper bound on the steps a caller still takes. */
  function Rank(t: Task): nat {
    if |t.frames| == 0 then 0
    else if |t.frames| == 1 then PcRank(t.frames[0].pc)
    else 8 + InnerRank(TopPc(t))
  }

  /** Where a single activation can go next: always to a lower rank. */
  lemma OuterLowersRank(c: Config, v: View, id: nat, t: Task)
    requires |t.frames| == 1 && Local(c, v, id, t).Some?
    ensures Rank(Local(c, v, id, t).value.task) < Rank(t)
  {
    var t' := Local(c, v, id, t).value.task;
    if ChangesNesting(c, t) {
      assert t'.frames[1].pc == Enter;
    } else {
      LocalMoves(c, v, id, t);
      assert Rank(t') == PcRank(TopPc(t'));
    }
  }

  lemma InnerLowersRank(c: Config, v: View, id: nat, t: Task)
    requires |t.frames| == 2 && TaskOk(c, t) && Local(c, v, id, t).Some?
    ensures Rank(Local(c, v, id, t).value.task) < Rank(t)
  {
    var t' := Local(c, v, id, t).value.task;
    if TopPc(t).Finished? {
      ReturnRank(t, TopPc(t).reply);
    } else {
      assert |t'.frames| == 2;
    }
  }

  lemma ReturnRank(t: Task, reply: Reply)
    requires |t.frames| == 2 && t.frames[0].pc.LoginWait?
    ensures Rank(Return(t, reply)) < 8
  {
  }

  lemma LocalLowersRank(c: Config, v: View, id: nat, t: Task)
    requires TaskOk(c, t) && Local(c, v, id, t).Some?
    ensures Rank(Local(c, v, id, t).value.task) < Rank(t)
  {
    if |t.frames| == 1 {
      OuterLowersRank(c, v, id, t);
    } else {
      InnerLowersRank(c, v, id, t);
    }
  }

  lemma ReceiveLowersRank(c: Config, t: Task, reply: Reply)
    requires TaskOk(c, t) && Receive(c, t, reply).Some?
    ensures Rank(Receive(c, t, reply).value) < Rank(t)
  {
  }

  predicate Concerns(a: Action, id: nat) {
    (a.Step? || a.Respond? || a.Cancel?) && a.id == id
  }

  /** The actions of a run in which caller `id` moves. */
  function Moves(run: seq<Action>, id: nat): nat {
    if run == [] then 0
    else Moves(run[..|run| - 1], id) + if Concerns(run[|run| - 1], id) then 1 else 0
  }

  lemma NextSpendsRank(c: Config, s: State, a: Action, id: nat)
    requires TasksInv(c, s) && Next(c, s, a).Some?
    ensures var s' := Next(c, s, a).value;
            && (Concerns(a, id) ==> id in s.tasks && id in s'.tasks && Rank(s'.tasks[id]) < Rank(s.tasks[id]))
            && (!Concerns(a, id) && id in s.tasks ==> id in s'.tasks && s'.tasks[id] == s.tasks[id])
            && (id !in s.tasks && id in s'.tasks ==> Rank(s'.tasks[id]) <= 18)
  {
    match a
    case Step(j) => LocalLowersRank(c, Observe(s), j, s.tasks[j]);
    case Respond(j, reply) => ReceiveLowersRank(c, s.tasks[j], reply);
    case Cancel(j) => assert Rank(s.tasks[j]) > 0;
    case _ =>
  }

  /** A caller moves at most 18 times, whatever the others, the server and the clock do. */
  lemma {:induction false} BoundedWork(c: Config, init: Option<string>, run: seq<Action>, id: nat)
    requires LoginIsExempt(c) && Run(c, Init(init), run).Some?
    ensures var s := Run(c, Init(init), run).value;
            Moves(run, id) + (if id in s.tasks then Rank(s.tasks[id]) else 0) <= 18
    ensures id !in Run(c, Init(init), run).value.tasks ==> Moves(run, id) == 0
  {
    if run != [] {
      var before := run[..|run| - 1];
      BoundedWork(c, init, before, id);
      RunKeepsTasks(c, init, before);
      NextSpendsRank(c, Run(c, Init(init), before).value, run[|run| - 1], id);
    }
  }

  /** The caller has its answer, or was dropped. */
  predicate Done(t: Task) {
    t.frames == [] || (|t.frames| == 1 && t.frames[0].pc.Finished?)
  }

  /** The caller can take its next step, or is waiting for an answer of the network. */
  predicate CanMove(c: Config, s: State, id: nat) {
    Next(c, s, Step(id)).Some? || Next(c, s, Respond(id, Failed)).Some?
  }

  lemma OnlyTheLockBlocks(c: Config, s: State, id: nat)
    requires LoginIsExempt(c) && TasksInv(c, s) && id in s.tasks && !Done(s.tasks[id])
    ensures CanMove(c, s, id) || (s.tasks[id].frames != [] && TopPc(s.tasks[id]).AwaitLock? && s.lock.Some?)
  {
  }

  lemma OwnerMoves(c: Config, s: State)
    requires LoginIsExempt(c) && TasksInv(c, s) && LockInv(s) && s.lock.Some?
    ensures CanMove(c, s, s.lock.value.task)
  {
  }

  /**
   * In every run, a caller can be dropped exactly where it waits: for an answer, or for the
   * lock, whether or not that is free.
   */
  lemma DroppedWhereItWaits(c: Config, init: Option<string>, run: seq<Action>, id: nat)
    requires LoginIsExempt(c) && Run(c, Init(init), run).Some?
    ensures var s := Run(c, Init(init), run).value;
            Next(c, s, Cancel(id)).Some? <==>
              || Next(c, s, Respond(id, Failed)).Some?
              || (id in s.tasks && s.tasks[id].frames != [] && TopPc(s.tasks[id]).AwaitLock?)
  {
  }

  /** No deadlock: whoever cannot move waits for the lock, and its owner, another caller, can move. */
  lemma NoDeadlock(c: Config, init: Option<string>, run: seq<Action>, id: nat)
    requires LoginIsExempt(c) && Run(c, Init(init), run).Some?
    requires var s := Run(c, Init(init), run).value; id in s.tasks && !Done(s.tasks[id])
    ensures var s := Run(c, Init(init), run).value;
            || CanMove(c, s, id)
            || (s.lock.Some? && s.lock.value.task != id && CanMove(c, s, s.lock.value.task))
  {
    RunKeepsTasks(c, init, run);
    RunKeepsLock(c, init, run);
    var s := Run(c, Init(init), run).value;
    OnlyTheLockBlocks(c, s, id);
    if s.lock.Some? {
      OwnerMoves(c, s);
    }
  }

  /** When nobody can move any more, everybody is done. */
  lemma StuckMeansDone(c: Config, init: Option<string>, run: seq<Action>)
    requires LoginIsExempt(c) && Run(c, Init(init), run).Some?
    requires forall id :: id in Run(c, Init(init), run).value.tasks ==>
               !CanMove(c, Run(c, Init(init), run).value, id)
    ensures forall id :: id in Run(c, Init(init), run).value.tasks ==>
              Done(Run(c, Init(init), run).value.tasks[id])
    ensures Run(c, Init(init), run).value.lock == None
  {
    var s := Run(c, Init(init), run).value;
    RunKeepsLock(c, init, run);
    RunKeepsTasks(c, init, run);
    if s.lock.Some? {
      OwnerMoves(c, s);
    }
    forall id | id in s.tasks
      ensures Done(s.tasks[id])
    {
      if !Done(s.tasks[id]) {
        NoDeadlock(c, init, run, id);
      }
    }
  }

  /** With a built-in method all of this holds for every mount and user name. */
  lemma BuiltInLoginIsExemptEverywhere(m: AuthMethod)
    ensures LoginIsExempt(Config(Some(Path(m))))
  {
    BuiltInLoginIsExempt(m);
  }
}
