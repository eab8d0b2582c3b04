/** Conservation of token changes: what is stored by an auth answer is announced, once. */
module LifecycleTokens {
  import opened Common
  import opened TokenStore
  import opened LoginPath
  import opened Lifecycle
  import opened LifecycleSafety
  import opened LifecycleProgress

  /** Who stored which auth value, and how often. A call of `set_token` is not among them. */
  function StoredBag(log: seq<Event>): multiset<(nat, AuthInfo)> {
    if log == [] then multiset{}
    else
      StoredBag(log[..|log| - 1]) + StoredBy(log[|log| - 1])
  }

  /** For whom `on_token_changed` was called with which value, and how often. */
  function NotifiedBag(log: seq<Event>): multiset<(nat, AuthInfo)> {
    if log == [] then multiset{}
    else
      NotifiedBag(log[..|log| - 1]) + NotifiedBy(log[|log| - 1])
  }

  /** The value a caller has stored but not announced yet. */
  function Pending(t: Task): Option<AuthInfo> {
    if t.frames == [] then None
    else match TopPc(t)
      case RenewNotify(auth) => Some(auth)
      case InnerNotify(auth, _) => Some(auth)
      case OuterNotify(auth, _) => Some(auth)
      case OtherNotify(auth) => Some(auth)
      case _ => None
  }

  function PendingBag(s: State, p: (nat, AuthInfo)): nat {
    if p.0 in s.tasks && Pending(s.tasks[p.0]) == Some(p.1) then 1 else 0
  }

  ghost predicate Conserved(s: State) {
    forall p :: StoredBag(s.log)[p] == NotifiedBag(s.log)[p] + PendingBag(s, p)
  }

  lemma LocalPending(c: Config, v: View, id: nat, t: Task)
    requires Nested(t.frames) && Local(c, v, id, t).Some?
    ensures var e := Local(c, v, id, t).value;
            match e.event
            case Some(Stored(j, _, auth, _)) => j == id && Pending(t) == None && Pending(e.task) == Some(auth)
            case Some(Notified(j, auth)) => j == id && Pending(t) == Some(auth) && Pending(e.task) == None
            case _ => Pending(t) == None && Pending(e.task) == None
  {
  }

  function StoredBy(e: Event): multiset<(nat, AuthInfo)> {
    match e case Stored(id, _, auth, _) => multiset{(id, auth)} case _ => multiset{}
  }

  function NotifiedBy(e: Event): multiset<(nat, AuthInfo)> {
    match e case Notified(id, auth) => multiset{(id, auth)} case _ => multiset{}
  }

  lemma BagsGrow(log: seq<Event>, e: Event)
    ensures StoredBag(log + [e]) == StoredBag(log) + StoredBy(e)
    ensures NotifiedBag(log + [e]) == NotifiedBag(log) + NotifiedBy(e)
  {
  }

  lemma PerformPending(s: State, id: nat, e: Effect, p: (nat, AuthInfo))
    requires id in s.tasks
    ensures PendingBag(Perform(s, id, e), p) ==
            if p.0 != id then PendingBag(s, p) else if Pending(e.task) == Some(p.1) then 1 else 0
  {
  }

  lemma PerformBags(s: State, id: nat, e: Effect)
    requires id in s.tasks
    ensures var log := Perform(s, id, e).log;
            match e.event
            case None => StoredBag(log) == StoredBag(s.log) && NotifiedBag(log) == NotifiedBag(s.log)
            case Some(ev) => && StoredBag(log) == StoredBag(s.log) + StoredBy(ev)
                             && NotifiedBag(log) == NotifiedBag(s.log) + NotifiedBy(ev)
  {
    if e.event.Some? {
      BagsGrow(s.log, e.event.value);
    } else {
      assert s.log + [] == s.log;
    }
  }

  lemma StepConservesAt(c: Config, s: State, id: nat, p: (nat, AuthInfo))
    requires LockInv(s) && Conserved(s) && id in s.tasks && Local(c, Observe(s), id, s.tasks[id]).Some?
    ensures var s' := Perform(s, id, Local(c, Observe(s), id, s.tasks[id]).value);
            StoredBag(s'.log)[p] == NotifiedBag(s'.log)[p] + PendingBag(s', p)
  {
    var e := Local(c, Observe(s), id, s.tasks[id]).value;
    LocalPending(c, Observe(s), id, s.tasks[id]);
    assert StoredBag(s.log)[p] == NotifiedBag(s.log)[p] + PendingBag(s, p);
    PerformPending(s, id, e, p);
    PerformBags(s, id, e);
  }

  lemma StepConserves(c: Config, s: State, id: nat)
    requires LockInv(s) && Conserved(s) && Next(c, s, Step(id)).Some?
    ensures Conserved(Next(c, s, Step(id)).value)
  {
    forall p
      ensures var s' := Next(c, s, Step(id)).value;
              StoredBag(s'.log)[p] == NotifiedBag(s'.log)[p] + PendingBag(s', p)
    {
      StepConservesAt(c, s, id, p);
    }
  }

  lemma QuietConserves(s: State, s': State)
    requires Conserved(s)
    requires StoredBag(s'.log) == StoredBag(s.log) && NotifiedBag(s'.log) == NotifiedBag(s.log)
    requires forall p :: PendingBag(s', p) == PendingBag(s, p)
    ensures Conserved(s')
  {
  }

  /** Nothing but a step of the caller itself changes what is pending, stored or announced. */
  lemma OthersKeepPending(c: Config, s: State, a: Action)
    requires Next(c, s, a).Some? && !a.Step?
    ensures forall p :: PendingBag(Next(c, s, a).value, p) == PendingBag(s, p)
  {
  }

  lemma OthersKeepBags(c: Config, s: State, a: Action)
    requires Next(c, s, a).Some? && !a.Step?
    ensures var s' := Next(c, s, a).value;
            StoredBag(s'.log) == StoredBag(s.log) && NotifiedBag(s'.log) == NotifiedBag(s.log)
  {
  }

  lemma NextConserves(c: Config, s: State, a: Action)
    requires LockInv(s) && Conserved(s) && Next(c, s, a).Some?
    ensures Conserved(Next(c, s, a).value)
  {
    if a.Step? {
      StepConserves(c, s, a.id);
    } else {
      OthersKeepPending(c, s, a);
      OthersKeepBags(c, s, a);
      QuietConserves(s, Next(c, s, a).value);
    }
  }

  lemma {:induction false} RunConserves(c: Config, init: Option<string>, run: seq<Action>)
    requires Run(c, Init(init), run).Some?
    ensures Conserved(Run(c, Init(init), run).value)
  {
    if run != [] {
      var before := run[..|run| - 1];
      RunConserves(c, init, before);
      RunKeepsLock(c, init, before);
      NextConserves(c, Run(c, Init(init), before).value, run[|run| - 1]);
    }
  }

  predicate AllDone(s: State) {
    forall id :: id in s.tasks ==> Done(s.tasks[id])
  }

  lemma NothingInvented(s: State)
    requires Conserved(s)
    ensures NotifiedBag(s.log) <= StoredBag(s.log)
  {
  }

  lemma NothingForgotten(s: State)
    requires Conserved(s) && AllDone(s)
    ensures NotifiedBag(s.log) == StoredBag(s.log)
  {
  }

  /** In every run nothing is announced that was not stored; once everybody is done, all of it has been. */
  lemma TokenChangesAreConserved(c: Config, init: Option<string>, run: seq<Action>)
    requires Run(c, Init(init), run).Some?
    ensures var s := Run(c, Init(init), run).value;
            && NotifiedBag(s.log) <= StoredBag(s.log)
            && (AllDone(s) ==> NotifiedBag(s.log) == StoredBag(s.log))
  {
    var s := Run(c, Init(init), run).value;
    RunConserves(c, init, run);
    NothingInvented(s);
    if AllDone(s) {
      NothingForgotten(s);
    }
  }

  // --- Who stored what ---

  function StoredCount(s: State, id: nat, auth: AuthInfo): nat {
    if id in s.tasks then multiset(s.tasks[id].stored)[auth] else 0
  }

  /** The log and the callers agree on who stored what, and how often. */
  ghost predicate BagsMatchTasks(s: State) {
    forall id, auth :: StoredBag(s.log)[(id, auth)] == StoredCount(s, id, auth)
  }

  lemma LocalStores(c: Config, v: View, id: nat, t: Task)
    requires Local(c, v, id, t).Some?
    ensures var e := Local(c, v, id, t).value;
            match e.event
            case Some(Stored(j, _, auth, _)) => j == id && e.task.stored == t.stored + [auth]
            case _ => e.task.stored == t.stored
  {
  }

  lemma StepKeepsBags(c: Config, s: State, id: nat, j: nat, auth: AuthInfo)
    requires BagsMatchTasks(s) && id in s.tasks && Local(c, Observe(s), id, s.tasks[id]).Some?
    ensures var s' := Perform(s, id, Local(c, Observe(s), id, s.tasks[id]).value);
            StoredBag(s'.log)[(j, auth)] == StoredCount(s', j, auth)
  {
    var e := Local(c, Observe(s), id, s.tasks[id]).value;
    LocalStores(c, Observe(s), id, s.tasks[id]);
    PerformBags(s, id, e);
    assert StoredBag(s.log)[(j, auth)] == StoredCount(s, j, auth);
  }

  lemma OthersKeepCounts(c: Config, s: State, a: Action, id: nat, auth: AuthInfo)
    requires Next(c, s, a).Some? && !a.Step?
    ensures StoredCount(Next(c, s, a).value, id, auth) == StoredCount(s, id, auth)
  {
  }

  lemma NextKeepsBags(c: Config, s: State, a: Action)
    requires BagsMatchTasks(s) && Next(c, s, a).Some?
    ensures BagsMatchTasks(Next(c, s, a).value)
  {
    forall id, auth
      ensures var s' := Next(c, s, a).value; StoredBag(s'.log)[(id, auth)] == StoredCount(s', id, auth)
    {
      if a.Step? {
        StepKeepsBags(c, s, a.id, id, auth);
      } else {
        OthersKeepBags(c, s, a);
        OthersKeepCounts(c, s, a, id, auth);
        assert StoredBag(s.log)[(id, auth)] == StoredCount(s, id, auth);
      }
    }
  }

  lemma {:induction false} RunKeepsBags(c: Config, init: Option<string>, run: seq<Action>)
    requires Run(c, Init(init), run).Some?
    ensures BagsMatchTasks(Run(c, Init(init), run).value)
  {
    if run != [] {
      var before := run[..|run| - 1];
      RunKeepsBags(c, init, before);
      NextKeepsBags(c, Run(c, Init(init), before).value, run[|run| - 1]);
    }
  }

  /**
   * In every run a caller that logged in and went on to its request has contributed exactly
   * two equal entries to what was stored, and once everybody is done, to what was announced.
   */
  lemma ReauthenticationCountsTwice(c: Config, init: Option<string>, run: seq<Action>, id: nat) returns (auth: AuthInfo)
    requires LoginIsExempt(c) && Run(c, Init(init), run).Some?
    requires var s := Run(c, Init(init), run).value;
             id in s.tasks && Login in s.tasks[id].calls && Request in s.tasks[id].calls
    ensures var s := Run(c, Init(init), run).value;
            && (forall a :: StoredBag(s.log)[(id, a)] == if a == auth then 2 else 0)
            && (AllDone(s) ==> forall a :: NotifiedBag(s.log)[(id, a)] == if a == auth then 2 else 0)
  {
    CallsInOrder(c, init, run, id);
    RunKeepsBags(c, init, run);
    TokenChangesAreConserved(c, init, run);
    var s := Run(c, Init(init), run).value;
    auth :| s.tasks[id].stored == [auth, auth];
    assert forall a :: StoredCount(s, id, a) == if a == auth then 2 else 0;
  }

  // --- Who sent what ---

  /** The requests of a caller in the log, in order. */
  function SentBy(log: seq<Event>, id: nat): seq<Call> {
    if log == [] then [] else SentBy(log[..|log| - 1], id) + CallOf(log[|log| - 1], id)
  }

  function CallOf(e: Event, id: nat): seq<Call> {
    match e case Sent(task, call, _) => if task == id then [call] else [] case _ => []
  }

  lemma SentGrows(log: seq<Event>, e: Event, id: nat)
    ensures SentBy(log + [e], id) == SentBy(log, id) + CallOf(e, id)
  {
    assert (log + [e])[..|log|] == log;
  }

  function CallsOf(s: State, id: nat): seq<Call> {
    if id in s.tasks then s.tasks[id].calls else []
  }

  lemma LocalSends(c: Config, v: View, id: nat, t: Task)
    requires Local(c, v, id, t).Some?
    ensures var e := Local(c, v, id, t).value;
            match e.event
            case Some(Sent(j, call, at)) => j == id && at == v.now && e.task.calls == t.calls + [call]
            case _ => e.task.calls == t.calls
  {
  }

  lemma StepKeepsCalls(c: Config, s: State, id: nat, j: nat)
    requires id in s.tasks && Local(c, Observe(s), id, s.tasks[id]).Some? && SentBy(s.log, j) == CallsOf(s, j)
    ensures var s' := Perform(s, id, Local(c, Observe(s), id, s.tasks[id]).value); SentBy(s'.log, j) == CallsOf(s', j)
  {
    var e := Local(c, Observe(s), id, s.tasks[id]).value;
    LocalSends(c, Observe(s), id, s.tasks[id]);
    if e.event.Some? {
      SentGrows(s.log, e.event.value, j);
    } else {
      assert s.log + [] == s.log;
    }
  }

  lemma OthersKeepCalls(c: Config, s: State, a: Action, j: nat)
    requires !a.Step? && Next(c, s, a).Some?
    ensures var s' := Next(c, s, a).value; CallsOf(s', j) == CallsOf(s, j) && SentBy(s'.log, j) == SentBy(s.log, j)
  {
    if a.SetToken? {
      SentGrows(s.log, TokenSet(a.value, s.now), j);
    }
  }

  /** In every run the log has a caller send exactly the requests that it issued, in order. */
  lemma {:induction false} LogMatchesCalls(c: Config, init: Option<string>, run: seq<Action>, id: nat)
    requires Run(c, Init(init), run).Some?
    ensures var s := Run(c, Init(init), run).value; SentBy(s.log, id) == CallsOf(s, id)
  {
    if run != [] {
      var before, a := run[..|run| - 1], run[|run| - 1];
      var s := Run(c, Init(init), before).value;
      LogMatchesCalls(c, init, before, id);
      if a.Step? {
        StepKeepsCalls(c, s, a.id, id);
      } else {
        OthersKeepCalls(c, s, a, id);
      }
    }
  }

  // --- Renewing a token that is not renewable ---

  /** The number of writes a waiting caller saw when it decided to renew. */
  function Seen(t: Task): Option<nat> {
    if t.frames == [] then None
    else match TopPc(t)
      case AwaitLock(seen) => Some(seen)
      case Recheck(seen) => Some(seen)
      case _ => None
  }

  /** A caller decides to renew a renewable token; only another write can change that token. */
  predicate SeenInv(s: State) {
    forall id :: id in s.tasks && Seen(s.tasks[id]).Some? ==>
      && Seen(s.tasks[id]).value <= s.version
      && (Seen(s.tasks[id]).value == s.version ==> s.token.Some? && s.token.value.renewable)
  }

  lemma LocalSeen(c: Config, v: View, id: nat, t: Task)
    requires Nested(t.frames) && Local(c, v, id, t).Some?
    ensures var e := Local(c, v, id, t).value;
            Seen(e.task).Some? ==>
              && e.write == None
              && (Seen(e.task) == Seen(t)
                  || (Seen(e.task).value == v.version && v.token.Some? && v.token.value.renewable))
  {
    if ChangesNesting(c, t) && TopPc(t).Finished? {
      assert TopPc(Pop(t)).LoginWait?;
    }
  }

  lemma {:induction false} RunKeepsSeen(c: Config, init: Option<string>, run: seq<Action>)
    requires Run(c, Init(init), run).Some?
    ensures SeenInv(Run(c, Init(init), run).value)
  {
    if run != [] {
      var before := run[..|run| - 1];
      var s := Run(c, Init(init), before).value;
      RunKeepsSeen(c, init, before);
      RunKeepsLock(c, init, before);
      NextKeepsSeen(c, s, run[|run| - 1]);
    }
  }

  lemma StepKeepsSeen(c: Config, s: State, id: nat)
    requires LockInv(s) && SeenInv(s) && id in s.tasks && Local(c, Observe(s), id, s.tasks[id]).Some?
    ensures SeenInv(Perform(s, id, Local(c, Observe(s), id, s.tasks[id]).value))
  {
    LocalSeen(c, Observe(s), id, s.tasks[id]);
  }

  lemma NextKeepsSeen(c: Config, s: State, a: Action)
    requires LockInv(s) && SeenInv(s) && Next(c, s, a).Some?
    ensures SeenInv(Next(c, s, a).value)
  {
    match a
    case Step(id) => StepKeepsSeen(c, s, id);
    case Respond(id, reply) => assert Seen(Receive(c, s.tasks[id], reply).value) == None;
    case _ =>
  }

  /**
   * The second look does not ask again whether the token is renewable. A caller goes on to
   * renew a token that is not renewable only if somebody wrote it since the caller's first look.
   */
  lemma OnlyOverwrittenTokensAreRenewedInVain(c: Config, init: Option<string>, run: seq<Action>, id: nat)
    requires Run(c, Init(init), run).Some?
    requires var s := Run(c, Init(init), run).value;
             && id in s.tasks && s.tasks[id].frames != [] && TopPc(s.tasks[id]).Recheck?
             && Next(c, s, Step(id)).Some? && TopPc(Next(c, s, Step(id)).value.tasks[id]).RenewReady?
             && s.token.Some? && !s.token.value.renewable
    ensures var s := Run(c, Init(init), run).value;
            TopPc(s.tasks[id]).seen < s.version
  {
    RunKeepsSeen(c, init, run);
    var s := Run(c, Init(init), run).value;
    assert Seen(s.tasks[id]).Some?;
  }

  // --- Requests carry a token ---

  /** The activation went through the lifecycle and has not been turned away. */
  predicate LetThrough(frame: Frame) {
    && !IsLogin(frame.path)
    && match frame.pc
       case Enter => false
       case ReadToken => false
       case StartLogin(locked) => locked
       case LoginWait(locked) => locked
       case InnerStore(_, locked) => locked
       case Finished(_) => false
       case OtherStore(_) => false
       case OtherNotify(_) => false
       case _ => true
  }

  predicate TokenInv(s: State) {
    s.token.None? ==>
      forall id, k :: id in s.tasks && 0 <= k < |s.tasks[id].frames| ==> !LetThrough(s.tasks[id].frames[k])
  }

  lemma LocalNeedsToken(c: Config, v: View, id: nat, t: Task, k: nat)
    requires c.loginPath.Some? && v.token.None?
    requires Nested(t.frames) && Local(c, v, id, t).Some?
    requires forall i :: 0 <= i < |t.frames| ==> !LetThrough(t.frames[i])
    ensures var e := Local(c, v, id, t).value;
            e.write.None? && k < |e.task.frames| ==> !LetThrough(e.task.frames[k])
  {
    if ChangesNesting(c, t) && TopPc(t).Finished? {
      assert TopPc(Pop(t)).LoginWait?;
    }
  }

  lemma NextKeepsToken(c: Config, s: State, a: Action)
    requires c.loginPath.Some? && LockInv(s) && TokenInv(s) && Next(c, s, a).Some?
    ensures TokenInv(Next(c, s, a).value)
  {
    var s' := Next(c, s, a).value;
    if s'.token.None? {
      forall id, k | id in s'.tasks && 0 <= k < |s'.tasks[id].frames|
        ensures !LetThrough(s'.tasks[id].frames[k])
      {
        if a.Step? && a.id == id {
          LocalNeedsToken(c, Observe(s), id, s.tasks[id], k);
        } else if a.Respond? && a.id == id {
          assert LetThrough(s.tasks[id].frames[k]) || !LetThrough(s'.tasks[id].frames[k]);
        }
      }
    }
  }

  lemma {:induction false} RunKeepsToken(c: Config, init: Option<string>, run: seq<Action>)
    requires c.loginPath.Some? && Run(c, Init(init), run).Some?
    ensures TokenInv(Run(c, Init(init), run).value)
  {
    if run != [] {
      var before := run[..|run| - 1];
      RunKeepsToken(c, init, before);
      RunKeepsLock(c, init, before);
      NextKeepsToken(c, Run(c, Init(init), before).value, run[|run| - 1]);
    }
  }

  /**
   * With an auth method, whatever its login path, a request that is not a login is only sent
   * once there is a token.
   */
  lemma RequestsCarryAToken(c: Config, init: Option<string>, run: seq<Action>, id: nat, k: nat)
    requires c.loginPath.Some? && Run(c, Init(init), run).Some?
    requires var s := Run(c, Init(init), run).value;
             && id in s.tasks && k < |s.tasks[id].frames|
             && !IsLogin(s.tasks[id].frames[k].path) && s.tasks[id].frames[k].pc.SendRequest?
    ensures Run(c, Init(init), run).value.token.Some?
  {
    RunKeepsToken(c, init, run);
    var s := Run(c, Init(init), run).value;
    assert LetThrough(s.tasks[id].frames[k]);
  }
}
