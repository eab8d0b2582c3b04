/**
 * The token lifecycle as a step system: any number of concurrent calls of `execute`, other
 * writers of the token, one renewal lock, a clock and a server that answers as it likes.
 * A run is a sequence of actions; the scheduler, the server and the clock choose them.
 */
module Lifecycle {
  import opened Common
  import opened TokenStore
  import opened LoginPath

  /** The path of the login request, if an auth method is configured. */
  datatype Config = Config(loginPath: Option<Bytes>)

  /**
   * How a request ends: an error, or a response that may carry `auth`. A login that is
   * answered 404 counts as failed, and so does a body of the lifecycle that does not parse.
   */
  datatype Reply = Failed | Answered(auth: Option<AuthInfo>)

  datatype Call = RenewSelf | Login | Request

  datatype Source = Renewal | Relogin | Elsewhere

  datatype Event =
    | Sent(task: nat, call: Call, at: nat)
    | Stored(task: nat, source: Source, auth: AuthInfo, at: nat)
    | Notified(task: nat, auth: AuthInfo)
    | TokenSet(value: string, at: nat)

  /**
   * Where an activation of `execute` is. `locked` says that it is inside the arm that
   * holds the renewal lock; `seen` is the number of token writes at the first read.
   */
  datatype Pc =
    | Enter
    | ReadToken
    | AwaitLock(seen: nat)
    | Recheck(seen: nat)
    | RenewReady
    | RenewInFlight
    | RenewStore(auth: AuthInfo)
    | RenewNotify(auth: AuthInfo)
    | StartLogin(locked: bool)
    | LoginWait(locked: bool)
    | InnerStore(auth: AuthInfo, locked: bool)   // inside the method's `login`
    | InnerNotify(auth: AuthInfo, locked: bool)
    | OuterStore(auth: AuthInfo, locked: bool)   // in `try_re_authenticate`
    | OuterNotify(auth: AuthInfo, locked: bool)
    | Unlock(ok: bool)
    | SendRequest
    | InFlight
    | Finished(reply: Reply)
    | OtherStore(auth: AuthInfo)                 // a renewal daemon or a login made by the user
    | OtherNotify(auth: AuthInfo)

  /** One activation of `execute`. */
  datatype Frame = Frame(path: Bytes, pc: Pc)

  /**
   * A caller: its nested activations, innermost last (none once it was dropped), the
   * requests it has issued, their answers so far, and the auth values it has stored.
   */
  datatype Task = Task(frames: seq<Frame>, calls: seq<Call>, answers: seq<Reply>, stored: seq<AuthInfo>)

  datatype Owner = Owner(task: nat, frame: nat)

  datatype State = State(
    now: nat,
    token: Option<TokenState>,
    writtenAt: nat,             // when the token was last written
    version: nat,               // how often the token was written
    lock: Option<Owner>,
    tasks: map<nat, Task>,
    log: seq<Event>)

  datatype Action =
    | Tick(elapsed: nat)
    | SetToken(value: string)
    | Spawn(id: nat, path: Bytes)
    | SpawnWriter(id: nat, auth: AuthInfo)
    | Step(id: nat)
    | Respond(id: nat, reply: Reply)
    | Cancel(id: nat)

  /** A new client, with the token it was built with. */
  function Init(token: Option<string>): State {
    State(0, match token case None => None case Some(v) => Some(FromPlain(v)), 0, 0, None, map[], [])
  }

  // --- One caller ---

  function TopPc(t: Task): Pc
    requires t.frames != []
  {
    t.frames[|t.frames| - 1].pc
  }

  function Goto(t: Task, pc: Pc): Task
    requires t.frames != []
  {
    t.(frames := t.frames[|t.frames| - 1 := t.frames[|t.frames| - 1].(pc := pc)])
  }

  function Push(t: Task, path: Bytes): Task {
    t.(frames := t.frames + [Frame(path, Enter)])
  }

  function Pop(t: Task): Task
    requires t.frames != []
  {
    t.(frames := t.frames[..|t.frames| - 1])
  }

  datatype LockUse = Keep | Acquire(frame: nat) | Release

  /** What one step of a caller does to itself and to the shared state. */
  datatype Effect = Effect(task: Task, write: Option<TokenState>, lock: LockUse, event: Option<Event>)

  /** What a step can see of the shared state. */
  datatype View = View(now: nat, token: Option<TokenState>, version: nat, lockFree: bool)

  function Silent(t: Task): Effect {
    Effect(t, None, Keep, None)
  }

  /** The decision made under the first read of the token. */
  function Decide(c: Config, v: View): Pc {
    if v.token.Some? && !NeedsRenewal(v.token.value, v.now) then SendRequest
    else if v.token.Some? && v.token.value.renewable then AwaitLock(v.version)
    else if c.loginPath.Some? then StartLogin(false)
    else SendRequest
  }

  /** Leaving `try_re_authenticate`. */
  function AfterLogin(locked: bool, ok: bool): Pc {
    if locked then Unlock(ok) else if ok then SendRequest else Finished(Failed)
  }

  function Store(t: Task, id: nat, v: View, source: Source, auth: AuthInfo, next: Pc): Effect
    requires t.frames != []
  {
    Effect(Goto(t, next).(stored := t.stored + [auth]), Some(FromAuth(auth, v.now)), Keep,
           Some(Stored(id, source, auth, v.now)))
  }

  function Notify(t: Task, id: nat, auth: AuthInfo, next: Pc): Effect
    requires t.frames != []
  {
    Effect(Goto(t, next), None, Keep, Some(Notified(id, auth)))
  }

  function Issue(t: Task, id: nat, v: View, call: Call, next: Pc): Effect
    requires t.frames != []
  {
    Effect(Goto(t, next).(calls := t.calls + [call]), None, Keep, Some(Sent(id, call, v.now)))
  }

  /** The next step of a caller, unless it waits for the network or the lock, or has ended. */
  function Local(c: Config, v: View, id: nat, t: Task): Option<Effect> {
    if t.frames == [] then None
    else
      match TopPc(t)
      case Enter => Some(Silent(Goto(t, if IsLogin(t.frames[|t.frames| - 1].path) then SendRequest else ReadToken)))
      case ReadToken => Some(Silent(Goto(t, Decide(c, v))))
      case AwaitLock(seen) =>
        if v.lockFree then Some(Effect(Goto(t, Recheck(seen)), None, Acquire(|t.frames| - 1), None)) else None
      case Recheck(_) =>
        Some(Silent(Goto(t, if v.token.Some? && NeedsRenewal(v.token.value, v.now) then RenewReady else Unlock(true))))
      case RenewReady => Some(Issue(t, id, v, RenewSelf, RenewInFlight))
      case RenewInFlight => None
      case RenewStore(auth) => Some(Store(t, id, v, Renewal, auth, RenewNotify(auth)))
      case RenewNotify(auth) => Some(Notify(t, id, auth, Unlock(true)))
      case StartLogin(locked) =>
        (match c.loginPath
         case Some(path) => Some(Silent(Push(Goto(t, LoginWait(locked)), path)))
         case None => Some(Silent(Goto(t, AfterLogin(locked, false)))))
      case LoginWait(_) => None
      case InnerStore(auth, locked) => Some(Store(t, id, v, Relogin, auth, InnerNotify(auth, locked)))
      case InnerNotify(auth, locked) => Some(Notify(t, id, auth, OuterStore(auth, locked)))
      case OuterStore(auth, locked) => Some(Store(t, id, v, Relogin, auth, OuterNotify(auth, locked)))
      case OuterNotify(auth, locked) => Some(Notify(t, id, auth, AfterLogin(locked, true)))
      case Unlock(ok) => Some(Effect(Goto(t, if ok then SendRequest else Finished(Failed)), None, Release, None))
      case SendRequest => Some(Issue(t, id, v, if |t.frames| == 1 then Request else Login, InFlight))
      case InFlight => None
      case Finished(reply) => if |t.frames| == 1 then None else Some(Silent(Return(t, reply)))
      case OtherStore(auth) => Some(Store(t, id, v, Elsewhere, auth, OtherNotify(auth)))
      case OtherNotify(auth) => Some(Notify(t, id, auth, Finished(Answered(Some(auth)))))
  }

  /** The login request is over: its activation ends and `login` looks for `auth` in the answer. */
  function Return(t: Task, reply: Reply): Task
    requires |t.frames| >= 2
  {
    var outer := Pop(t);
    match TopPc(outer)
    case LoginWait(locked) =>
      (match reply
       case Answered(Some(auth)) => Goto(outer, InnerStore(auth, locked))
       case _ => Goto(outer, AfterLogin(locked, false)))
    case _ => outer
  }

  /** The network answers the request that the innermost activation waits for. */
  function Receive(c: Config, t: Task, reply: Reply): Option<Task> {
    if t.frames == [] then None
    else
      var answered := t.(answers := t.answers + [reply]);
      match TopPc(t)
      case RenewInFlight =>
        Some(Goto(answered,
          match reply
          case Failed => if c.loginPath.Some? then StartLogin(true) else Unlock(false)
          case Answered(None) => Unlock(true)
          case Answered(Some(auth)) => RenewStore(auth)))
      case InFlight => Some(Goto(answered, Finished(reply)))
      case _ => None
  }

  /** Futures can be dropped where they wait. */
  predicate Suspended(t: Task) {
    t.frames != [] && (TopPc(t).AwaitLock? || TopPc(t).RenewInFlight? || TopPc(t).InFlight?)
  }

  // --- All callers ---

  function Observe(s: State): View {
    View(s.now, s.token, s.version, s.lock.None?)
  }

  function Write(s: State, token: TokenState): State {
    s.(token := Some(token), writtenAt := s.now, version := s.version + 1)
  }

  function Perform(s: State, id: nat, e: Effect): State
    requires id in s.tasks
  {
    var written := match e.write case None => s case Some(token) => Write(s, token);
    written.(
      lock := match e.lock
              case Keep => s.lock
              case Acquire(frame) => Some(Owner(id, frame))
              case Release => None,
      tasks := s.tasks[id := e.task],
      log := s.log + match e.event case None => [] case Some(ev) => [ev])
  }

  /** The state after an action, if the action is possible. */
  function Next(c: Config, s: State, a: Action): Option<State> {
    match a
    case Tick(elapsed) => Some(s.(now := s.now + elapsed))
    case SetToken(value) => Some(Write(s, FromPlain(value)).(log := s.log + [TokenSet(value, s.now)]))
    case Spawn(id, path) =>
      if id in s.tasks then None else Some(s.(tasks := s.tasks[id := Task([Frame(path, Enter)], [], [], [])]))
    case SpawnWriter(id, auth) =>
      if id in s.tasks then None else Some(s.(tasks := s.tasks[id := Task([Frame([], OtherStore(auth))], [], [], [])]))
    case Step(id) =>
      if id !in s.tasks then None
      else (match Local(c, Observe(s), id, s.tasks[id])
            case None => None
            case Some(e) => Some(Perform(s, id, e)))
    case Respond(id, reply) =>
      if id !in s.tasks then None
      else (match Receive(c, s.tasks[id], reply)
            case None => None
            case Some(t) => Some(s.(tasks := s.tasks[id := t])))
    case Cancel(id) =>
      if id !in s.tasks || !Suspended(s.tasks[id]) then None
      else Some(s.(tasks := s.tasks[id := s.tasks[id].(frames := [])],
                   lock := if s.lock.Some? && s.lock.value.task == id then None else s.lock))
  }

  /** The state at the end of a run, if every action was possible. */
  function Run(c: Config, s: State, run: seq<Action>): Option<State> {
    if run == [] then Some(s)
    else match Run(c, s, run[..|run| - 1])
      case None => None
      case Some(before) => Next(c, before, run[|run| - 1])
  }

  lemma LogGrows(c: Config, s: State, a: Action)
    requires Next(c, s, a).Some?
    ensures s.log <= Next(c, s, a).value.log
  {
  }

  lemma {:induction false} RunConcat(c: Config, s: State, a: seq<Action>, b: seq<Action>)
    requires Run(c, s, a).Some?
    ensures Run(c, s, a + b) == Run(c, Run(c, s, a).value, b)
    decreases |b|
  {
    if b == [] {
      assert a + b == a;
    } else {
      assert (a + b)[..|a + b| - 1] == a + b[..|b| - 1];
      RunConcat(c, s, a, b[..|b| - 1]);
    }
  }
}
