/**
 * One caller's way through `execute`, in the order of the code, while other callers change
 * the token whenever it waits. The verifier's termination check bounds the recursion through
 * the login, and the precondition of the lock excludes waiting for one's own guard.
 */
module VaultClient {
  import opened Common
  import opened TokenStore
  import opened VaultErrors
  import opened LoginPath
  import opened Lifecycle
  import opened LifecycleProgress
  import opened RequestEngine
  import Breaker = CircuitBreaker
  import Retry

  /** What a response body parses to. */
  datatype Body = BadJson | Parsed(auth: Option<AuthInfo>)

  /** A response that the retry loop returned: `missing` says that its status is 404. */
  datatype Answer = Answer(missing: bool, body: Body)

  datatype Result<+T> = Ok(value: T) | Err(error: VaultError)

  /** How the client is set up; `guard` configures the circuit breaker, if there is one. */
  datatype Setup = Setup(retry: Retry.Config, guard: Option<Breaker.Config>, login: Option<AuthMethod>)

  /** Where a call waits while other callers go on. */
  datatype Wait = ForLock | ForAnswer(call: Call)

  /** The token that others leave behind, what they announce meanwhile, and what they do to the breaker. */
  datatype Others = Others(token: Option<TokenState>, announced: seq<AuthInfo>, ops: seq<Breaker.Op>)

  /**
   * What the outside does to one call of `execute`: to the three requests it may issue, to
   * the token and the breaker while it waits, and the clock readings of its looks at the
   * token and its stores.
   */
  datatype World = World(
    url: Call -> Option<string>,
    server: Call -> nat -> Retry.Response,
    body: Call -> Body,
    schedule: Call -> Schedule,
    meanwhile: Wait -> Others,
    firstLook: nat,
    secondLook: nat,
    firstStore: nat,
    secondStore: nat)

  /** One `execute_raw`: what it was for, where it went, how it ended, and its sends and waits. */
  datatype Issue = Issue(call: Call, path: Bytes, reply: Result<Answer>, log: seq<Retry.Event>)

  /** Requests come at most once each and in the order renew-self, login, request. */
  predicate Ordered(issued: seq<Issue>) {
    forall i, j :: 0 <= i < j < |issued| ==> Order(issued[i].call) < Order(issued[j].call)
  }

  function TotalSends(issued: seq<Issue>): nat {
    if issued == [] then 0
    else TotalSends(issued[..|issued| - 1]) + Retry.Sends(issued[|issued| - 1].log)
  }

  predicate AtMostEach(issued: seq<Issue>, perCall: nat) {
    forall i :: 0 <= i < |issued| ==> Retry.Sends(issued[i].log) <= perCall
  }

  /** Every request made at most `max_retries + 1` sends. */
  predicate WithinBudget(issued: seq<Issue>, cfg: Retry.Config) {
    AtMostEach(issued, cfg.maxRetries as nat + 1)
  }

  lemma {:induction false} SendsBound(issued: seq<Issue>, perCall: nat)
    requires AtMostEach(issued, perCall)
    ensures TotalSends(issued) <= |issued| * perCall
  {
    if issued != [] {
      var n := |issued| - 1;
      SendsBound(issued[..n], perCall);
      assert TotalSends(issued) <= n * perCall + perCall;
      assert (n + 1) * perCall == n * perCall + perCall;
    }
  }

  lemma SendsOfOneCall(issued: seq<Issue>, cfg: Retry.Config)
    requires WithinBudget(issued, cfg) && |issued| <= 3
    ensures TotalSends(issued) <= 3 * (cfg.maxRetries as nat + 1)
  {
    var perCall := cfg.maxRetries as nat + 1;
    SendsBound(issued, perCall);
    assert |issued| * perCall <= 3 * perCall;
  }

  /** The lifecycle's configuration for a built-in method. */
  function ForMethod(m: Option<AuthMethod>): (c: Lifecycle.Config)
    ensures m.Some? <==> c.loginPath.Some?
  {
    Lifecycle.Config(if m.Some? then Some(Path(m.value)) else None)
  }

  // --- What the answers mean ---

  /** A renewal succeeds with any body that parses; nobody looks at the status. */
  function Renewed(reply: Result<Answer>): Result<()> {
    match reply
    case Err(e) => Err(e)
    case Ok(Answer(_, BadJson)) => Err(Http(OtherHttp))
    case Ok(Answer(_, Parsed(_))) => Ok(())
  }

  /** A login needs an answer other than 404, and with `auth`. */
  function LoggedOn(path: Bytes, reply: Result<Answer>): Result<AuthInfo> {
    match reply
    case Err(e) => Err(e)
    case Ok(Answer(missing, body)) =>
      if missing then Err(NotFound(path))
      else match body
        case BadJson => Err(Http(OtherHttp))
        case Parsed(None) => Err(EmptyResponse)
        case Parsed(Some(auth)) => Ok(auth)
  }

  function Discard<T>(r: Result<T>): Result<()> {
    match r case Ok(_) => Ok(()) case Err(e) => Err(e)
  }

  /** What a request of the lifecycle means for the caller. */
  function Verdict(issue: Issue): Result<()> {
    if issue.call.Login? then Discard(LoggedOn(issue.path, issue.reply)) else Renewed(issue.reply)
  }

  /**
   * The same answer in the terms of the step system, which does not tell errors apart. The
   * body of an answer to the request of the user is not looked at here.
   */
  function ReplyOf(issue: Issue): Reply {
    match issue.reply
    case Err(_) => Failed
    case Ok(Answer(missing, body)) =>
      if issue.call.Request? then Answered(if body.Parsed? then body.auth else None)
      else if body.BadJson? || (issue.call.Login? && missing) then Failed
      else Answered(body.auth)
  }

  function Calls(issued: seq<Issue>): (calls: seq<Call>)
    ensures |calls| == |issued|
  {
    seq(|issued|, i requires 0 <= i < |issued| => issued[i].call)
  }

  function Replies(issued: seq<Issue>): (replies: seq<Reply>)
    ensures |replies| == |issued|
  {
    seq(|issued|, i requires 0 <= i < |issued| => ReplyOf(issued[i]))
  }

  /** The auth values that the caller stores on account of an answer: a login stores twice. */
  function Stores(issue: Issue): seq<AuthInfo> {
    match ReplyOf(issue)
    case Answered(Some(auth)) =>
      (match issue.call case RenewSelf => [auth] case Login => [auth, auth] case Request => [])
    case _ => []
  }

  function AllStores(issued: seq<Issue>): seq<AuthInfo> {
    if issued == [] then [] else AllStores(issued[..|issued| - 1]) + Stores(issued[|issued| - 1])
  }

  // --- What happens to the token and to the breaker ---

  datatype Snapshot = Snapshot(token: Option<TokenState>, notified: seq<AuthInfo>, history: seq<Breaker.Op>)

  function Guarded(u: Setup, s: Snapshot, ops: seq<Breaker.Op>): Snapshot {
    if u.guard.Some? then s.(history := s.history + ops) else s
  }

  function Waited(w: World, u: Setup, wait: Wait, s: Snapshot): Snapshot {
    var others := w.meanwhile(wait);
    Guarded(u, s.(token := others.token, notified := s.notified + others.announced), others.ops)
  }

  /** The breaker lets a request through that comes after this history. */
  predicate Admitted(w: World, u: Setup, call: Call, s: Snapshot) {
    u.guard.Some? ==>
      Breaker.Admits(u.guard.value, Breaker.Run(u.guard.value, Breaker.Closed(0), s.history), w.schedule(call).at)
  }

  /** The request gets as far as the retry loop. */
  predicate Sends(w: World, u: Setup, call: Call, s: Snapshot) {
    Admitted(w, u, call, s) && w.url(call).Some?
  }

  /** A request with its answer: the breaker's operations, and what others do meanwhile. */
  function Asked(w: World, u: Setup, s: Snapshot, issue: Issue): Snapshot {
    var call := issue.call;
    Waited(w, u, ForAnswer(call), Guarded(u, s, BreakerOps(w.schedule(call), Sends(w, u, call, s), issue.reply.Ok?)))
  }

  function Settle(w: World, u: Setup, s: Snapshot, issue: Issue): Snapshot {
    var asked, stores := Asked(w, u, s, issue), Stores(issue);
    if stores == [] then asked
    else
      var at := if |stores| == 1 then w.firstStore else w.secondStore;
      asked.(token := Some(FromAuth(stores[0], at)), notified := asked.notified + stores)
  }

  /** The token, the announcements and the breaker after a number of requests. */
  function SettleAll(w: World, u: Setup, s: Snapshot, issued: seq<Issue>): Snapshot {
    if issued == [] then s
    else Settle(w, u, SettleAll(w, u, s, issued[..|issued| - 1]), issued[|issued| - 1])
  }

  predicate FindsDue(token: Option<TokenState>, now: nat) {
    token.Some? && NeedsRenewal(token.value, now)
  }

  /** What `ensure_valid_token` has to do about a token that it reads at clock reading `now`. */
  predicate MustRenew(token: Option<TokenState>, now: nat) {
    FindsDue(token, now) && token.value.renewable
  }

  predicate MustLogIn(token: Option<TokenState>, now: nat) {
    token.None? || (FindsDue(token, now) && !token.value.renewable)
  }

  /** The caller's own part of the history starts after the wait for the lock, if it has to queue. */
  function Start(w: World, u: Setup, s: Snapshot): Snapshot {
    if MustRenew(s.token, w.firstLook) then Waited(w, u, ForLock, s) else s
  }

  predicate IsRenewal(issue: Issue) {
    issue.call == RenewSelf && issue.path == RENEW_SELF
  }

  predicate IsLoginOf(u: Setup, issue: Issue) {
    issue.call == Login && u.login.Some? && issue.path == Path(u.login.value)
  }

  /** How a sequence of lifecycle requests ends: its last request decides. */
  function Outcome(issued: seq<Issue>): Result<()> {
    if issued == [] then Ok(()) else Verdict(issued[|issued| - 1])
  }

  /**
   * Which requests the lifecycle issues: a renewal if the token that was found is due and
   * renewable, and the token is due once the caller has the lock; a login if there is a
   * method and no usable token, or the renewal failed.
   */
  predicate Upkeep(w: World, u: Setup, found: Option<TokenState>, issued: seq<Issue>) {
    if MustRenew(found, w.firstLook) && FindsDue(w.meanwhile(ForLock).token, w.secondLook) then
      && issued != [] && IsRenewal(issued[0])
      && if u.login.Some? && Verdict(issued[0]).Err? then |issued| == 2 && IsLoginOf(u, issued[1])
         else |issued| == 1
    else if MustLogIn(found, w.firstLook) && u.login.Some? then |issued| == 1 && IsLoginOf(u, issued[0])
    else issued == []
  }

  predicate HasRequest(issued: seq<Issue>) {
    issued != [] && issued[|issued| - 1].call == Request
  }

  /** The lifecycle's part of what a call issued. */
  function LifecyclePart(issued: seq<Issue>): seq<Issue> {
    if HasRequest(issued) then issued[..|issued| - 1] else issued
  }

  /**
   * What a call that goes through the lifecycle issues and returns: the request follows if
   * and only if the lifecycle ended well, and its answer is the result.
   */
  predicate Course(w: World, u: Setup, path: Bytes, found: Option<TokenState>, r: Result<Answer>, issued: seq<Issue>) {
    var kept := LifecyclePart(issued);
    && Upkeep(w, u, found, kept)
    && (HasRequest(issued) <==> Outcome(kept).Ok?)
    && match Outcome(kept)
       case Ok(_) => r == issued[|issued| - 1].reply && issued[|issued| - 1].path == path
       case Err(e) => r == Err(e)
  }

  /** How `execute_raw` ends when its retry loop ends with `outcome`. */
  function Unpack(outcome: Retry.Outcome, body: Body): Result<Answer> {
    match outcome
    case Ok(response) => Ok(Answer(response.Status? && response.code == 404, body))
    case Err(e) => Err(e)
  }

  /**
   * How a request ends that comes at the moment `s`: refused if and only if the breaker does
   * not let it through, without a send if it has no valid URL, and otherwise with the
   * server's answer at the end of the retry loop.
   */
  predicate Honest(w: World, u: Setup, s: Snapshot, issue: Issue) {
    var server := w.server(issue.call);
    if !Admitted(w, u, issue.call, s) then issue.reply == Err(CircuitOpen) && issue.log == []
    else match w.url(issue.call)
      case None => issue.reply.Err? && issue.reply.error.UrlParse? && issue.log == []
      case Some(url) =>
        var k := Retry.LastSend(u.retry, url, server, 0);
        && issue.reply == Unpack(Retry.Classify(url, server(k)), w.body(issue.call))
        && Retry.Alternates(u.retry, server, issue.log, k)
  }

  /** Every request ends like that, at the moment that the ones before it left behind. */
  predicate AllHonest(w: World, u: Setup, s: Snapshot, issued: seq<Issue>) {
    issued == []
    || (AllHonest(w, u, s, issued[..|issued| - 1])
        && Honest(w, u, SettleAll(w, u, s, issued[..|issued| - 1]), issued[|issued| - 1]))
  }

  // --- What that means ---

  lemma One(w: World, u: Setup, s: Snapshot, issue: Issue)
    ensures SettleAll(w, u, s, [issue]) == Settle(w, u, s, issue)
    ensures AllHonest(w, u, s, [issue]) <==> Honest(w, u, s, issue)
  {
    assert [issue][..0] == [];
  }

  lemma OneMore(w: World, u: Setup, s: Snapshot, issued: seq<Issue>, issue: Issue)
    ensures SettleAll(w, u, s, issued + [issue]) == Settle(w, u, SettleAll(w, u, s, issued), issue)
    ensures AllHonest(w, u, s, issued + [issue])
            <==> AllHonest(w, u, s, issued) && Honest(w, u, SettleAll(w, u, s, issued), issue)
  {
    assert (issued + [issue])[..|issued|] == issued;
  }

  // `{:induction false}` on the lemmas about `Upkeep` and `Course` keeps Dafny from guessing an
  // induction over `issued`.

  /** The lifecycle ended well, and the request of the user follows. */
  lemma {:induction false} Proceeds(w: World, u: Setup, found: Option<TokenState>, issued: seq<Issue>, issue: Issue)
    requires Upkeep(w, u, found, issued) && Outcome(issued).Ok? && issue.call.Request?
    ensures Course(w, u, issue.path, found, issue.reply, issued + [issue])
  {
    assert LifecyclePart(issued + [issue]) == issued;
  }

  lemma {:induction false} TurnedAway(w: World, u: Setup, path: Bytes, found: Option<TokenState>, issued: seq<Issue>)
    requires Upkeep(w, u, found, issued) && Outcome(issued).Err?
    ensures Course(w, u, path, found, Err(Outcome(issued).error), issued)
  {
  }

  lemma LoginAnswers(issue: Issue)
    requires issue.call.Login?
    ensures match LoggedOn(issue.path, issue.reply)
            case Ok(auth) => ReplyOf(issue) == Answered(Some(auth)) && Stores(issue) == [auth, auth]
            case Err(_) => ReplyOf(issue) in {Failed, Answered(None)} && Stores(issue) == []
  {
  }

  lemma OneRequestFollows(u: Setup, issue: Issue)
    requires IsRenewal(issue) || IsLoginOf(u, issue)
    ensures Verdict(issue).Ok? ==> Passed(Calls([issue]), Replies([issue]), AllStores([issue]))
    ensures Verdict(issue).Err? && !(IsRenewal(issue) && u.login.Some?) ==>
              Stopped(ForMethod(u.login), Calls([issue]), Replies([issue]), AllStores([issue]))
  {
    assert [issue][..0] == [] && AllStores([issue]) == Stores(issue);
    assert Calls([issue]) == [issue.call] && Replies([issue]) == [ReplyOf(issue)];
    if issue.call.Login? {
      LoginAnswers(issue);
    }
  }

  lemma TwoRequestsFollow(u: Setup, renewal: Issue, login: Issue)
    requires IsRenewal(renewal) && Verdict(renewal).Err? && IsLoginOf(u, login)
    ensures var issued := [renewal, login];
            if Verdict(login).Ok? then Passed(Calls(issued), Replies(issued), AllStores(issued))
            else Stopped(ForMethod(u.login), Calls(issued), Replies(issued), AllStores(issued))
  {
    var issued := [renewal, login];
    assert issued[..1] == [renewal] && [renewal][..0] == [];
    assert AllStores([renewal]) == [] && AllStores(issued) == Stores(login);
    assert Calls(issued) == [RenewSelf, Login] && Replies(issued) == [Failed, ReplyOf(login)];
    LoginAnswers(login);
  }

  /**
   * The lifecycle's requests, answers and stores are those of a caller of the step system
   * that was let through, or turned away.
   */
  lemma {:induction false} UpkeepFollowsSteps(w: World, u: Setup, found: Option<TokenState>, issued: seq<Issue>)
    requires Upkeep(w, u, found, issued)
    ensures Outcome(issued).Ok? ==> Passed(Calls(issued), Replies(issued), AllStores(issued))
    ensures Outcome(issued).Err? ==> Stopped(ForMethod(u.login), Calls(issued), Replies(issued), AllStores(issued))
  {
    if |issued| == 1 {
      assert issued == [issued[0]];
      OneRequestFollows(u, issued[0]);
    } else if |issued| == 2 {
      assert issued == [issued[0], issued[1]];
      TwoRequestsFollow(u, issued[0], issued[1]);
    }
  }

  lemma HonestIsShort(w: World, u: Setup, s: Snapshot, issue: Issue)
    requires Honest(w, u, s, issue)
    ensures Retry.Sends(issue.log) <= u.retry.maxRetries as nat + 1
    ensures issue.log != [] <==> Sends(w, u, issue.call, s)
  {
    if issue.log != [] {
      Retry.RetryBudget(u.retry, w.url(issue.call).value, w.server(issue.call), issue.log);
    }
  }

  lemma BudgetOfOneMore(issued: seq<Issue>, perCall: nat)
    requires issued != [] && AtMostEach(issued[..|issued| - 1], perCall)
    requires Retry.Sends(issued[|issued| - 1].log) <= perCall
    ensures AtMostEach(issued, perCall)
  {
    assert forall i :: 0 <= i < |issued| - 1 ==> issued[i] == issued[..|issued| - 1][i];
  }

  lemma {:induction false} AllHonestAreShort(w: World, u: Setup, s: Snapshot, issued: seq<Issue>)
    requires AllHonest(w, u, s, issued)
    ensures WithinBudget(issued, u.retry)
  {
    if issued != [] {
      var n := |issued| - 1;
      AllHonestAreShort(w, u, s, issued[..n]);
      HonestIsShort(w, u, SettleAll(w, u, s, issued[..n]), issued[n]);
      BudgetOfOneMore(issued, u.retry.maxRetries as nat + 1);
    }
  }

  lemma {:induction false} UpkeepIsOrdered(w: World, u: Setup, found: Option<TokenState>, issued: seq<Issue>)
    requires Upkeep(w, u, found, issued)
    ensures |issued| <= 2 && Ordered(issued) && !HasRequest(issued)
    ensures forall i :: 0 <= i < |issued| ==> Order(issued[i].call) < Order(Request)
  {
  }

  lemma OrderedWithRequest(issued: seq<Issue>)
    requires |LifecyclePart(issued)| <= 2 && Ordered(LifecyclePart(issued))
    requires var kept := LifecyclePart(issued);
             forall i :: 0 <= i < |kept| ==> Order(kept[i].call) < Order(Request)
    ensures |issued| <= 3 && Ordered(issued)
  {
    var kept := LifecyclePart(issued);
    assert forall i :: 0 <= i < |kept| ==> kept[i] == issued[i];
  }

  /** So one call issues at most three requests, in order, with a bounded number of sends. */
  lemma {:induction false} CourseIsBounded(w: World, u: Setup, path: Bytes, found: Option<TokenState>, s: Snapshot,
                                           r: Result<Answer>, issued: seq<Issue>)
    requires Course(w, u, path, found, r, issued) && AllHonest(w, u, s, issued)
    ensures |issued| <= 3 && Ordered(issued) && TotalSends(issued) <= 3 * (u.retry.maxRetries as nat + 1)
  {
    UpkeepIsOrdered(w, u, found, LifecyclePart(issued));
    OrderedWithRequest(issued);
    AllHonestAreShort(w, u, s, issued);
    SendsOfOneCall(issued, u.retry);
  }

  /** And its own request only if the step system lets the caller through. */
  lemma {:induction false} CourseFollowsSteps(w: World, u: Setup, path: Bytes, found: Option<TokenState>,
                                              r: Result<Answer>, issued: seq<Issue>)
    requires Course(w, u, path, found, r, issued)
    ensures var kept := LifecyclePart(issued);
            var calls, answers, stored := Calls(kept), Replies(kept), AllStores(kept);
            if HasRequest(issued) then Passed(calls, answers, stored)
            else r.Err? && issued == kept && Stopped(ForMethod(u.login), calls, answers, stored)
  {
    UpkeepFollowsSteps(w, u, found, LifecyclePart(issued));
  }

  // --- One record for each request that was sent ---

  /** The successes, or the failures, recorded in a history. */
  function Records(ops: seq<Breaker.Op>, ok: bool): nat {
    if ops == [] then 0
    else Records(ops[..|ops| - 1], ok) + if IsRecord(ops[|ops| - 1], ok) then 1 else 0
  }

  predicate IsRecord(op: Breaker.Op, ok: bool) {
    if ok then op.Success? else op.Failure?
  }

  lemma {:induction false} RecordsConcat(a: seq<Breaker.Op>, b: seq<Breaker.Op>, ok: bool)
    ensures Records(a + b, ok) == Records(a, ok) + Records(b, ok)
    decreases |b|
  {
    if b == [] {
      assert a + b == a;
    } else {
      assert (a + b)[..|a + b| - 1] == a + b[..|b| - 1];
      RecordsConcat(a, b[..|b| - 1], ok);
    }
  }

  /** Outcomes that others recorded while the requests were under way or right after. */
  function RecordsElsewhere(w: World, issued: seq<Issue>, ok: bool): nat {
    if issued == [] then 0
    else
      var issue := issued[|issued| - 1];
      RecordsElsewhere(w, issued[..|issued| - 1], ok)
      + Records(w.meanwhile(ForAnswer(issue.call)).ops, ok)
      + if issue.log == [] then 0 else Records(w.schedule(issue.call).others, ok)
  }

  /** The requests that were sent at least once, and ended well, or badly. */
  function SentRequests(issued: seq<Issue>, ok: bool): nat {
    if issued == [] then 0
    else
      var issue := issued[|issued| - 1];
      SentRequests(issued[..|issued| - 1], ok) + if issue.log != [] && issue.reply.Ok? == ok then 1 else 0
  }

  /** The check comes first and the record last, each with its own reading of the clock. */
  lemma OpsOfOneRequest(s: Schedule, sends: bool, ok: bool, kind: bool)
    ensures var ops := BreakerOps(s, sends, ok);
            && Records(ops, kind) == (if sends then Records(s.others, kind) + (if ok == kind then 1 else 0) else 0)
            && ops[0] == Breaker.Check(s.at, s.stamp)
            && (sends && !ok ==> ops[|ops| - 1] == Breaker.Failure(s.recordedAt))
  {
    var check: seq<Breaker.Op> := [Breaker.Check(s.at, s.stamp)];
    var record := [Record(ok, s.recordedAt)];
    assert check[..0] == [] && record[..0] == [];
    RecordsConcat(check, s.others + record, kind);
    RecordsConcat(s.others, record, kind);
    assert check + [] == check;
  }

  /**
   * What one call adds to the breaker's records, apart from those of others, is one success
   * for each request that it sent and that ended well, and one failure for each that did not.
   */
  lemma {:induction false} EachSentRequestIsRecordedOnce(w: World, u: Setup, s: Snapshot, issued: seq<Issue>, ok: bool)
    requires u.guard.Some? && AllHonest(w, u, s, issued)
    ensures Records(SettleAll(w, u, s, issued).history, ok)
            == Records(s.history, ok) + RecordsElsewhere(w, issued, ok) + SentRequests(issued, ok)
  {
    if issued != [] {
      var n := |issued| - 1;
      var before, issue := SettleAll(w, u, s, issued[..n]), issued[n];
      EachSentRequestIsRecordedOnce(w, u, s, issued[..n], ok);
      HonestIsShort(w, u, before, issue);
      var ops := BreakerOps(w.schedule(issue.call), Sends(w, u, issue.call, before), issue.reply.Ok?);
      OpsOfOneRequest(w.schedule(issue.call), Sends(w, u, issue.call, before), issue.reply.Ok?, ok);
      RecordsConcat(before.history, ops, ok);
      RecordsConcat(before.history + ops, w.meanwhile(ForAnswer(issue.call)).ops, ok);
    }
  }

  class Client {
    const config: Retry.Config
    const breaker: Breaker.CircuitBreaker?
    const authMethod: Option<AuthMethod>
    const cell: TokenCell
    var holdsLock: bool   // this caller holds the guard of the renewal lock

    ghost predicate Valid()
      reads this, breaker
    {
      breaker != null ==> breaker.Valid()
    }

    ghost function Own(): Setup {
      Setup(config, if breaker == null then None else Some(breaker.config), authMethod)
    }

    ghost function Now(): Snapshot
      reads this, cell, breaker
    {
      Snapshot(cell.token, cell.notified, if breaker == null then [] else breaker.history)
    }

    constructor (config: Retry.Config, breaker: Breaker.CircuitBreaker?, authMethod: Option<AuthMethod>,
                 token: Option<string>)
      requires breaker != null ==> breaker.Valid()
      ensures Valid() && !holdsLock && fresh(cell) && cell.notified == []
      ensures cell.token == match token case None => None case Some(v) => Some(FromPlain(v))
      ensures this.config == config && this.breaker == breaker && this.authMethod == authMethod
    {
      this.config, this.breaker, this.authMethod := config, breaker, authMethod;
      cell := new TokenCell(match token case None => None case Some(v) => Some(FromPlain(v)));
      holdsLock := false;
    }

    /** While this caller waits, others may store and announce tokens, and use the breaker. */
    method Suspend(wait: Wait, w: World)
      requires Valid()
      modifies cell, breaker
      ensures Valid() && Now() == Waited(w, Own(), wait, old(Now()))
    {
      cell.token := w.meanwhile(wait).token;
      cell.notified := cell.notified + w.meanwhile(wait).announced;
      if breaker != null {
        breaker.Interleave(w.meanwhile(wait).ops);
      }
    }

    /** `renewal_lock.lock().await`. The lock is not reentrant. */
    method Lock(w: World)
      requires Valid() && !holdsLock
      modifies cell, breaker, this`holdsLock
      ensures Valid() && holdsLock && Now() == Waited(w, Own(), ForLock, old(Now()))
    {
      Suspend(ForLock, w);
      holdsLock := true;
    }

    /** `execute_raw`, up to the status and the parsed body of a response. */
    method ExecuteRaw(call: Call, path: Bytes, w: World) returns (r: Result<Answer>, issue: Issue)
      requires Valid()
      modifies cell, breaker
      ensures Valid()
      ensures issue.call == call && issue.path == path && issue.reply == r
      ensures Honest(w, Own(), old(Now()), issue)
      ensures Now() == Asked(w, Own(), old(Now()), issue)
    {
      var outcome, log :=
        RequestEngine.ExecuteRaw(breaker, config, w.url(call), true, w.server(call), w.schedule(call));
      Suspend(ForAnswer(call), w);
      match outcome {
        case Ok(response) => r := Ok(Answer(response.Status? && response.code == 404, w.body(call)));
        case Err(e) => r := Err(e);
      }
      issue := Issue(call, path, r, log);
    }

    /** `renew_token_via_api`: bypasses `execute`, because its path is not exempt. */
    method RenewTokenViaApi(w: World) returns (r: Result<()>, issue: Issue)
      requires Valid()
      modifies cell, breaker
      ensures Valid()
      ensures IsRenewal(issue) && r == Renewed(issue.reply) && Honest(w, Own(), old(Now()), issue)
      ensures Now() == Settle(w, Own(), old(Now()), issue)
    {
      var raw;
      raw, issue := ExecuteRaw(RenewSelf, RENEW_SELF, w);
      if raw.Err? {
        return Err(raw.error), issue;
      }
      match raw.value.body
      case BadJson => return Err(Http(OtherHttp)), issue;
      case Parsed(auth) =>
        if auth.Some? {
          cell.UpdateTokenFromAuth(auth.value, w.firstStore);
        }
        return Ok(()), issue;
    }

    /** `execute`, for the request of the user or for a login. */
    method Execute(path: Bytes, call: Call, w: World) returns (r: Result<Answer>, issued: seq<Issue>)
      requires Valid() && (IsLogin(path) || !holdsLock)
      requires call == if IsLogin(path) then Login else Request
      modifies this, cell, breaker
      ensures Valid() && holdsLock == old(holdsLock)
      ensures IsLogin(path) ==>
                && |issued| == 1 && issued[0].call == Login && issued[0].path == path && issued[0].reply == r
                && Honest(w, Own(), old(Now()), issued[0])
                && Now() == Asked(w, Own(), old(Now()), issued[0])
      ensures !IsLogin(path) ==>
                && Course(w, Own(), path, old(cell.token), r, issued)
                && AllHonest(w, Own(), Start(w, Own(), old(Now())), issued)
                && Now() == SettleAll(w, Own(), Start(w, Own(), old(Now())), issued)
      decreases if IsLogin(path) then 0 else 5
    {
      issued := [];
      var alive: Result<()> := Ok(());
      if !IsLogin(path) {
        alive, issued := EnsureValidToken(w);
      }
      if alive.Err? {
        r := Err(alive.error);
        TurnedAway(w, Own(), path, old(cell.token), issued);
      } else {
        var issue;
        r, issue := ExecuteRaw(call, path, w);
        if !IsLogin(path) {
          OneMore(w, Own(), Start(w, Own(), old(Now())), issued, issue);
          Proceeds(w, Own(), old(cell.token), issued, issue);
        }
        issued := issued + [issue];
      }
    }

    /** `exec_with_auth`, for a login. */
    method ExecWithAuth(path: Bytes, w: World) returns (r: Result<Option<AuthInfo>>, issued: seq<Issue>)
      requires Valid() && IsLogin(path)
      modifies this, cell, breaker
      ensures Valid() && holdsLock == old(holdsLock)
      ensures |issued| == 1 && issued[0].call == Login && issued[0].path == path
      ensures Honest(w, Own(), old(Now()), issued[0])
      ensures Now() == Asked(w, Own(), old(Now()), issued[0])
      ensures match r
              case Err(e) => LoggedOn(path, issued[0].reply) == Err(e)
              case Ok(None) => LoggedOn(path, issued[0].reply) == Err(EmptyResponse)
              case Ok(Some(auth)) => LoggedOn(path, issued[0].reply) == Ok(auth)
      decreases 1
    {
      var answer;
      answer, issued := Execute(path, Login, w);
      if answer.Err? {
        return Err(answer.error), issued;
      }
      if answer.value.missing {
        return Err(NotFound(path)), issued;
      }
      match answer.value.body
      case BadJson => return Err(Http(OtherHttp)), issued;
      case Parsed(auth) => return Ok(auth), issued;
    }

    /** The login of the configured method, up to its own store of the auth value. */
    method LogIn(m: AuthMethod, w: World) returns (r: Result<AuthInfo>, issued: seq<Issue>)
      requires Valid()
      modifies this, cell, breaker
      ensures Valid() && holdsLock == old(holdsLock)
      ensures |issued| == 1 && issued[0].call == Login && issued[0].path == Path(m)
      ensures Honest(w, Own(), old(Now()), issued[0])
      ensures r == LoggedOn(Path(m), issued[0].reply)
      ensures var asked := Asked(w, Own(), old(Now()), issued[0]);
              Now() == match r
                       case Ok(auth) =>
                         asked.(token := Some(FromAuth(auth, w.firstStore)), notified := asked.notified + [auth])
                       case Err(_) => asked
      decreases 2
    {
      BuiltInLoginIsExempt(m);
      var envelope;
      envelope, issued := ExecWithAuth(Path(m), w);
      if envelope.Err? {
        return Err(envelope.error), issued;
      }
      match envelope.value
      case None => return Err(EmptyResponse), issued;
      case Some(auth) =>
        cell.UpdateTokenFromAuth(auth, w.firstStore);
        return Ok(auth), issued;
    }

    /** `try_re_authenticate`: stores the auth value a second time. */
    method TryReAuthenticate(w: World) returns (r: Result<()>, issued: seq<Issue>)
      requires Valid()
      modifies this, cell, breaker
      ensures Valid() && holdsLock == old(holdsLock)
      ensures authMethod.Some? ==>
                && |issued| == 1 && IsLoginOf(Own(), issued[0]) && r == Verdict(issued[0])
                && Honest(w, Own(), old(Now()), issued[0])
                && Now() == Settle(w, Own(), old(Now()), issued[0])
      ensures authMethod.None? ==> issued == [] && r == Err(AuthRequired) && Now() == old(Now())
      decreases 3
    {
      match authMethod
      case None => return Err(AuthRequired), [];
      case Some(m) =>
        var auth;
        auth, issued := LogIn(m, w);
        LoginAnswers(issued[0]);
        if auth.Err? {
          return Err(auth.error), issued;
        }
        cell.UpdateTokenFromAuth(auth.value, w.secondStore);
        return Ok(()), issued;
    }

    /** `ensure_valid_token`. */
    method EnsureValidToken(w: World) returns (r: Result<()>, issued: seq<Issue>)
      requires Valid() && !holdsLock
      modifies this, cell, breaker
      ensures Valid() && !holdsLock
      ensures Upkeep(w, Own(), old(cell.token), issued) && r == Outcome(issued)
      ensures AllHonest(w, Own(), Start(w, Own(), old(Now())), issued)
      ensures Now() == SettleAll(w, Own(), Start(w, Own(), old(Now())), issued)
      decreases 4
    {
      issued := [];
      var action := Decide(ForMethod(authMethod), View(w.firstLook, cell.token, 0, true));
      if action.StartLogin? {
        r, issued := TryReAuthenticate(w);
        assert issued == [issued[0]];
        One(w, Own(), old(Now()), issued[0]);
      } else if action.AwaitLock? {
        Lock(w);
        ghost var start := Now();
        var stillNeeded := cell.token.Some? && NeedsRenewal(cell.token.value, w.secondLook);
        if !stillNeeded {
          holdsLock := false;
          return Ok(()), [];
        }
        var renewal;
        r, renewal := RenewTokenViaApi(w);
        issued := [renewal];
        One(w, Own(), start, renewal);
        if r.Err? && authMethod.Some? {
          var login;
          r, login := TryReAuthenticate(w);
          assert login == [login[0]];
          OneMore(w, Own(), start, issued, login[0]);
          issued := issued + login;
        }
        holdsLock := false;
      } else {
        return Ok(()), [];
      }
    }
  }
}
