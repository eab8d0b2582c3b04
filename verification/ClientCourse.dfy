/**
 * What one call of the client does, told from what was last written to the token store and
 * from the answers of the server.
 */
module ClientCourse {
  import opened Common
  import opened TokenStore
  import opened VaultErrors
  import opened LoginPath
  import opened Lifecycle
  import opened LifecycleDecision
  import opened VaultClient
  import Retry

  /** The body of the answer parses. */
  predicate Parses(issue: Issue) {
    issue.reply.Ok? && issue.reply.value.body.Parsed?
  }

  /** The answer is not a 404, parses and carries `auth`. */
  predicate BringsAuth(issue: Issue) {
    Parses(issue) && !issue.reply.value.missing && issue.reply.value.body.auth.Some?
  }

  /** The error of a renewal or a login that did not do. */
  predicate FailsWith(issue: Issue, r: Result<Answer>) {
    match issue.reply
    case Err(e) => r == Err(e)
    case Ok(Answer(missing, body)) =>
      if issue.call.Login? && missing then r == Err(NotFound(issue.path))
      else if body.BadJson? then r == Err(Http(OtherHttp))
      else r == Err(EmptyResponse)
  }

  /** What follows request number `i`, and where it went. */
  predicate GoesOn(hasMethod: Option<AuthMethod>, path: Bytes, r: Result<Answer>, issued: seq<Issue>, i: nat)
    requires i < |issued|
  {
    var n, issue := |issued|, issued[i];
    match issue.call
    case RenewSelf =>
      && i == 0 && issue.path == RENEW_SELF
      && if Parses(issue) then n == 2 && issued[1].call == Request
         else if hasMethod.Some? then n >= 2 && issued[1].call == Login
         else n == 1 && FailsWith(issue, r)
    case Login =>
      && hasMethod.Some? && issue.path == Path(hasMethod.value)
      && if BringsAuth(issue) then n == i + 2 && issued[i + 1].call == Request else n == i + 1 && FailsWith(issue, r)
    case Request => n == i + 1 && issue.path == path && r == issue.reply
  }

  /**
   * Every call issues a request. The first one is a renewal exactly if the token found is a
   * renewable grant that is due, and the one found with the lock is a grant that is due, too;
   * it is a login exactly if there is a method, and no token, or a grant that is due and not
   * renewable. The others follow from the answers.
   */
  lemma {:induction false} CourseExactly(w: World, u: Setup, path: Bytes, found: Written, locked: Written,
                                         r: Result<Answer>, issued: seq<Issue>)
    requires Course(w, u, path, TokenOf(found), r, issued)
    requires w.meanwhile(ForLock).token == TokenOf(locked)
    ensures issued != []
    ensures var due := GrantIsDue(found, w.firstLook);
            && (issued[0].call == RenewSelf <==>
                  due && found.auth.renewable && GrantIsDue(locked, w.secondLook))
            && (issued[0].call == Login <==>
                  u.login.Some? && (found.Nothing? || (due && !found.auth.renewable)))
    ensures forall i :: 0 <= i < |issued| ==> GoesOn(u.login, path, r, issued, i)
  {
    GrantIsDueExactly(found, w.firstLook);
    GrantIsDueExactly(locked, w.secondLook);
    var kept := LifecyclePart(issued);
    if |kept| == 1 {
      assert kept[0] == issued[0];
    } else if |kept| == 2 {
      assert kept[0] == issued[0] && kept[1] == issued[1];
    }
  }

  /** What the answer to a request leaves behind: the token granted last, announced once or twice. */
  lemma SettleExactly(w: World, u: Setup, s: Snapshot, issue: Issue)
    ensures var s', others := Settle(w, u, s, issue), w.meanwhile(ForAnswer(issue.call));
            match (issue.call, issue.reply)
            case (RenewSelf, Ok(Answer(_, Parsed(Some(auth))))) =>
              Holds(s'.token, auth, w.firstStore) && s'.notified == s.notified + others.announced + [auth]
            case (Login, Ok(Answer(false, Parsed(Some(auth))))) =>
              Holds(s'.token, auth, w.secondStore) && s'.notified == s.notified + others.announced + [auth, auth]
            case _ => s'.token == others.token && s'.notified == s.notified + others.announced
  {
  }

  /** After a call the token is what its last request leaves behind. */
  lemma LastAnswerCounts(w: World, u: Setup, s: Snapshot, issued: seq<Issue>)
    requires issued != []
    ensures var before := SettleAll(w, u, s, issued[..|issued| - 1]);
            SettleAll(w, u, s, issued) == Settle(w, u, before, issued[|issued| - 1])
  {
  }

  /** An admitted request brings the server's last response; `missing` is its status 404. */
  lemma AnswerIsTheServers(w: World, u: Setup, s: Snapshot, issue: Issue)
    requires Honest(w, u, s, issue) && Sends(w, u, issue.call, s)
    ensures var server := w.server(issue.call);
            var last := server(Retry.LastSend(u.retry, w.url(issue.call).value, server, 0));
            && (issue.reply.Ok? <==> last.Status? && (200 <= last.code <= 299 || last.code == 404))
            && (issue.reply.Ok? ==>
                  && (issue.reply.value.missing <==> last.code == 404)
                  && issue.reply.value.body == w.body(issue.call))
            && (last.Status? && issue.reply.Err? ==> StatusCode(issue.reply.error) == Some(last.code))
            && (last.NetworkError? ==> issue.reply == Err(Http(last.cause)))
  {
  }
}
