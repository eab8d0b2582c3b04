/** What one call of the client does is what some run of the step system does. */
module ClientRuns {
  import opened Common
  import opened TokenStore
  import opened LoginPath
  import opened Lifecycle
  import opened LifecycleProgress
  import opened LifecycleLimits
  import opened LifecycleOutcomes
  import VaultClient

  /** The result of a call in the terms of the step system. */
  function ResultOf(issued: seq<VaultClient.Issue>): Reply {
    if VaultClient.HasRequest(issued) then VaultClient.ReplyOf(issued[|issued| - 1]) else Failed
  }

  lemma WithRequest(issued: seq<VaultClient.Issue>)
    requires VaultClient.HasRequest(issued)
    ensures var kept, reply := VaultClient.LifecyclePart(issued), ResultOf(issued);
            && VaultClient.Calls(issued) == VaultClient.Calls(kept) + [Request]
            && VaultClient.Replies(issued) == VaultClient.Replies(kept) + [reply]
            && VaultClient.AllStores(issued) == VaultClient.AllStores(kept)
  {
  }

  lemma RequestFollows(calls: seq<Call>, answers: seq<Reply>, stored: seq<AuthInfo>, reply: Reply)
    requires Passed(calls, answers, stored)
    ensures Requested(calls + [Request], answers + [reply], stored, reply)
  {
    assert (calls + [Request])[..|calls|] == calls && (answers + [reply])[..|answers|] == answers;
  }

  lemma {:induction false} LoginNeedsMethod(w: VaultClient.World, u: VaultClient.Setup, found: Option<TokenState>,
                                            issued: seq<VaultClient.Issue>)
    requires VaultClient.Upkeep(w, u, found, issued) && Login in VaultClient.Calls(issued)
    ensures u.login.Some?
  {
  }

  lemma {:induction false} CourseIsPossible(w: VaultClient.World, u: VaultClient.Setup, path: Bytes,
                                            found: Option<TokenState>, r: VaultClient.Result<VaultClient.Answer>,
                                            issued: seq<VaultClient.Issue>)
    requires VaultClient.Course(w, u, path, found, r, issued)
    ensures Possible(VaultClient.ForMethod(u.login), VaultClient.Calls(issued), VaultClient.Replies(issued),
                     VaultClient.AllStores(issued), ResultOf(issued))
  {
    var kept := VaultClient.LifecyclePart(issued);
    var calls, answers, stored := VaultClient.Calls(kept), VaultClient.Replies(kept), VaultClient.AllStores(kept);
    VaultClient.CourseFollowsSteps(w, u, path, found, r, issued);
    if Login in calls {
      LoginNeedsMethod(w, u, found, kept);
    }
    if VaultClient.HasRequest(issued) {
      WithRequest(issued);
      RequestFollows(calls, answers, stored, ResultOf(issued));
    }
  }

  /**
   * For every call of the client that goes through the lifecycle, whatever the outside does,
   * some run of the step system ends with a caller that has issued the same requests, got the
   * same answers, stored the same auth values and has the same result.
   */
  lemma {:induction false} CourseIsRun(w: VaultClient.World, u: VaultClient.Setup, path: Bytes,
                                       found: Option<TokenState>, r: VaultClient.Result<VaultClient.Answer>,
                                       issued: seq<VaultClient.Issue>)
    requires VaultClient.Course(w, u, path, found, r, issued) && !IsLogin(path)
    ensures EndsSomewhere(VaultClient.ForMethod(u.login), path, VaultClient.Calls(issued),
                          VaultClient.Replies(issued), VaultClient.AllStores(issued), ResultOf(issued))
    ensures ResultOf(issued).Failed? <==> r.Err?
  {
    var c := VaultClient.ForMethod(u.login);
    if u.login.Some? {
      BuiltInLoginIsExempt(u.login.value);
    }
    CourseIsPossible(w, u, path, found, r, issued);
    OutcomesExactly(c, path, VaultClient.Calls(issued), VaultClient.Replies(issued),
                    VaultClient.AllStores(issued), ResultOf(issued));
  }
}
