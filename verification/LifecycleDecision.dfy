/** What the two looks at the token decide, told from the log; tokens without expiry are left alone. */
module LifecycleDecision {
  import opened Common
  import opened TokenStore
  import opened Lifecycle

  predicate At(s: State, id: nat, first: bool) {
    && id in s.tasks && s.tasks[id].frames != []
    && if first then TopPc(s.tasks[id]).ReadToken? else TopPc(s.tasks[id]).Recheck?
  }

  /** The stored token is renewable, and a look at it would find it due. */
  predicate DueForRenewal(s: State) {
    s.token.Some? && s.token.value.renewable && NeedsRenewal(s.token.value, s.now)
  }

  /** A caller with the lock is about to decide that the token has to be renewed. */
  predicate Decides(c: Config, s: State, id: nat) {
    && At(s, id, false)
    && Next(c, s, Step(id)).Some?
    && Next(c, s, Step(id)).value.tasks[id].frames != []
    && TopPc(Next(c, s, Step(id)).value.tasks[id]).RenewReady?
  }

  // --- What is stored, told from the log ---

  /** A write of the token: an auth value at a time, or a plain token. */
  datatype Written = Nothing | Plain(value: string) | Grant(auth: AuthInfo, at: nat)

  function LastWrite(init: Option<string>, log: seq<Event>): Written {
    if log == [] then (match init case None => Nothing case Some(value) => Plain(value))
    else match log[|log| - 1]
      case Stored(_, _, auth, at) => Grant(auth, at)
      case TokenSet(value, _) => Plain(value)
      case _ => LastWrite(init, log[..|log| - 1])
  }

  function TokenOf(w: Written): Option<TokenState> {
    match w
    case Nothing => None
    case Plain(value) => Some(FromPlain(value))
    case Grant(auth, at) => Some(FromAuth(auth, at))
  }

  /** Four fifths of a lease that has an expiry on the clock are over. */
  predicate GrantIsDue(w: Written, now: nat) {
    && w.Grant?
    && 0 < FromSecs(w.auth.leaseDuration) < INSTANT_END - w.at
    && 5 * now >= 5 * w.at + 4 * FromSecs(w.auth.leaseDuration)
  }

  lemma LocalWrites(c: Config, v: View, id: nat, t: Task, init: Option<string>, log: seq<Event>)
    requires Local(c, v, id, t).Some?
    ensures var e := Local(c, v, id, t).value;
            && (e.event.None? ==> e.write.None?)
            && (e.event.Some? ==>
                  TokenOf(LastWrite(init, log + [e.event.value]))
                  == if e.write.Some? then e.write else TokenOf(LastWrite(init, log)))
  {
    var e := Local(c, v, id, t).value;
    if e.event.Some? {
      assert (log + [e.event.value])[..|log|] == log;
    }
  }

  /** In every run the stored token is that of the last write in the log. */
  lemma {:induction false} TokenIsLastWrite(c: Config, init: Option<string>, run: seq<Action>)
    requires Run(c, Init(init), run).Some?
    ensures var s := Run(c, Init(init), run).value; s.token == TokenOf(LastWrite(init, s.log))
  {
    if run != [] {
      var before := run[..|run| - 1];
      var s := Run(c, Init(init), before).value;
      TokenIsLastWrite(c, init, before);
      match run[|run| - 1]
      case Step(id) =>
        LocalWrites(c, Observe(s), id, s.tasks[id], init, s.log);
        assert s.log + [] == s.log;
      case _ =>
    }
  }

  /**
   * So in every run the stored token has the value, the flag and the end of the last grant, or
   * the plain value that was set, or there is none.
   */
  lemma StoredTokenExactly(c: Config, init: Option<string>, run: seq<Action>)
    requires Run(c, Init(init), run).Some?
    ensures var s := Run(c, Init(init), run).value;
            match LastWrite(init, s.log)
            case Nothing => s.token == None
            case Plain(value) => s.token == Some(TokenState(value, None, false, 0))
            case Grant(auth, at) => Holds(s.token, auth, at)
  {
    TokenIsLastWrite(c, init, run);
  }

  lemma GrantIsDueExactly(w: Written, now: nat)
    ensures TokenOf(w).Some? && NeedsRenewal(TokenOf(w).value, now) <==> GrantIsDue(w, now)
  {
    if w.Grant? && 0 < FromSecs(w.auth.leaseDuration) < INSTANT_END - w.at {
      DueExactly(w.auth, w.at, now);
    }
  }

  /**
   * In every run, what the second look decides follows from the last write of the token: a
   * caller with the lock goes on to renew exactly when that was an auth value with an expiry
   * on the clock of whose lease four fifths are over. Otherwise it leaves without a request.
   * An answer without `auth` writes nothing, so it does not stop the next caller.
   */
  lemma SecondLookExactly(c: Config, init: Option<string>, run: seq<Action>, id: nat)
    requires Run(c, Init(init), run).Some? && At(Run(c, Init(init), run).value, id, false)
    ensures var s := Run(c, Init(init), run).value;
            && (Decides(c, s, id) <==> GrantIsDue(LastWrite(init, s.log), s.now))
            && (!Decides(c, s, id) ==> TopPc(Next(c, s, Step(id)).value.tasks[id]) == Unlock(true))
  {
    var s := Run(c, Init(init), run).value;
    TokenIsLastWrite(c, init, run);
    GrantIsDueExactly(LastWrite(init, s.log), s.now);
  }

  /**
   * In every run, a caller that looks for the first time queues for a renewal exactly when
   * the last write was a renewable grant that is due; it goes for a login exactly when there
   * is a method and nothing was ever written, or a grant that is due and not renewable; and
   * it sends its request otherwise.
   */
  lemma FirstLookExactly(c: Config, init: Option<string>, run: seq<Action>, id: nat)
    requires Run(c, Init(init), run).Some? && At(Run(c, Init(init), run).value, id, true)
    ensures var s := Run(c, Init(init), run).value;
            && Next(c, s, Step(id)).Some?
            && var w, t := LastWrite(init, s.log), Next(c, s, Step(id)).value.tasks[id];
               var due := GrantIsDue(w, s.now);
               && t.frames != [] && t.calls == s.tasks[id].calls
               && (TopPc(t).AwaitLock? <==> due && w.auth.renewable)
               && (TopPc(t).StartLogin? <==> c.loginPath.Some? && (w.Nothing? || (due && !w.auth.renewable)))
               && (!TopPc(t).AwaitLock? && !TopPc(t).StartLogin? ==> TopPc(t).SendRequest?)
  {
    var s := Run(c, Init(init), run).value;
    TokenIsLastWrite(c, init, run);
    GrantIsDueExactly(LastWrite(init, s.log), s.now);
  }

  // --- Tokens without expiry ---

  predicate NobodyStored(log: seq<Event>) {
    forall i :: 0 <= i < |log| ==> !log[i].Stored?
  }

  /** A caller whose activation has only its own request to make, or made it. */
  predicate PlainTask(t: Task) {
    if t.frames == [] then t.calls == [] || t.calls == [Request]
    else
      && |t.frames| == 1
      && match t.frames[0].pc
         case Enter => t.calls == []
         case ReadToken => t.calls == []
         case SendRequest => t.calls == []
         case OtherStore(_) => t.calls == []
         case InFlight => t.calls == [Request]
         case Finished(_) => t.calls == [Request]
         case _ => false
  }

  predicate IsWriter(t: Task) {
    t.frames != [] && TopPc(t).OtherStore?
  }

  predicate PlainState(s: State) {
    && s.token.Some? && s.token.value.expiresAt.None?
    && s.lock.None?
    && forall id :: id in s.tasks ==> PlainTask(s.tasks[id])
  }

  /** A caller that does not find the token due goes on to its own request. */
  lemma LocalPlain(c: Config, v: View, id: nat, t: Task)
    requires PlainTask(t) && v.token.Some? && !NeedsRenewal(v.token.value, v.now)
    requires Local(c, v, id, t).Some?
    ensures var e := Local(c, v, id, t).value;
            if TopPc(t).OtherStore? then e.event.Some? && e.event.value.Stored?
            else PlainTask(e.task) && !IsWriter(e.task) && e.write.None? && e.lock.Keep?
  {
  }

  lemma NextKeepsPlain(c: Config, s: State, a: Action)
    requires PlainState(s) && Next(c, s, a).Some? && NobodyStored(Next(c, s, a).value.log)
    ensures PlainState(Next(c, s, a).value)
  {
    if a.Step? {
      LocalPlain(c, Observe(s), a.id, s.tasks[a.id]);
      var e := Local(c, Observe(s), a.id, s.tasks[a.id]).value;
      if e.event.Some? {
        assert Next(c, s, a).value.log[|s.log|] == e.event.value;
      }
    }
  }

  /**
   * A client with a token that has no expiry, given to it at the start and perhaps replaced by
   * `set_token`, never renews it and never logs in on its own: until somebody stores the
   * answer of a login, every caller makes at most its own request, and nobody takes the lock.
   */
  lemma {:induction false} PlainTokensAreLeftAlone(c: Config, value: string, run: seq<Action>)
    requires Run(c, Init(Some(value)), run).Some?
    requires NobodyStored(Run(c, Init(Some(value)), run).value.log)
    ensures PlainState(Run(c, Init(Some(value)), run).value)
  {
    if run != [] {
      var before := run[..|run| - 1];
      var s := Run(c, Init(Some(value)), before).value;
      var s' := Run(c, Init(Some(value)), run).value;
      LogGrows(c, s, run[|run| - 1]);
      assert forall i :: 0 <= i < |s.log| ==> s.log[i] == s'.log[i];
      PlainTokensAreLeftAlone(c, value, before);
      NextKeepsPlain(c, s, run[|run| - 1]);
    }
  }
}
