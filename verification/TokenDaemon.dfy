/**
 * The renewal daemon (`start_token_renewal`) next to any number of callers that share its
 * client. When it is punctual, how long must a lease be for the callers never to find the
 * token due?
 */
module TokenDaemon {
  import opened Common
  import opened TokenStore
  import opened Lifecycle
  import opened LifecycleDecision

  const JITTER_MS: nat := 5000

  /** Where the daemon is: at the head of its loop, asleep, or waiting for an answer. */
  datatype Daemon = AtHead | Asleep(deadline: nat) | Renewing(sentAt: nat) | LoggingIn(sentAt: nat)

  datatype World = World(s: State, d: Daemon)

  datatype Act =
    | OfClients(a: Action)
    | Look(jitterMs: nat)       // reads the token and goes to sleep
    | Wake                      // sends a renew-self, without the lock
    | Answer(reply: Reply)      // the answer to its renewal, or to its login

  /** How long the daemon sleeps after it has read the token. */
  function DaemonSleep(token: Option<TokenState>, jitterMs: nat): nat {
    if token.Some? && token.value.renewable && token.value.lease > 0
    then token.value.lease * 33 / 50 + jitterMs * MILLI
    else 60 * SECOND
  }

  /** The daemon is scheduled at once, its timers fire in time, and it is answered within `latency`. */
  predicate Punctual(latency: nat, d: Daemon, now: nat) {
    match d
    case AtHead => false
    case Asleep(deadline) => now <= deadline
    case Renewing(sentAt) => now <= sentAt + latency
    case LoggingIn(sentAt) => now <= sentAt + latency
  }

  function Next(c: Config, latency: nat, w: World, act: Act): Option<World> {
    match act
    case OfClients(a) =>
      if a.Tick? && a.elapsed > 0 && !Punctual(latency, w.d, w.s.now + a.elapsed) then None
      else (match Lifecycle.Next(c, w.s, a) case None => None case Some(s) => Some(w.(s := s)))
    case Look(jitterMs) =>
      if w.d.AtHead? && jitterMs < JITTER_MS
      then Some(w.(d := Asleep(w.s.now + DaemonSleep(w.s.token, jitterMs))))
      else None
    case Wake => if w.d.Asleep? && w.s.now >= w.d.deadline then Some(w.(d := Renewing(w.s.now))) else None
    case Answer(reply) =>
      (match w.d
       case Renewing(_) =>
         (match reply
          case Failed => Some(w.(d := if c.loginPath.Some? then LoggingIn(w.s.now) else AtHead))
          case Answered(None) => Some(w.(d := AtHead))
          case Answered(Some(auth)) => Some(World(Write(w.s, FromAuth(auth, w.s.now)), AtHead)))
       case LoggingIn(_) =>
         (match reply
          case Answered(Some(auth)) =>
            var stored := FromAuth(auth, w.s.now);
            Some(World(Write(Write(w.s, stored), stored), AtHead))
          case _ => Some(w.(d := AtHead)))
       case _ => None)
  }

  /**
   * The daemon sleeps 33/50 of a positive lease of a renewable token, rounded down, and a
   * jitter below five seconds, or else a minute, and sends its renewal no earlier.
   */
  lemma SleepExactly(c: Config, latency: nat, w: World, jitterMs: nat)
    ensures Next(c, latency, w, Look(jitterMs)).Some? <==> w.d.AtHead? && jitterMs < 5000
    ensures w.d.AtHead? && jitterMs < 5000 ==>
              var d, token := Next(c, latency, w, Look(jitterMs)).value.d, w.s.token;
              && d.Asleep?
              && if token.Some? && token.value.renewable && token.value.lease > 0 then
                   var time := d.deadline - w.s.now - jitterMs * 1_000_000;
                   33 * token.value.lease - 50 < 50 * time <= 33 * token.value.lease
                 else d.deadline == w.s.now + 60_000_000_000
    ensures Next(c, latency, w, Wake).Some? <==> w.d.Asleep? && w.s.now >= w.d.deadline
  {
  }

  /**
   * A renewal that fails is followed by a login, if there is a method, and by the next sleep
   * otherwise. Either one stores what it was granted.
   */
  lemma AnswersExactly(c: Config, latency: nat, w: World, reply: Reply)
    requires w.d.Renewing? || w.d.LoggingIn?
    ensures Next(c, latency, w, Answer(reply)).Some?
    ensures var w' := Next(c, latency, w, Answer(reply)).value;
            && (w'.d == LoggingIn(w.s.now) <==> w.d.Renewing? && reply.Failed? && c.loginPath.Some?)
            && (!w'.d.LoggingIn? ==> w'.d == AtHead)
            && match reply
               case Answered(Some(auth)) => Holds(w'.s.token, auth, w.s.now)
               case _ => w'.s == w.s
  {
  }

  function Run(c: Config, latency: nat, w: World, run: seq<Act>): Option<World> {
    if run == [] then Some(w)
    else match Run(c, latency, w, run[..|run| - 1])
      case None => None
      case Some(before) => Next(c, latency, before, run[|run| - 1])
  }

  /** A token was just stored for `auth`, and the daemon is about to look at it. */
  function Begin(auth: AuthInfo): World {
    World(Write(Init(None), FromAuth(auth, 0)), AtHead)
  }

  /**
   * The lease outlasts the daemon's sleep and one answer: it never ends, or the fifth that
   * a caller wants to see left is longer than what is left after the sleep.
   */
  predicate Lasts(latency: nat, auth: AuthInfo) {
    var secs := auth.leaseDuration as nat;
    || secs == 0 || FromSecs(auth.leaseDuration) >= INSTANT_END
    || (if auth.renewable then secs * 140_000_000 > 4_999_000_000 + latency
        else secs * 800_000_000 > 60_000_000_000 + latency)
  }

  /** The daemon's renewals succeed with a lease that lasts; nobody else stores an auth value. */
  predicate Calm(latency: nat, act: Act) {
    match act
    case OfClients(a) => !a.SpawnWriter?
    case Answer(reply) => reply.Answered? && reply.auth.Some? && Lasts(latency, reply.auth.value)
    case _ => true
  }

  predicate AllCalm(latency: nat, run: seq<Act>) {
    forall i :: 0 <= i < |run| ==> Calm(latency, run[i])
  }

  /** No look up to the moment `end` finds the token due. */
  ghost predicate NotDueUntil(token: TokenState, end: nat) {
    forall t: nat :: t <= end ==> !NeedsRenewal(token, t)
  }

  /** From a look at `now`, the token lasts until the daemon has its next answer. */
  ghost predicate Outlasts(latency: nat, token: TokenState, now: nat) {
    forall jitterMs: nat :: jitterMs < JITTER_MS ==>
      NotDueUntil(token, now + DaemonSleep(Some(token), jitterMs) + latency)
  }

  lemma OutlastsExactly(latency: nat, auth: AuthInfo, now: nat)
    ensures Lasts(latency, auth) ==> Outlasts(latency, FromAuth(auth, now), now)
    ensures !Lasts(latency, auth) && now + FromSecs(auth.leaseDuration) < INSTANT_END ==>
              NeedsRenewal(FromAuth(auth, now), now + DaemonSleep(Some(FromAuth(auth, now)), JITTER_MS - 1) + latency)
  {
    var token := FromAuth(auth, now);
    var secs := auth.leaseDuration as nat;
    assert token.lease * 33 / 50 == secs * 660 * MILLI;
    if 0 < secs && now + token.lease < INSTANT_END {
      forall t: nat
        ensures NeedsRenewal(token, t) <==> 5 * t >= 5 * now + 4 * token.lease
      {
        DueExactly(auth, now, t);
      }
    }
  }

  /** The token lasts until the daemon has its next answer. */
  ghost predicate Ahead(latency: nat, w: World) {
    && w.s.token.Some?
    && var token, now := w.s.token.value, w.s.now;
       match w.d
       case AtHead => Outlasts(latency, token, now)
       case Asleep(deadline) => now <= deadline && NotDueUntil(token, deadline + latency)
       case Renewing(sentAt) => now <= sentAt + latency && NotDueUntil(token, sentAt + latency)
       case LoggingIn(_) => false
  }

  /** Every caller has only its own request to make, or made it, and nobody took the lock. */
  predicate Undisturbed(s: State) {
    s.lock.None? && forall id :: id in s.tasks ==> PlainTask(s.tasks[id]) && !IsWriter(s.tasks[id])
  }

  lemma AheadIsFresh(latency: nat, w: World)
    requires Ahead(latency, w)
    ensures !NeedsRenewal(w.s.token.value, w.s.now)
  {
    if w.d.AtHead? {
      assert NotDueUntil(w.s.token.value, w.s.now + DaemonSleep(w.s.token, 0) + latency);
    }
  }

  lemma ClientsKeepAhead(c: Config, latency: nat, w: World, a: Action)
    requires Ahead(latency, w) && Undisturbed(w.s) && !a.SpawnWriter?
    requires Next(c, latency, w, OfClients(a)).Some?
    ensures var w' := Next(c, latency, w, OfClients(a)).value; Ahead(latency, w') && Undisturbed(w'.s)
  {
    AheadIsFresh(latency, w);
    if a.Step? {
      LocalPlain(c, Observe(w.s), a.id, w.s.tasks[a.id]);
    }
  }

  lemma NextKeepsAhead(c: Config, latency: nat, w: World, act: Act)
    requires Ahead(latency, w) && Undisturbed(w.s) && Calm(latency, act)
    requires Next(c, latency, w, act).Some?
    ensures var w' := Next(c, latency, w, act).value; Ahead(latency, w') && Undisturbed(w'.s)
  {
    match act
    case OfClients(a) => ClientsKeepAhead(c, latency, w, a);
    case Answer(reply) => OutlastsExactly(latency, reply.auth.value, w.s.now);
    case _ =>
  }

  /**
   * In every run of the daemon and any number of callers in which all grants last, nobody
   * ever finds the token due: no caller takes the lock, renews or logs in.
   */
  lemma {:induction false} DaemonKeepsAhead(c: Config, latency: nat, auth: AuthInfo, run: seq<Act>)
    requires Lasts(latency, auth) && AllCalm(latency, run) && Run(c, latency, Begin(auth), run).Some?
    ensures var w := Run(c, latency, Begin(auth), run).value; Ahead(latency, w) && Undisturbed(w.s)
  {
    if run == [] {
      OutlastsExactly(latency, auth, 0);
    } else {
      var before := run[..|run| - 1];
      assert forall i :: 0 <= i < |before| ==> before[i] == run[i];
      DaemonKeepsAhead(c, latency, auth, before);
      NextKeepsAhead(c, latency, Run(c, latency, Begin(auth), before).value, run[|run| - 1]);
    }
  }

  // --- The bound is exact ---

  ghost predicate Leads(c: Config, latency: nat, w: World, run: seq<Act>, w': World) {
    Run(c, latency, w, run) == Some(w')
  }

  lemma Extend(c: Config, latency: nat, w: World, run0: seq<Act>, mid: World, act: Act)
    returns (run: seq<Act>, w': World)
    requires Leads(c, latency, w, run0, mid) && Next(c, latency, mid, act).Some?
    requires AllCalm(latency, run0) && Calm(latency, act)
    ensures Leads(c, latency, w, run, w') && Next(c, latency, mid, act) == Some(w') && AllCalm(latency, run)
  {
    run, w' := run0 + [act], Next(c, latency, mid, act).value;
    assert run[..|run0|] == run0;
  }

  /** A caller that looks for the first time finds the token due. */
  predicate FindsDue(s: State, id: nat) {
    At(s, id, true) && s.token.Some? && NeedsRenewal(s.token.value, s.now)
  }

  /** With a lease that does not last, a caller can come too early for the daemon. */
  lemma DaemonComesTooLate(c: Config, latency: nat, auth: AuthInfo) returns (run: seq<Act>, w: World)
    requires !Lasts(latency, auth)
    ensures Leads(c, latency, Begin(auth), run, w) && AllCalm(latency, run) && FindsDue(w.s, 0)
  {
    var begin := Begin(auth);
    var sleep := DaemonSleep(begin.s.token, JITTER_MS - 1);
    run, w := Extend(c, latency, begin, [], begin, Look(JITTER_MS - 1));
    run, w := Extend(c, latency, begin, run, w, OfClients(Tick(sleep)));
    run, w := Extend(c, latency, begin, run, w, Wake);
    run, w := Extend(c, latency, begin, run, w, OfClients(Tick(latency)));
    run, w := Extend(c, latency, begin, run, w, OfClients(Spawn(0, [])));
    run, w := Extend(c, latency, begin, run, w, OfClients(Step(0)));
    OutlastsExactly(latency, auth, 0);
  }

  ghost predicate NobodyFindsDue(c: Config, latency: nat, auth: AuthInfo) {
    forall run, w, id ::
      Leads(c, latency, Begin(auth), run, w) && AllCalm(latency, run) ==> !FindsDue(w.s, id)
  }

  /** The exact leases with which a punctual daemon spares the callers all renewals. */
  lemma DaemonIsFirstExactly(c: Config, latency: nat, auth: AuthInfo)
    ensures NobodyFindsDue(c, latency, auth) <==> Lasts(latency, auth)
  {
    if Lasts(latency, auth) {
      forall run, w, id | Leads(c, latency, Begin(auth), run, w) && AllCalm(latency, run)
        ensures !FindsDue(w.s, id)
      {
        DaemonKeepsAhead(c, latency, auth, run);
        AheadIsFresh(latency, w);
      }
    } else {
      var run, w := DaemonComesTooLate(c, latency, auth);
    }
  }

  /** A daemon that is answered at once needs a renewable lease of 36 whole seconds; 35 are too few. */
  lemma DaemonNeeds36Seconds(c: Config, auth: AuthInfo)
    requires auth.renewable && 0 < FromSecs(auth.leaseDuration) < INSTANT_END
    ensures NobodyFindsDue(c, 0, auth) <==> auth.leaseDuration >= 36
  {
    DaemonIsFirstExactly(c, 0, auth);
  }
}
