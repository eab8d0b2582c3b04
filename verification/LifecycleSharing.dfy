/** Callers share renewals: what the lock and the second look at the token achieve over time. */
module LifecycleSharing {
  import opened Common
  import opened TokenStore
  import opened Lifecycle
  import opened LifecycleSafety

  /** The result of a renewal made under the lock was stored. */
  predicate IsRenewal(e: Event) {
    e.Stored? && e.source.Renewal?
  }

  /** A renew-self request left. */
  predicate IsRenewSend(e: Event) {
    e.Sent? && e.call.RenewSelf?
  }

  /** Every lease the server granted so far is zero (no expiry) or at least `lease`. */
  predicate LeasesAtLeast(log: seq<Event>, lease: nat) {
    forall k :: 0 <= k < |log| && log[k].Stored? ==>
      log[k].auth.leaseDuration == 0 || FromSecs(log[k].auth.leaseDuration) >= lease
  }

  /** Four fifths of the lease have passed between the two readings. */
  predicate FourFifths(lease: nat, from: nat, to: nat) {
    5 * to >= 5 * from + 4 * lease
  }

  /** All renewals stored so far are four fifths of a lease old. */
  predicate RenewalsAreOld(log: seq<Event>, lease: nat, now: nat) {
    forall k :: 0 <= k < |log| && IsRenewal(log[k]) ==> FourFifths(lease, log[k].at, now)
  }

  predicate Ready(t: Task) {
    t.frames != [] && TopPc(t).RenewReady?
  }

  /** The expiry of the stored token is its write time plus its lease, which is positive. */
  predicate ExpiryIsWritePlusLease(s: State) {
    s.token.Some? && s.token.value.expiresAt.Some? ==>
      s.token.value.lease > 0 && s.token.value.expiresAt.value == s.writtenAt + s.token.value.lease
  }

  predicate Spaced(log: seq<Event>, lease: nat) {
    forall k, m :: 0 <= k < m < |log| && IsRenewal(log[k]) && IsRenewSend(log[m]) ==>
      FourFifths(lease, log[k].at, log[m].at)
  }

  predicate SharingInv(lease: nat, s: State) {
    && s.writtenAt <= s.now
    && ExpiryIsWritePlusLease(s)
    && (s.token.Some? && s.token.value.expiresAt.Some? ==> s.token.value.lease >= lease)
    && (forall k :: 0 <= k < |s.log| && s.log[k].Stored? ==> s.log[k].at <= s.writtenAt)
    && (forall id :: id in s.tasks && Ready(s.tasks[id]) ==> RenewalsAreOld(s.log, lease, s.now))
    && Spaced(s.log, lease)
  }

  lemma LocalEvents(c: Config, v: View, id: nat, t: Task)
    requires Nested(t.frames) && Local(c, v, id, t).Some?
    ensures var e := Local(c, v, id, t).value;
            && (e.write.Some? <==> e.event.Some? && e.event.value.Stored?)
            && (e.event.Some? ==>
                  match e.event.value
                  case Stored(task, source, auth, at) =>
                    && e.write == Some(FromAuth(auth, at)) && at == v.now
                    && (source.Renewal? ==> TopPc(t).RenewStore?)
                  case Sent(task, call, at) => at == v.now && (call.RenewSelf? ==> Ready(t))
                  case Notified(_, _) => true
                  case TokenSet(_, _) => false)
            && (Ready(e.task) ==> v.token.Some? && NeedsRenewal(v.token.value, v.now))
  {
    if ChangesNesting(c, t) && TopPc(t).Finished? {
      ReturnTop(t, TopPc(t).reply);
    }
  }

  lemma ReturnTop(t: Task, reply: Reply)
    requires |t.frames| >= 2 && Nested(t.frames)
    ensures Return(t, reply).frames != []
    ensures TopPc(Return(t, reply)).InnerStore? || TopPc(Return(t, reply)).Unlock?
            || TopPc(Return(t, reply)) == Finished(Failed)
  {
  }

  /** A caller that found the token due may assume that every renewal is old. */
  lemma DueMeansOld(lease: nat, s: State)
    requires SharingInv(lease, s) && s.token.Some? && NeedsRenewal(s.token.value, s.now)
    ensures RenewalsAreOld(s.log, lease, s.now)
  {
  }

  lemma StepKeepsSharing(c: Config, lease: nat, s: State, id: nat)
    requires LockInv(s) && SharingInv(lease, s)
    requires id in s.tasks && Local(c, Observe(s), id, s.tasks[id]).Some?
    requires LeasesAtLeast(Perform(s, id, Local(c, Observe(s), id, s.tasks[id]).value).log, lease)
    ensures SharingInv(lease, Perform(s, id, Local(c, Observe(s), id, s.tasks[id]).value))
  {
    var e := Local(c, Observe(s), id, s.tasks[id]).value;
    var s' := Perform(s, id, e);
    LocalEvents(c, Observe(s), id, s.tasks[id]);
    forall j | j in s'.tasks && Ready(s'.tasks[j])
      ensures RenewalsAreOld(s'.log, lease, s'.now)
    {
      if j == id {
        DueMeansOld(lease, s);
      } else {
        ReadyHolds(s.tasks[j]);
      }
      if e.event.Some? && IsRenewal(e.event.value) {
        StoringHolds(s.tasks[id]);
        if j != id {
          Exclusive(s, id, j);
        }
      }
    }
    if e.event.Some? {
      assert s'.log[|s.log|] == e.event.value;
    }
  }

  lemma ReadyHolds(t: Task)
    requires Ready(t)
    ensures Held(t.frames) != {}
  {
    assert |t.frames| - 1 in Held(t.frames);
  }

  lemma StoringHolds(t: Task)
    requires t.frames != [] && TopPc(t).RenewStore?
    ensures Held(t.frames) != {}
  {
    assert |t.frames| - 1 in Held(t.frames);
  }

  lemma NextKeepsSharing(c: Config, lease: nat, s: State, a: Action)
    requires LockInv(s) && SharingInv(lease, s) && Next(c, s, a).Some?
    requires LeasesAtLeast(Next(c, s, a).value.log, lease)
    ensures SharingInv(lease, Next(c, s, a).value)
  {
    match a
    case Step(id) => StepKeepsSharing(c, lease, s, id);
    case Respond(id, reply) =>
      assert !Ready(Receive(c, s.tasks[id], reply).value);
    case _ =>
  }

  lemma {:induction false} RunKeepsSharing(c: Config, lease: nat, init: Option<string>, run: seq<Action>)
    requires Run(c, Init(init), run).Some?
    requires LeasesAtLeast(Run(c, Init(init), run).value.log, lease)
    ensures SharingInv(lease, Run(c, Init(init), run).value)
  {
    if run != [] {
      var before := run[..|run| - 1];
      var s := Run(c, Init(init), before).value;
      LogGrows(c, s, run[|run| - 1]);
      RunKeepsSharing(c, lease, init, before);
      RunKeepsLock(c, init, before);
      NextKeepsSharing(c, lease, s, run[|run| - 1]);
    }
  }

  /**
   * After a locked renewal has been stored, the next locked renewal starts four fifths of a
   * lease later or more, in every run and for every pair of such events.
   */
  lemma RenewalsAreSpaced(c: Config, lease: nat, init: Option<string>, run: seq<Action>, k: nat, m: nat)
    requires Run(c, Init(init), run).Some?
    requires var log := Run(c, Init(init), run).value.log;
             && LeasesAtLeast(log, lease)
             && k < m < |log| && IsRenewal(log[k]) && IsRenewSend(log[m])
    ensures var log := Run(c, Init(init), run).value.log;
            5 * log[m].at >= 5 * log[k].at + 4 * lease
  {
    RunKeepsSharing(c, lease, init, run);
  }

  /**
   * Callers that queue up behind a renewal share it: until four fifths of a lease have passed
   * since it was stored, whoever gets the lock leaves again without a request.
   */
  lemma QueuedCallersShare(c: Config, lease: nat, init: Option<string>, run: seq<Action>, k: nat, id: nat)
    requires Run(c, Init(init), run).Some?
    requires var s := Run(c, Init(init), run).value;
             && LeasesAtLeast(s.log, lease)
             && k < |s.log| && IsRenewal(s.log[k]) && 5 * s.now < 5 * s.log[k].at + 4 * lease
             && id in s.tasks && s.tasks[id].frames != [] && TopPc(s.tasks[id]).Recheck?
    ensures var s := Run(c, Init(init), run).value;
            && Next(c, s, Step(id)).Some?
            && TopPc(Next(c, s, Step(id)).value.tasks[id]) == Unlock(true)
            && Next(c, s, Step(id)).value.log == s.log
  {
    RunKeepsSharing(c, lease, init, run);
    var s := Run(c, Init(init), run).value;
    if s.token.Some? && NeedsRenewal(s.token.value, s.now) {
      DueMeansOld(lease, s);
    }
  }

  /** In every run the expiry of the stored token is its write time plus its positive lease. */
  lemma ExpiryOverRuns(c: Config, init: Option<string>, run: seq<Action>)
    requires Run(c, Init(init), run).Some?
    ensures ExpiryIsWritePlusLease(Run(c, Init(init), run).value)
  {
    RunKeepsSharing(c, 0, init, run);
  }
}
