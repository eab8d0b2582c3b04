/** The order of the announcements: when it is the order of the stores, and how it gets lost. */
module LifecycleAnnouncements {
  import opened Common
  import opened TokenStore
  import opened Lifecycle
  import opened LifecycleSafety
  import opened LifecycleProgress
  import opened LifecycleTokens

  /** Who stored which auth value, in order. */
  function Stores(log: seq<Event>): seq<(nat, AuthInfo)> {
    if log == [] then [] else Stores(log[..|log| - 1]) + StoreOf(log[|log| - 1])
  }

  function StoreOf(e: Event): seq<(nat, AuthInfo)> {
    match e case Stored(id, _, auth, _) => [(id, auth)] case _ => []
  }

  /** For whom `on_token_changed` was called with which value, in order. */
  function Announcements(log: seq<Event>): seq<(nat, AuthInfo)> {
    if log == [] then [] else Announcements(log[..|log| - 1]) + AnnouncementOf(log[|log| - 1])
  }

  function AnnouncementOf(e: Event): seq<(nat, AuthInfo)> {
    match e case Notified(id, auth) => [(id, auth)] case _ => []
  }

  lemma LogsGrow(log: seq<Event>, e: Event)
    ensures Stores(log + [e]) == Stores(log) + StoreOf(e)
    ensures Announcements(log + [e]) == Announcements(log) + AnnouncementOf(e)
  {
    assert (log + [e])[..|log|] == log;
  }

  /** The value that a caller has stored and not announced yet. */
  function PendingOf(s: State, id: nat): Option<AuthInfo> {
    if id in s.tasks then Pending(s.tasks[id]) else None
  }

  predicate Outstanding(s: State, id: nat) {
    PendingOf(s, id).Some?
  }

  /** The action is a store. */
  predicate IsStore(s: State, a: Action) {
    a.Step? && a.id in s.tasks && s.tasks[a.id].frames != [] && Writes(TopPc(s.tasks[a.id]))
  }

  // --- What an action does to them ---

  lemma PerformLogs(s: State, id: nat, e: Effect)
    requires id in s.tasks
    ensures var log := Perform(s, id, e).log;
            match e.event
            case None => Stores(log) == Stores(s.log) && Announcements(log) == Announcements(s.log)
            case Some(ev) => && Stores(log) == Stores(s.log) + StoreOf(ev)
                             && Announcements(log) == Announcements(s.log) + AnnouncementOf(ev)
    ensures forall j :: PendingOf(Perform(s, id, e), j) == if j == id then Pending(e.task) else PendingOf(s, j)
  {
    if e.event.Some? {
      LogsGrow(s.log, e.event.value);
    } else {
      assert s.log + [] == s.log;
    }
  }

  lemma StoreEvent(c: Config, v: View, id: nat, t: Task)
    requires t.frames != [] && Writes(TopPc(t))
    ensures var e := Local(c, v, id, t);
            && e.Some? && e.value.event.Some? && e.value.event.value.Stored?
            && e.value.event.value.auth == TopPc(t).auth && e.value.write == Some(FromAuth(TopPc(t).auth, v.now))
            && e.value.task.frames != [] && Pending(e.value.task) == Some(TopPc(t).auth)
  {
  }

  lemma OtherEvent(c: Config, v: View, id: nat, t: Task)
    requires Nested(t.frames) && Local(c, v, id, t).Some? && !Writes(TopPc(t))
    ensures var e := Local(c, v, id, t).value;
            && e.write.None? && Pending(e.task) == None
            && match e.event
               case None => Pending(t) == None
               case Some(ev) =>
                 StoreOf(ev) == []
                 && AnnouncementOf(ev) == match Pending(t) case None => [] case Some(auth) => [(id, auth)]
  {
    LocalPending(c, v, id, t);
  }

  /** What a store changes. */
  lemma StoreStep(c: Config, s: State, id: nat)
    requires LockInv(s) && IsStore(s, Step(id))
    ensures Next(c, s, Step(id)).Some? && !Outstanding(s, id)
    ensures var s', auth := Next(c, s, Step(id)).value, TopPc(s.tasks[id]).auth;
            && Stores(s'.log) == Stores(s.log) + [(id, auth)] && Announcements(s'.log) == Announcements(s.log)
            && (forall j :: PendingOf(s', j) == if j == id then Some(auth) else PendingOf(s, j))
            && s'.token == Some(FromAuth(auth, s.now)) && s'.now == s.now
  {
    StoreEvent(c, Observe(s), id, s.tasks[id]);
    LocalPending(c, Observe(s), id, s.tasks[id]);
    PerformLogs(s, id, Local(c, Observe(s), id, s.tasks[id]).value);
  }

  /** What any other step changes. */
  lemma OtherStep(c: Config, s: State, id: nat)
    requires LockInv(s) && !IsStore(s, Step(id)) && Next(c, s, Step(id)).Some?
    ensures var s' := Next(c, s, Step(id)).value;
            && Stores(s'.log) == Stores(s.log)
            && Announcements(s'.log) == Announcements(s.log)
                 + (match PendingOf(s, id) case None => [] case Some(auth) => [(id, auth)])
            && (forall j :: PendingOf(s', j) == if j == id then None else PendingOf(s, j))
            && s'.token == s.token
  {
    OtherEvent(c, Observe(s), id, s.tasks[id]);
    PerformLogs(s, id, Local(c, Observe(s), id, s.tasks[id]).value);
  }

  lemma OtherActionLogs(c: Config, s: State, a: Action)
    requires !a.Step? && Next(c, s, a).Some?
    ensures var log := Next(c, s, a).value.log;
            Stores(log) == Stores(s.log) && Announcements(log) == Announcements(s.log)
  {
    if a.SetToken? {
      LogsGrow(s.log, TokenSet(a.value, s.now));
    }
  }

  lemma OtherAction(c: Config, s: State, a: Action)
    requires !a.Step? && Next(c, s, a).Some?
    ensures forall j :: PendingOf(Next(c, s, a).value, j) == PendingOf(s, j)
  {
  }

  // --- Keeping step ---

  /** Nobody stores while an announcement is outstanding. */
  ghost predicate Orderly(c: Config, init: Option<string>, run: seq<Action>)
    requires Run(c, Init(init), run).Some?
  {
    run == []
    || (var before, a := run[..|run| - 1], run[|run| - 1];
        var s := Run(c, Init(init), before).value;
        && Orderly(c, init, before)
        && (IsStore(s, a) ==> forall j :: !Outstanding(s, j)))
  }

  /** What was announced is what was stored, in order, but for the last store perhaps. */
  predicate InStep(s: State) {
    Announcements(s.log) <= Stores(s.log) && |Stores(s.log)| <= |Announcements(s.log)| + 1
  }

  /** So it is at every moment of the run. */
  ghost predicate AlwaysInStep(c: Config, init: Option<string>, run: seq<Action>)
    requires Run(c, Init(init), run).Some?
  {
    InStep(Run(c, Init(init), run).value) && (run == [] || AlwaysInStep(c, init, run[..|run| - 1]))
  }

  /** The one value that may be outstanding is the last one that was stored. */
  ghost predicate Tidy(s: State) {
    && (forall id :: Outstanding(s, id) ==>
          Stores(s.log) == Announcements(s.log) + [(id, PendingOf(s, id).value)])
    && ((forall id :: !Outstanding(s, id)) ==> Stores(s.log) == Announcements(s.log))
  }

  lemma TidyIsInStep(s: State)
    requires Tidy(s)
    ensures InStep(s)
  {
    if id :| Outstanding(s, id) {
    }
  }

  lemma OnlyOneOutstanding(s: State, i: nat, j: nat)
    requires Tidy(s) && Outstanding(s, i) && Outstanding(s, j)
    ensures i == j
  {
    var all := Stores(s.log);
    assert all[|all| - 1] == (i, PendingOf(s, i).value);
    assert all[|all| - 1] == (j, PendingOf(s, j).value);
  }

  lemma StoreIsTidy(c: Config, s: State, id: nat)
    requires LockInv(s) && Tidy(s) && IsStore(s, Step(id)) && forall j :: !Outstanding(s, j)
    ensures Next(c, s, Step(id)).Some? && Tidy(Next(c, s, Step(id)).value)
  {
    StoreStep(c, s, id);
    assert Outstanding(Next(c, s, Step(id)).value, id);
  }

  lemma OtherStepIsTidy(c: Config, s: State, id: nat)
    requires LockInv(s) && Tidy(s) && !IsStore(s, Step(id)) && Next(c, s, Step(id)).Some?
    ensures Tidy(Next(c, s, Step(id)).value)
  {
    var s' := Next(c, s, Step(id)).value;
    OtherStep(c, s, id);
    if Outstanding(s, id) {
      forall j ensures !Outstanding(s', j) {
        if Outstanding(s, j) {
          OnlyOneOutstanding(s, id, j);
        }
      }
    } else {
      assert forall j :: Outstanding(s', j) <==> Outstanding(s, j);
    }
  }

  lemma OtherActionIsTidy(c: Config, s: State, a: Action)
    requires Tidy(s) && !a.Step? && Next(c, s, a).Some?
    ensures Tidy(Next(c, s, a).value)
  {
    OtherAction(c, s, a);
    OtherActionLogs(c, s, a);
    assert forall j :: Outstanding(Next(c, s, a).value, j) <==> Outstanding(s, j);
  }

  lemma {:induction false} OrderlyIsTidy(c: Config, init: Option<string>, run: seq<Action>)
    requires Run(c, Init(init), run).Some? && Orderly(c, init, run)
    ensures Tidy(Run(c, Init(init), run).value)
  {
    if run != [] {
      var before, a := run[..|run| - 1], run[|run| - 1];
      var s := Run(c, Init(init), before).value;
      OrderlyIsTidy(c, init, before);
      RunKeepsLock(c, init, before);
      if !a.Step? {
        OtherActionIsTidy(c, s, a);
      } else if IsStore(s, a) {
        StoreIsTidy(c, s, a.id);
      } else {
        OtherStepIsTidy(c, s, a.id);
      }
    }
  }

  /** A store next to an outstanding announcement leaves two of them. */
  lemma DisorderIsSeen(c: Config, s: State, a: Action, j: nat)
    requires LockInv(s) && Tidy(s) && IsStore(s, a) && Outstanding(s, j)
    ensures Next(c, s, a).Some? && !InStep(Next(c, s, a).value)
  {
    StoreStep(c, s, a.id);
  }

  /**
   * In every run, announcements keep step with the stores at every moment, one behind at
   * most, exactly if nobody stores while an announcement is outstanding.
   */
  lemma {:induction false} InStepExactly(c: Config, init: Option<string>, run: seq<Action>)
    requires Run(c, Init(init), run).Some?
    ensures AlwaysInStep(c, init, run) <==> Orderly(c, init, run)
  {
    if run != [] {
      var before, a := run[..|run| - 1], run[|run| - 1];
      var s := Run(c, Init(init), before).value;
      InStepExactly(c, init, before);
      if Orderly(c, init, run) {
        OrderlyIsTidy(c, init, run);
        TidyIsInStep(Run(c, Init(init), run).value);
      } else if Orderly(c, init, before) {
        OrderlyIsTidy(c, init, before);
        RunKeepsLock(c, init, before);
        var j :| Outstanding(s, j);
        DisorderIsSeen(c, s, a, j);
      }
    }
  }

  // --- Overtaking ---

  lemma RunOneMore(c: Config, s0: State, run: seq<Action>, s: State, a: Action)
    requires Run(c, s0, run) == Some(s)
    ensures Run(c, s0, run + [a]) == Next(c, s, a)
  {
    assert (run + [a])[..|run|] == run;
  }

  /** An outstanding announcement can be made at once. */
  lemma AnnouncesAtOnce(c: Config, s: State, id: nat)
    requires Outstanding(s, id)
    ensures !IsStore(s, Step(id)) && Next(c, s, Step(id)).Some?
  {
  }

  /**
   * From every reachable state in which one caller has an announcement outstanding and another
   * one is about to store, three steps lead to a state in which the last announcement is not
   * that of the last store, which the token comes from.
   */
  lemma AnnouncementsCanBeOvertaken(c: Config, init: Option<string>, run: seq<Action>, i: nat, j: nat)
    returns (more: seq<Action>, s': State)
    requires Run(c, Init(init), run).Some?
    requires var s := Run(c, Init(init), run).value; Outstanding(s, i) && IsStore(s, Step(j))
    ensures i != j && |more| == 3 && Run(c, Init(init), run + more) == Some(s')
    ensures var s := Run(c, Init(init), run).value;
            var a, b := PendingOf(s, i).value, TopPc(s.tasks[j]).auth;
            && Stores(s'.log) == Stores(s.log) + [(j, b)]
            && Announcements(s'.log) == Announcements(s.log) + [(j, b)] + [(i, a)]
            && s'.token == Some(FromAuth(b, s.now))
  {
    var s0, s := Init(init), Run(c, Init(init), run).value;
    RunKeepsLock(c, init, run);
    StoreStep(c, s, j);
    var s1 := Next(c, s, Step(j)).value;
    RunOneMore(c, s0, run, s, Step(j));
    RunKeepsLock(c, init, run + [Step(j)]);
    AnnouncesAtOnce(c, s1, j);
    OtherStep(c, s1, j);
    var s2 := Next(c, s1, Step(j)).value;
    RunOneMore(c, s0, run + [Step(j)], s1, Step(j));
    RunKeepsLock(c, init, run + [Step(j)] + [Step(j)]);
    AnnouncesAtOnce(c, s2, i);
    OtherStep(c, s2, i);
    s' := Next(c, s2, Step(i)).value;
    RunOneMore(c, s0, run + [Step(j)] + [Step(j)], s2, Step(i));
    more := [Step(j), Step(j), Step(i)];
    assert run + more == run + [Step(j)] + [Step(j)] + [Step(i)];
  }
}
