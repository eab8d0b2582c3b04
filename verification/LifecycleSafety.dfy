/** Mutual exclusion, spacing of renewals and the clock of the token, over every run. */
module LifecycleSafety {
  import opened Common
  import opened Lifecycle

  // --- The renewal lock ---

  /** The activation is inside the arm that holds the renewal lock. */
  predicate Holds(pc: Pc) {
    match pc
    case Recheck(_) => true
    case RenewReady => true
    case RenewInFlight => true
    case RenewStore(_) => true
    case RenewNotify(_) => true
    case StartLogin(locked) => locked
    case LoginWait(locked) => locked
    case InnerStore(_, locked) => locked
    case InnerNotify(_, locked) => locked
    case OuterStore(_, locked) => locked
    case OuterNotify(_, locked) => locked
    case Unlock(_) => true
    case _ => false
  }

  /** The activations that hold the lock. */
  function Held(frames: seq<Frame>): set<nat> {
    set k: nat | k < |frames| && Holds(frames[k].pc)
  }

  /** Every activation but the innermost one waits for a login. */
  predicate Nested(frames: seq<Frame>) {
    forall k :: 0 <= k < |frames| ==> (frames[k].pc.LoginWait? <==> k < |frames| - 1)
  }

  function OwnedBy(s: State, id: nat): set<nat> {
    if s.lock.Some? && s.lock.value.task == id then {s.lock.value.frame} else {}
  }

  /** The lock is held by exactly the activation that it names. */
  predicate LockInv(s: State) {
    && (s.lock.Some? ==> s.lock.value.task in s.tasks)
    && forall id :: id in s.tasks ==> Nested(s.tasks[id].frames) && Held(s.tasks[id].frames) == OwnedBy(s, id)
  }

  lemma GotoHeld(t: Task, pc: Pc)
    requires t.frames != [] && Nested(t.frames) && !pc.LoginWait?
    ensures var top := |t.frames| - 1;
            && Nested(Goto(t, pc).frames)
            && (Holds(TopPc(t)) <==> top in Held(t.frames))
            && Held(Goto(t, pc).frames) == if Holds(pc) then Held(t.frames) + {top} else Held(t.frames) - {top}
  {
  }

  lemma PushHeld(t: Task, locked: bool, path: Bytes)
    requires t.frames != [] && Nested(t.frames) && TopPc(t) == StartLogin(locked)
    ensures var t' := Push(Goto(t, LoginWait(locked)), path);
            Nested(t'.frames) && Held(t'.frames) == Held(t.frames)
  {
  }

  lemma ReturnHeld(t: Task, reply: Reply)
    requires |t.frames| >= 2 && Nested(t.frames) && TopPc(t) == Finished(reply)
    ensures Nested(Return(t, reply).frames) && Held(Return(t, reply).frames) == Held(t.frames)
  {
    var outer := Pop(t);
    assert forall k :: 0 <= k < |outer.frames| ==> outer.frames[k] == t.frames[k];
    assert TopPc(outer).LoginWait?;
    assert Held(outer.frames) == Held(t.frames);
    var k := |outer.frames| - 1;
    var frames := Return(t, reply).frames;
    assert frames == outer.frames[k := outer.frames[k].(pc := frames[k].pc)];
    assert Holds(frames[k].pc) == Holds(outer.frames[k].pc);
  }

  /** The step starts or ends a nested activation. */
  predicate ChangesNesting(c: Config, t: Task) {
    t.frames != [] && (TopPc(t).Finished? || (TopPc(t).StartLogin? && c.loginPath.Some?))
  }

  /** All other steps move the innermost activation, and take or leave the section with the lock. */
  lemma LocalMoves(c: Config, v: View, id: nat, t: Task)
    requires Local(c, v, id, t).Some? && !ChangesNesting(c, t)
    ensures var e := Local(c, v, id, t).value;
            && e.task.frames != []
            && !TopPc(e.task).LoginWait?
            && e.task.frames == Goto(t, TopPc(e.task)).frames
            && match e.lock
               case Keep => Holds(TopPc(t)) <==> Holds(TopPc(e.task))
               case Acquire(frame) =>
                 v.lockFree && frame == |t.frames| - 1 && !Holds(TopPc(t)) && Holds(TopPc(e.task))
               case Release => Holds(TopPc(t)) && !Holds(TopPc(e.task))
  {
  }

  lemma LocalHeld(c: Config, v: View, id: nat, t: Task)
    requires Nested(t.frames) && Local(c, v, id, t).Some?
    ensures var e := Local(c, v, id, t).value;
            && Nested(e.task.frames)
            && match e.lock
               case Keep => Held(e.task.frames) == Held(t.frames)
               case Acquire(frame) => v.lockFree && Held(e.task.frames) == Held(t.frames) + {frame}
               case Release =>
                 |t.frames| - 1 in Held(t.frames) && Held(e.task.frames) == Held(t.frames) - {|t.frames| - 1}
  {
    if !ChangesNesting(c, t) {
      LocalMoves(c, v, id, t);
      GotoHeld(t, TopPc(Local(c, v, id, t).value.task));
    } else if TopPc(t).Finished? {
      ReturnHeld(t, TopPc(t).reply);
    } else {
      PushHeld(t, TopPc(t).locked, c.loginPath.value);
    }
  }

  lemma ReceiveHeld(c: Config, t: Task, reply: Reply)
    requires Nested(t.frames) && Receive(c, t, reply).Some?
    ensures var t' := Receive(c, t, reply).value; Nested(t'.frames) && Held(t'.frames) == Held(t.frames)
  {
  }

  lemma StepKeepsLock(c: Config, s: State, id: nat)
    requires LockInv(s) && Next(c, s, Step(id)).Some?
    ensures LockInv(Next(c, s, Step(id)).value)
  {
    var e := Local(c, Observe(s), id, s.tasks[id]).value;
    var s' := Perform(s, id, e);
    LocalHeld(c, Observe(s), id, s.tasks[id]);
    assert Held(s.tasks[id].frames) == OwnedBy(s, id);
    assert Held(e.task.frames) == OwnedBy(s', id);
    assert forall j :: j in s.tasks && j != id ==> s'.tasks[j] == s.tasks[j] && OwnedBy(s', j) == OwnedBy(s, j);
  }

  lemma NextKeepsLock(c: Config, s: State, a: Action)
    requires LockInv(s) && Next(c, s, a).Some?
    ensures LockInv(Next(c, s, a).value)
  {
    match a
    case Step(id) => StepKeepsLock(c, s, id);
    case Respond(id, reply) => ReceiveHeld(c, s.tasks[id], reply);
    case _ =>
  }

  lemma {:induction false} RunKeepsLock(c: Config, init: Option<string>, run: seq<Action>)
    requires Run(c, Init(init), run).Some?
    ensures LockInv(Run(c, Init(init), run).value)
  {
    if run != [] {
      var before := run[..|run| - 1];
      RunKeepsLock(c, init, before);
      NextKeepsLock(c, Run(c, Init(init), before).value, run[|run| - 1]);
    }
  }

  /** At most one activation of one caller is inside the locked section, whatever the auth method. */
  lemma MutualExclusion(c: Config, init: Option<string>, run: seq<Action>, i: nat, k: nat, j: nat, m: nat)
    requires Run(c, Init(init), run).Some?
    requires var s := Run(c, Init(init), run).value;
             && i in s.tasks && k in Held(s.tasks[i].frames)
             && j in s.tasks && m in Held(s.tasks[j].frames)
    ensures i == j && k == m
  {
    RunKeepsLock(c, init, run);
    var s := Run(c, Init(init), run).value;
    assert Held(s.tasks[i].frames) == OwnedBy(s, i) && Held(s.tasks[j].frames) == OwnedBy(s, j);
  }

  lemma Exclusive(s: State, i: nat, j: nat)
    requires LockInv(s) && i in s.tasks && j in s.tasks
    requires Held(s.tasks[i].frames) != {} && Held(s.tasks[j].frames) != {}
    ensures i == j
  {
  }
}
