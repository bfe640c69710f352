/** What every step of the worker protocol keeps. */
module Invariant {
  import opened Fibers
  import opened RunQueue
  import opened Protocol

  ghost predicate WellFormed(e: Entry) {
    e.fiber.Some? != e.cb.Some?
  }

  /** The queue and the history `place` agree; queued fibers wait, queued callbacks have no fiber yet. */
  ghost predicate QueueInv(s: Sys) {
    && (forall i :: 0 <= i < |s.queue| ==> QueuedEntry(s, s.queue[i]))
    && (forall i, j :: 0 <= i < j < |s.queue| ==> TaskOf(s.queue[i]) != TaskOf(s.queue[j]))
    && (forall t :: t in s.place && s.place[t] == Queued ==> InQueue(s, t))
  }

  ghost predicate QueuedEntry(s: Sys, e: Entry) {
    var t := TaskOf(e);
    && WellFormed(e)
    && t in s.place && s.place[t] == Queued
    && (if e.fiber.Some? then t in s.fibers && s.fibers[t] in {Init, Hold, Ready} else t !in s.fibers)
  }

  /** The workers and `place` agree, and a held fiber's state fits where its worker is. */
  ghost predicate WorkerInv(s: Sys) {
    && (forall w :: w in s.workers && Holding(s.workers[w].pc) ==> HeldEntry(s, w, s.workers[w].pc))
    && (forall t :: t in s.place && s.place[t].Held? ==> HeldBy(s, s.place[t].w, t))
  }

  ghost predicate HeldEntry(s: Sys, w: Thread, pc: Pc)
    requires Holding(pc)
  {
    var t := TaskOf(pc.e);
    && WellFormed(pc.e)
    && t in s.place && s.place[t] == Held(w)
    && match pc
       case Taken(e) => if e.fiber.Some? then t in s.fibers && s.fibers[t] == Ready else t !in s.fibers
       case Running(e) => e.fiber.Some? && t in s.fibers && s.fibers[t] == Exec
       case _ => pc.e.fiber.Some? && t in s.fibers && s.fibers[t] in {Ready, Hold, Exec, Term, Except}
  }

  /** Tasks at rest: parked ones hold, finished ones are terminal, never-submitted fibers are new. */
  ghost predicate RestInv(s: Sys) {
    forall t :: AtRest(s, t)
  }

  ghost predicate AtRest(s: Sys, t: Task) {
    && (t in s.place && s.place[t] == Parked ==> t in s.fibers && s.fibers[t] == Hold)
    && (t in s.place && s.place[t] == Finished ==> t in s.fibers && Terminal(s.fibers[t]))
    && (t in s.fibers && t !in s.place ==> s.fibers[t] == Init)
  }

  ghost function CountedWorkers(s: Sys): set<Thread> {
    set w | w in s.workers && Counted(s.workers[w].pc)
  }

  ghost function IdleWorkers(s: Sys): set<Thread> {
    set w | w in s.workers && (s.workers[w].pc.Idling? || s.workers[w].pc.IdleBack?)
  }

  ghost predicate CountInv(s: Sys) {
    s.active == |CountedWorkers(s)| && s.idling == |IdleWorkers(s)|
  }

  /** A retained idle fiber is neither running nor finished unless it is in use. */
  ghost predicate IdleInv(s: Sys) {
    forall w :: w in s.workers ==> IdleFits(s.workers[w])
  }

  ghost predicate IdleFits(k: Worker) {
    match k.pc
    case Idling => k.idle == Some(Exec)
    case IdleBack => k.idle.Some? && k.idle.value in {Ready, Hold, Exec, Term, Except}
    case _ => k.idle in {None, Some(Init), Some(Hold), Some(Ready)}
  }

  ghost predicate StartsInv(s: Sys) {
    && s.unentered <= s.fibers.Keys
    && (forall i, j :: 0 <= i < j < |s.starts| ==> s.starts[i] != s.starts[j])
    && (forall i :: 0 <= i < |s.starts| ==> s.starts[i] in s.fibers && s.starts[i] !in s.unentered)
  }

  ghost predicate Inv(s: Sys) {
    s.ok && QueueInv(s) && WorkerInv(s) && RestInv(s) && CountInv(s) && IdleInv(s) && StartsInv(s)
  }

  lemma StartHolds(s: Sys)
    requires Start(s)
    ensures Inv(s)
  {
    assert CountedWorkers(s) == {} && IdleWorkers(s) == {};
  }

  lemma OneMember(a: set<Thread>, b: set<Thread>, w: Thread)
    requires a - {w} == b - {w}
    ensures |b| - |a| == (if w in b then 1 else 0) - (if w in a then 1 else 0)
  {
    Without(a, w);
    Without(b, w);
  }

  lemma Without(a: set<Thread>, w: Thread)
    ensures |a| == |a - {w}| + (if w in a then 1 else 0)
  {
    if w in a {
      assert a == (a - {w}) + {w};
    } else {
      assert a == a - {w};
    }
  }

  /** Only worker `w` moved, and the counters moved with it. */
  lemma CountsFollow(s: Sys, s': Sys, w: Thread)
    requires CountInv(s) && w in s.workers && w in s'.workers && s'.workers == s.workers[w := s'.workers[w]]
    requires s'.active - s.active == (if w in CountedWorkers(s') then 1 else 0)
                                   - (if w in CountedWorkers(s) then 1 else 0)
    requires s'.idling - s.idling == (if w in IdleWorkers(s') then 1 else 0) - (if w in IdleWorkers(s) then 1 else 0)
    ensures CountInv(s')
  {
    assert CountedWorkers(s) - {w} == CountedWorkers(s') - {w};
    assert IdleWorkers(s) - {w} == IdleWorkers(s') - {w};
    OneMember(CountedWorkers(s), CountedWorkers(s'), w);
    OneMember(IdleWorkers(s), IdleWorkers(s'), w);
  }

  lemma CountsStay(s: Sys, s': Sys)
    requires CountInv(s) && s'.workers == s.workers && s'.active == s.active && s'.idling == s.idling
    ensures CountInv(s')
  {
    assert CountedWorkers(s') == CountedWorkers(s) && IdleWorkers(s') == IdleWorkers(s);
  }

  /** Nothing is recorded differently for task `u`. */
  ghost predicate SameTask(s: Sys, s': Sys, u: Task) {
    && (u in s'.place <==> u in s.place) && (u in s.place ==> s'.place[u] == s.place[u])
    && (u in s'.fibers <==> u in s.fibers) && (u in s.fibers ==> s'.fibers[u] == s.fibers[u])
  }

  ghost predicate OnlyTask(s: Sys, s': Sys, t: Task) {
    forall u :: u != t ==> SameTask(s, s', u)
  }

  ghost predicate IsQueued(s: Sys, t: Task) {
    t in s.place && s.place[t] == Queued
  }

  /** A task that is not queued changed; the queue did not. */
  lemma QueueFollows(s: Sys, s': Sys, t: Task)
    requires QueueInv(s) && s'.queue == s.queue && OnlyTask(s, s', t)
    requires !IsQueued(s, t) && !IsQueued(s', t)
    ensures QueueInv(s')
  {
    forall i | 0 <= i < |s.queue|
      ensures QueuedEntry(s', s.queue[i])
    {
      assert QueuedEntry(s, s.queue[i]);
      assert SameTask(s, s', TaskOf(s.queue[i]));
    }
    forall u | IsQueued(s', u)
      ensures InQueue(s', u)
    {
      assert SameTask(s, s', u);
      assert InQueue(s, u);
    }
  }

  /** Worker `w` and task `t` changed; no other worker held `t`. */
  lemma WorkersFollow(s: Sys, s': Sys, w: Thread, t: Task)
    requires WorkerInv(s) && OnlyTask(s, s', t)
    requires w in s.workers && w in s'.workers && s'.workers == s.workers[w := s'.workers[w]]
    requires t in s.place && s.place[t].Held? ==> s.place[t].w == w
    requires Holding(s.workers[w].pc) ==> TaskOf(s.workers[w].pc.e) == t
    requires Holding(s'.workers[w].pc) ==> HeldEntry(s', w, s'.workers[w].pc) && TaskOf(s'.workers[w].pc.e) == t
    requires t in s'.place && s'.place[t].Held? ==> s'.place[t] == Held(w) && Holding(s'.workers[w].pc)
    ensures WorkerInv(s')
  {
    forall v | v in s'.workers && Holding(s'.workers[v].pc)
      ensures HeldEntry(s', v, s'.workers[v].pc)
    {
      if v != w {
        assert HeldEntry(s, v, s.workers[v].pc);
        assert SameTask(s, s', TaskOf(s.workers[v].pc.e));
      }
    }
    forall u | u in s'.place && s'.place[u].Held?
      ensures HeldBy(s', s'.place[u].w, u)
    {
      if u != t {
        assert SameTask(s, s', u);
        assert HeldBy(s, s.place[u].w, u);
      }
    }
  }

  /** Task `t` changed and no worker is concerned with it. */
  lemma WorkersStay(s: Sys, s': Sys, t: Task)
    requires WorkerInv(s) && OnlyTask(s, s', t) && s'.workers == s.workers
    requires t in s.place ==> !s.place[t].Held?
    requires t in s'.place ==> !s'.place[t].Held?
    ensures WorkerInv(s')
  {
    forall v | v in s'.workers && Holding(s'.workers[v].pc)
      ensures HeldEntry(s', v, s'.workers[v].pc)
    {
      assert HeldEntry(s, v, s.workers[v].pc);
      assert SameTask(s, s', TaskOf(s.workers[v].pc.e));
    }
    forall u | u in s'.place && s'.place[u].Held?
      ensures HeldBy(s', s'.place[u].w, u)
    {
      assert SameTask(s, s', u);
      assert HeldBy(s, s.place[u].w, u);
    }
  }

  lemma RestFollows(s: Sys, s': Sys, t: Task)
    requires RestInv(s) && OnlyTask(s, s', t) && AtRest(s', t)
    ensures RestInv(s')
  {
    forall u ensures AtRest(s', u) {
      assert AtRest(s, u);
      assert u != t ==> SameTask(s, s', u);
    }
  }

  lemma CreateKeeps(skip: PinTest, s: Sys, t: Task)
    requires Inv(s) && Enabled(s, CreateFiber(t))
    ensures Inv(Next(skip, s, CreateFiber(t)))
  {
    var s' := Next(skip, s, CreateFiber(t));
    CountsStay(s, s');
    QueueFollows(s, s', t);
    WorkersStay(s, s', t);
    RestFollows(s, s', t);
  }

  ghost predicate Enqueueable(s: Sys, e: Entry) {
    var t := TaskOf(e);
    && WellFormed(e)
    && (t in s.place ==> s.place[t] == Parked)
    && if e.fiber.Some? then t in s.fibers && s.fibers[t] in {Init, Hold, Ready} else t !in s.fibers
  }

  /** Appending an entry for a task that is not queued. */
  lemma EnqueueKeepsQueue(s: Sys, e: Entry)
    requires QueueInv(s) && !IsQueued(s, TaskOf(e)) && WellFormed(e)
    requires if e.fiber.Some? then TaskOf(e) in s.fibers && s.fibers[TaskOf(e)] in {Init, Hold, Ready}
             else TaskOf(e) !in s.fibers
    ensures QueueInv(Enqueue(s, e))
  {
    var s' := Enqueue(s, e);
    assert s'.queue[|s.queue|] == e;
    forall i | 0 <= i < |s.queue|
      ensures s'.queue[i] == s.queue[i] && TaskOf(s.queue[i]) != TaskOf(e) && QueuedEntry(s', s.queue[i])
    {
      assert QueuedEntry(s, s.queue[i]);
    }
    forall u | IsQueued(s', u)
      ensures InQueue(s', u)
    {
      if u != TaskOf(e) {
        var i :| 0 <= i < |s.queue| && TaskOf(s.queue[i]) == u;
        assert s'.queue[i] == s.queue[i];
      }
    }
  }

  lemma EnqueueKeeps(s: Sys, e: Entry)
    requires Inv(s) && Enqueueable(s, e)
    ensures Inv(Enqueue(s, e))
  {
    var s' := Enqueue(s, e);
    EnqueueKeepsQueue(s, e);
    CountsStay(s, s');
    WorkersStay(s, s', TaskOf(e));
    RestFollows(s, s', TaskOf(e));
  }

  lemma SubmitKeeps(skip: PinTest, s: Sys, a: Step)
    requires Inv(s) && Enabled(s, a) && Allowed(s, a)
    requires a.SubmitFiber? || a.SubmitCallback? || a.SubmitNull?
    ensures Inv(Next(skip, s, a))
  {
    if a.SubmitFiber? {
      assert AtRest(s, a.t);
      assert a.t in s.place && s.place[a.t].Held? ==> HeldBy(s, s.place[a.t].w, a.t);
      EnqueueKeeps(s, Entry(Some(a.t), None, a.thread));
    } else if a.SubmitCallback? {
      EnqueueKeeps(s, Entry(None, Some(a.t), a.thread));
    }
  }

  /** A step that moves one worker between places where it holds nothing. */
  lemma MoveKeeps(s: Sys, s': Sys, w: Thread)
    requires Inv(s) && s'.ok
    requires w in s.workers && w in s'.workers && s'.workers == s.workers[w := s'.workers[w]]
    requires !Holding(s.workers[w].pc) && !Holding(s'.workers[w].pc)
    requires s'.queue == s.queue && s'.fibers == s.fibers && s'.place == s.place
    requires s'.unentered == s.unentered && s'.starts == s.starts
    requires IdleFits(s'.workers[w]) && s'.active == s.active
    requires s'.idling - s.idling == (if s'.workers[w].pc.Idling? || s'.workers[w].pc.IdleBack? then 1 else 0)
                                   - (if s.workers[w].pc.Idling? || s.workers[w].pc.IdleBack? then 1 else 0)
    ensures Inv(s')
  {
    CountsFollow(s, s', w);
    forall u ensures AtRest(s', u) { assert AtRest(s, u); }
    forall u | InQueue(s, u) ensures InQueue(s', u) {}
    forall u | u in s.place && s.place[u].Held? ensures HeldBy(s', s.place[u].w, u) {
      assert HeldBy(s, s.place[u].w, u);
    }
    forall v | v in s'.workers && Holding(s'.workers[v].pc) ensures HeldEntry(s', v, s'.workers[v].pc) {
      assert HeldEntry(s, v, s.workers[v].pc);
    }
    forall i | 0 <= i < |s.queue| ensures QueuedEntry(s', s.queue[i]) {
      assert QueuedEntry(s, s.queue[i]);
    }
  }

  lemma IdleStepKeeps(skip: PinTest, s: Sys, a: Step)
    requires Inv(s) && Enabled(s, a) && (a.IdleStop? || a.IdleSettle?)
    ensures Inv(Next(skip, s, a))
  {
    assert IdleFits(s.workers[a.w]);
    MoveKeeps(s, Next(skip, s, a), a.w);
  }

  lemma EnterLeaveKeeps(skip: PinTest, s: Sys, a: Step)
    requires Inv(s) && Enabled(s, a) && (a.CallRoot? || a.IdleSwapIn? || a.Leave?)
    ensures Inv(Next(skip, s, a))
  {
    assert IdleFits(s.workers[a.w]);
    MoveKeeps(s, Next(skip, s, a), a.w);
  }

  /** Every queue reachable under the invariant is one the scan handles without trouble. */
  lemma QueueIsHealthy(s: Sys)
    requires QueueInv(s)
    ensures Healthy(s.queue, s.fibers)
  {
    forall i | 0 <= i < |s.queue| ensures QueuedEntry(s, s.queue[i]) {}
    forall i, j | 0 <= i < j < |s.queue| && s.queue[i].fiber.Some?
      ensures s.queue[i].fiber != s.queue[j].fiber
    {
      assert TaskOf(s.queue[i]) != TaskOf(s.queue[j]);
    }
  }

  /** A step of worker `w` on the task `t` it holds. */
  lemma HolderKeeps(s: Sys, s': Sys, w: Thread, t: Task)
    requires Inv(s) && s'.ok && QueueInv(s') && StartsInv(s') && OnlyTask(s, s', t) && AtRest(s', t)
    requires HeldBy(s, w, t)
    requires w in s'.workers && s'.workers == s.workers[w := s'.workers[w]]
    requires s'.workers[w].idle == s.workers[w].idle && !s'.workers[w].pc.Idling? && !s'.workers[w].pc.IdleBack?
    requires Holding(s'.workers[w].pc) ==> HeldEntry(s', w, s'.workers[w].pc) && TaskOf(s'.workers[w].pc.e) == t
    requires t in s'.place && s'.place[t].Held? ==> s'.place[t] == Held(w) && Holding(s'.workers[w].pc)
    requires s'.idling == s.idling
    requires s'.active - s.active == (if Counted(s'.workers[w].pc) then 1 else 0)
                                   - (if Counted(s.workers[w].pc) then 1 else 0)
    ensures Inv(s')
  {
    assert HeldEntry(s, w, s.workers[w].pc);
    assert IdleFits(s.workers[w]);
    CountsFollow(s, s', w);
    WorkersFollow(s, s', w, t);
    RestFollows(s, s', t);
  }

  lemma BodyStopKeeps(skip: PinTest, s: Sys, w: Thread, how: Stop)
    requires Inv(s) && Enabled(s, BodyStop(w, how))
    ensures Inv(Next(skip, s, BodyStop(w, how)))
  {
    var s' := Next(skip, s, BodyStop(w, how));
    var t := TaskOf(s.workers[w].pc.e);
    assert HeldEntry(s, w, s.workers[w].pc);
    QueueFollows(s, s', t);
    HolderKeeps(s, s', w, t);
  }

  lemma DecrementKeeps(skip: PinTest, s: Sys, w: Thread)
    requires Inv(s) && Enabled(s, Decrement(w))
    ensures Inv(Next(skip, s, Decrement(w)))
  {
    var s' := Next(skip, s, Decrement(w));
    var t := TaskOf(s.workers[w].pc.e);
    assert HeldEntry(s, w, s.workers[w].pc);
    QueueFollows(s, s', t);
    HolderKeeps(s, s', w, t);
  }

  lemma QueueSame(s: Sys, s': Sys)
    requires QueueInv(s) && s'.queue == s.queue && s'.place == s.place && s'.fibers == s.fibers
    ensures QueueInv(s')
  {
    forall u | InQueue(s, u) ensures InQueue(s', u) {}
    forall i | 0 <= i < |s.queue| ensures QueuedEntry(s', s.queue[i]) {
      assert QueuedEntry(s, s.queue[i]);
    }
  }

  lemma RequeueKeeps(s: Sys, w: Thread)
    requires Inv(s) && At(s, w) && s.workers[w].pc.Released?
    requires StateOf(s.fibers, TaskOf(s.workers[w].pc.e)) == Ready
    ensures Inv(Enqueue(Goto(s, w, Loop), s.workers[w].pc.e))
  {
    var e := s.workers[w].pc.e;
    assert HeldEntry(s, w, s.workers[w].pc);
    var s' := Enqueue(Goto(s, w, Loop), e);
    EnqueueKeepsQueue(s, e);
    QueueSame(Enqueue(s, e), s');
    HolderKeeps(s, s', w, TaskOf(e));
  }

  lemma SettleKeeps(s: Sys, w: Thread)
    requires Inv(s) && At(s, w) && s.workers[w].pc.Released?
    ensures Inv(DoSettle(s, w, s.workers[w].pc.e))
  {
    var t := TaskOf(s.workers[w].pc.e);
    assert HeldEntry(s, w, s.workers[w].pc);
    if s.fibers[t] == Ready {
      RequeueKeeps(s, w);
    } else {
      var ended := Terminal(s.fibers[t]);
      RestKeeps(s, w, t, if ended then s.fibers[t] else Hold, if ended then Finished else Parked);
      assert s.fibers[t := s.fibers[t]] == s.fibers;
    }
  }

  /** A worker lets go of a fiber that has finished or is parked. */
  lemma RestKeeps(s: Sys, w: Thread, t: Task, state: State, p: Place)
    requires Inv(s) && HeldBy(s, w, t) && s.workers[w].pc.Released?
    requires (p == Finished && Terminal(state)) || (p == Parked && state == Hold)
    ensures Inv(Goto(s, w, Loop).(fibers := s.fibers[t := state], place := s.place[t := p]))
  {
    assert HeldEntry(s, w, s.workers[w].pc);
    var s' := Goto(s, w, Loop).(fibers := s.fibers[t := state], place := s.place[t := p]);
    QueueFollows(s, s', t);
    HolderKeeps(s, s', w, t);
  }

  lemma MakeShape(s: Sys, e: Entry)
    ensures
      var s', t := MakeFor(s, e), TaskOf(e);
      && s'.ok == s.ok && s'.queue == s.queue && s'.place == s.place && s'.workers == s.workers
      && s'.active == s.active && s'.idling == s.idling && s'.starts == s.starts
      && s'.fibers == (if e.fiber.None? then s.fibers[t := Init] else s.fibers)
      && s'.unentered == (if e.fiber.None? then s.unentered + {t} else s.unentered)
  {}

  lemma EnterShape(s: Sys, t: Task)
    ensures
      var s' := Enter(s, t);
      && s'.ok == s.ok && s'.queue == s.queue && s'.place == s.place && s'.workers == s.workers
      && s'.active == s.active && s'.idling == s.idling && s'.fibers == s.fibers
      && s'.unentered == s.unentered - {t}
      && s'.starts == (if t in s.unentered then s.starts + [t] else s.starts)
  {}

  /** What dispatching does to an entry that carries work, field by field. */
  lemma DispatchShape(s: Sys, w: Thread, e: Entry)
    requires At(s, w) && Carries(e)
    ensures
      var s', t := DoDispatch(s, w, e), TaskOf(e);
      && s'.ok == s.ok && s'.queue == s.queue && s'.place == s.place && s'.fibers == s.fibers[t := Exec]
      && s'.active == s.active && s'.idling == s.idling
      && s'.workers == s.workers[w := Worker(Running(Entry(Some(t), None, e.thread)), s.workers[w].idle)]
      && s'.unentered == s.unentered - {t}
      && s'.starts == (if t in s.unentered || e.fiber.None? then s.starts + [t] else s.starts)
  {
    MakeShape(s, e);
    EnterShape(MakeFor(s, e), TaskOf(e));
    assert s.fibers[TaskOf(e) := Init][TaskOf(e) := Exec] == s.fibers[TaskOf(e) := Exec];
  }

  lemma DispatchKeeps(s: Sys, w: Thread)
    requires Inv(s) && At(s, w) && s.workers[w].pc.Taken?
    ensures Inv(DoDispatch(s, w, s.workers[w].pc.e))
  {
    assert HeldEntry(s, w, s.workers[w].pc);
    DispatchShape(s, w, s.workers[w].pc.e);
    EnterKeeps(s, DoDispatch(s, w, s.workers[w].pc.e), w, TaskOf(s.workers[w].pc.e));
  }

  lemma EnterKeeps(s: Sys, s': Sys, w: Thread, t: Task)
    requires Inv(s) && HeldBy(s, w, t) && s.workers[w].pc.Taken?
    requires s'.ok && s'.queue == s.queue && s'.place == s.place && s'.fibers == s.fibers[t := Exec]
    requires s'.active == s.active && s'.idling == s.idling
    requires
      var running := Running(Entry(Some(t), None, s.workers[w].pc.e.thread));
      s'.workers == s.workers[w := Worker(running, s.workers[w].idle)]
    requires s'.unentered == s.unentered - {t}
    requires s'.starts == if t in s.unentered || t !in s.fibers then s.starts + [t] else s.starts
    ensures Inv(s')
  {
    assert HeldEntry(s, w, s.workers[w].pc);
    QueueFollows(s, s', t);
    StartsFollow(s, s', t);
    HolderKeeps(s, s', w, t);
  }

  lemma StartsFollow(s: Sys, s': Sys, t: Task)
    requires StartsInv(s)
    requires s'.fibers.Keys == s.fibers.Keys + {t}
    requires s'.unentered == s.unentered - {t}
    requires s'.starts == if t in s.unentered || t !in s.fibers then s.starts + [t] else s.starts
    ensures StartsInv(s')
  {}

  /** Promoting waiting fibers of the queue disturbs nothing. */
  lemma PromotionKeeps(skip: PinTest, s: Sys, w: Thread, hi: nat, st: States)
    requires Inv(s) && hi <= |s.queue| && Promoted(skip, w, s.queue, 0, hi, s.fibers, st)
    ensures Inv(s.(fibers := st))
  {
    var s' := s.(fibers := st);
    forall f | f in st && st[f] != s.fibers[f]
      ensures IsQueued(s, f) && st[f] == Ready
    {
      var j :| 0 <= j < hi && Waits(skip, w, s.queue[j], s.fibers) && s.queue[j].fiber == Some(f);
      assert QueuedEntry(s, s.queue[j]);
    }
    forall i | 0 <= i < |s.queue| ensures QueuedEntry(s', s.queue[i]) {
      assert QueuedEntry(s, s.queue[i]);
    }
    forall u | InQueue(s, u) ensures InQueue(s', u) {}
    forall v | v in s.workers && Holding(s.workers[v].pc) ensures HeldEntry(s', v, s.workers[v].pc) {
      assert HeldEntry(s, v, s.workers[v].pc);
    }
    forall u | u in s.place && s.place[u].Held? ensures HeldBy(s', s.place[u].w, u) {
      assert HeldBy(s, s.place[u].w, u);
    }
    forall u ensures AtRest(s', u) { assert AtRest(s, u); }
    CountsStay(s, s');
  }

  /** How the entries that stay are numbered once entry `k` is gone. */
  function Skip(k: nat, i: nat): nat {
    if i < k then i else i + 1
  }

  lemma RemovedAt(q: seq<Entry>, k: nat)
    requires k < |q|
    ensures |RemoveAt(q, k)| == |q| - 1
    ensures forall i :: 0 <= i < |q| - 1 ==> RemoveAt(q, k)[i] == q[Skip(k, i)]
  {}

  /** Taking entry `k` out of the queue. */
  lemma TakeKeepsQueue(s: Sys, w: Thread, k: nat)
    requires QueueInv(s) && k < |s.queue|
    ensures QueueInv(s.(queue := RemoveAt(s.queue, k), place := s.place[TaskOf(s.queue[k]) := Held(w)]))
  {
    var t := TaskOf(s.queue[k]);
    var s' := s.(queue := RemoveAt(s.queue, k), place := s.place[t := Held(w)]);
    RemovedAt(s.queue, k);
    forall i | 0 <= i < |s'.queue| ensures QueuedEntry(s', s'.queue[i]) {
      assert QueuedEntry(s, s.queue[Skip(k, i)]);
      assert TaskOf(s.queue[Skip(k, i)]) != t;
    }
    forall u | IsQueued(s', u) ensures InQueue(s', u) {
      var i :| 0 <= i < |s.queue| && TaskOf(s.queue[i]) == u;
      var i' := if i < k then i else i - 1;
      assert s'.queue[i'] == s.queue[Skip(k, i')];
    }
  }

  lemma TakeKeeps(s: Sys, w: Thread, k: nat)
    requires Inv(s) && k < |s.queue| && w in s.workers && s.workers[w].pc == Loop
    requires s.queue[k].fiber.Some? ==> StateOf(s.fibers, s.queue[k].fiber.value) == Ready
    ensures Inv(Goto(s.(queue := RemoveAt(s.queue, k), active := s.active + 1,
                        place := s.place[TaskOf(s.queue[k]) := Held(w)]), w, Taken(s.queue[k])))
  {
    var e := s.queue[k];
    var t := TaskOf(e);
    var mid := s.(queue := RemoveAt(s.queue, k), place := s.place[t := Held(w)]);
    var s' := Goto(mid.(active := s.active + 1), w, Taken(e));
    assert QueuedEntry(s, e) && IdleFits(s.workers[w]);
    TakeKeepsQueue(s, w, k);
    QueueSame(mid, s');
    CountsFollow(s, s', w);
    WorkersFollow(s, s', w, t);
    RestFollows(s, s', t);
  }

  lemma EmptyKeeps(s: Sys, w: Thread)
    requires Inv(s) && w in s.workers && s.workers[w].pc == Loop
    ensures Inv(Goto(s, w, Empty))
  {
    assert IdleFits(s.workers[w]);
    MoveKeeps(s, Goto(s, w, Empty), w);
  }

  lemma ScanKeeps(skip: PinTest, s: Sys, w: Thread, r: ScanResult)
    requires Inv(s) && At(s, w) && s.workers[w].pc.Loop? && Healthy(s.queue, s.fibers)
    requires ScanOutcome(skip, w, s.queue, 0, s.fibers, r)
    ensures Inv(Absorb(s, w, r))
  {
    match r
    case Nothing(q, st) =>
      PromotionKeeps(skip, s, w, |q|, st);
      EmptyKeeps(s.(fibers := st), w);
    case Took(k, e, q, st) =>
      TookKeeps(skip, s, w, k, st);
      assert QueuedEntry(s, s.queue[k]);
  }

  lemma TookKeeps(skip: PinTest, s: Sys, w: Thread, k: nat, st: States)
    requires Inv(s) && w in s.workers && s.workers[w].pc == Loop && Healthy(s.queue, s.fibers)
    requires k < |s.queue| && Eligible(skip, w, s.queue[k], s.fibers)
    requires Promoted(skip, w, s.queue, 0, k, s.fibers, st)
    ensures Inv(Goto(s.(queue := RemoveAt(s.queue, k), fibers := st, active := s.active + 1,
                        place := s.place[TaskOf(s.queue[k]) := Held(w)]), w, Taken(s.queue[k])))
  {
    PromotionKeeps(skip, s, w, k, st);
    TakenIsReady(skip, s, w, k, st);
    TakeKeeps(s.(fibers := st), w, k);
  }

  lemma TakenIsReady(skip: PinTest, s: Sys, w: Thread, k: nat, st: States)
    requires Healthy(s.queue, s.fibers) && k < |s.queue| && Eligible(skip, w, s.queue[k], s.fibers)
    requires Promoted(skip, w, s.queue, 0, k, s.fibers, st)
    ensures s.queue[k].fiber.Some? ==> StateOf(st, s.queue[k].fiber.value) == Ready
  {}

  lemma StepKeeps(skip: PinTest, s: Sys, a: Step)
    requires Inv(s) && Enabled(s, a) && Allowed(s, a)
    ensures Inv(Next(skip, s, a))
  {
    match a
    case CreateFiber(t) => CreateKeeps(skip, s, t);
    case SubmitFiber(_, _) => SubmitKeeps(skip, s, a);
    case SubmitCallback(_, _) => SubmitKeeps(skip, s, a);
    case SubmitNull(_) => SubmitKeeps(skip, s, a);
    case SetFlags(_, _) => FlagsKeep(skip, s, a);
    case Scan(w) =>
      QueueIsHealthy(s);
      ScanIsExact(skip, w, s.queue, 0, s.fibers);
      ScanKeeps(skip, s, w, ScanFrom(skip, w, s.queue, 0, s.fibers));
    case Dispatch(w) => DispatchKeeps(s, w);
    case BodyStop(w, how) => BodyStopKeeps(skip, s, w, how);
    case Decrement(w) => DecrementKeeps(skip, s, w);
    case Settle(w) => SettleKeeps(s, w);
    case CallRoot(_) => EnterLeaveKeeps(skip, s, a);
    case Leave(_) => EnterLeaveKeeps(skip, s, a);
    case IdleSwapIn(_) => EnterLeaveKeeps(skip, s, a);
    case _ => IdleStepKeeps(skip, s, a);
  }

  lemma FlagsKeep(skip: PinTest, s: Sys, a: Step)
    requires Inv(s) && a.SetFlags?
    ensures Inv(Next(skip, s, a))
  {
    var s' := Next(skip, s, a);
    QueueSame(s, s');
    CountsStay(s, s');
    forall u ensures AtRest(s', u) { assert AtRest(s, u); }
    forall v | v in s.workers && Holding(s.workers[v].pc) ensures HeldEntry(s', v, s.workers[v].pc) {
      assert HeldEntry(s, v, s.workers[v].pc);
    }
    forall u | u in s.place && s.place[u].Held? ensures HeldBy(s', s.place[u].w, u) {
      assert HeldBy(s, s.place[u].w, u);
    }
  }

  /** The invariant holds after every run. */
  lemma {:induction false} RunKeeps(skip: PinTest, s: Sys, steps: seq<Step>)
    requires Inv(s) && Run(skip, s, steps)
    ensures Inv(After(skip, s, steps))
    decreases |steps|
  {
    if steps != [] {
      StepKeeps(skip, s, steps[0]);
      RunKeeps(skip, Next(skip, s, steps[0]), steps[1..]);
    }
  }
}
