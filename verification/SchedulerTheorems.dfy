/** The main results about Scheduler::run, for every interleaving of any number of workers. */
module SchedulerTheorems {
  import opened Fibers
  import opened RunQueue
  import opened Protocol
  import opened Invariant
  import opened AnySubmission

  // ---- One place per task ----

  ghost function Positions(s: Sys, t: Task): set<nat> {
    set i | 0 <= i < |s.queue| && TaskOf(s.queue[i]) == t
  }

  ghost function Holders(s: Sys, t: Task): set<Thread> {
    set w | w in s.workers && HeldBy(s, w, t)
  }

  /** Neither queued nor held, and parked in HOLD or finished. */
  ghost predicate Resting(s: Sys, t: Task) {
    && Positions(s, t) == {} && Holders(s, t) == {}
    && t in s.fibers && (s.fibers[t] == Hold || Terminal(s.fibers[t]))
  }

  /** Queued once and held by nobody, or held by one worker and not queued, or at rest. */
  ghost predicate OnePlace(s: Sys, t: Task) {
    || (|Positions(s, t)| == 1 && Holders(s, t) == {})
    || (Positions(s, t) == {} && |Holders(s, t)| == 1)
    || Resting(s, t)
  }

  lemma QueuedPosition(s: Sys, t: Task)
    requires QueueInv(s)
    ensures if IsQueued(s, t) then |Positions(s, t)| == 1 else Positions(s, t) == {}
  {
    if IsQueued(s, t) {
      assert InQueue(s, t);
      var i :| 0 <= i < |s.queue| && TaskOf(s.queue[i]) == t;
      assert Positions(s, t) == {i};
    } else {
      forall i | 0 <= i < |s.queue| ensures TaskOf(s.queue[i]) != t {
        assert QueuedEntry(s, s.queue[i]);
      }
    }
  }

  lemma HeldHolder(s: Sys, t: Task)
    requires WorkerInv(s)
    ensures if t in s.place && s.place[t].Held? then Holders(s, t) == {s.place[t].w} else Holders(s, t) == {}
  {
    forall w | w in s.workers && HeldBy(s, w, t) ensures t in s.place && s.place[t] == Held(w) {
      assert HeldEntry(s, w, s.workers[w].pc);
    }
    if t in s.place && s.place[t].Held? {
      assert HeldBy(s, s.place[t].w, t);
    }
  }

  /** No submitted task is lost, duplicated, or in the hands of two workers, whatever the pin test. */
  lemma EveryTaskInOnePlace(skip: PinTest, s0: Sys, steps: seq<Step>, t: Task)
    requires Start(s0) && Run(skip, s0, steps)
    requires t in After(skip, s0, steps).place
    ensures OnePlace(After(skip, s0, steps), t)
  {
    StartHolds(s0);
    RunKeeps(skip, s0, steps);
    PlacedOnce(After(skip, s0, steps), t);
  }

  lemma PlacedOnce(s: Sys, t: Task)
    requires Inv(s) && t in s.place
    ensures OnePlace(s, t)
    ensures Resting(s, t) <==> s.place[t] == Parked || s.place[t] == Finished
  {
    QueuedPosition(s, t);
    HeldHolder(s, t);
    assert AtRest(s, t);
  }

  // ---- Submission ----

  /** Every task has one place and no finished fiber is queued. */
  ghost predicate Safe(s: Sys) {
    && (forall t :: t in s.place ==> OnePlace(s, t))
    && (forall i :: 0 <= i < |s.queue| && s.queue[i].fiber.Some? ==>
          !Terminal(StateOf(s.fibers, s.queue[i].fiber.value)))
  }

  lemma InvIsSafe(s: Sys)
    requires Inv(s)
    ensures Safe(s)
  {
    forall t | t in s.place ensures OnePlace(s, t) { PlacedOnce(s, t); }
    forall i | 0 <= i < |s.queue| ensures QueuedEntry(s, s.queue[i]) {}
  }

  /** The condition on callers of schedule is exact: submitting a fiber keeps every task in one
      place and finished fibers out of the queue if and only if the fiber is unfinished and
      neither queued nor held. */
  lemma SubmitSafeIff(skip: PinTest, s: Sys, t: Task, thread: Thread)
    requires Inv(s) && Enabled(s, SubmitFiber(t, thread))
    ensures Safe(Next(skip, s, SubmitFiber(t, thread))) <==> Submittable(s, t)
  {
    var s' := Next(skip, s, SubmitFiber(t, thread));
    var n := |s.queue|;
    assert s'.queue[n] == Entry(Some(t), None, thread);
    assert n in Positions(s', t);
    if Submittable(s, t) {
      SubmitKeeps(skip, s, SubmitFiber(t, thread));
      InvIsSafe(s');
    } else if InQueue(s, t) {
      var i :| 0 <= i < |s.queue| && TaskOf(s.queue[i]) == t;
      assert s'.queue[i] == s.queue[i];
      TwoMembers(Positions(s', t), i, n);
      assert !OnePlace(s', t);
    } else if w :| w in s.workers && HeldBy(s, w, t) {
      assert w in Holders(s', t);
      assert !OnePlace(s', t);
    }
  }

  lemma TwoMembers(a: set<nat>, i: nat, j: nat)
    requires i in a && j in a && i != j
    ensures |a| >= 2
  {
    assert |{i, j}| == 2 && {i, j} <= a;
    SubsetSize({i, j}, a);
  }

  lemma SubsetSize(a: set<nat>, b: set<nat>)
    requires a <= b
    ensures |a| <= |b|
  {
    assert b == a + (b - a);
  }

  // ---- Stopping ----

  /** A worker holds the task exactly between the decrement and the requeue. */
  ghost predicate InWindow(s: Sys, t: Task) {
    exists w :: w in s.workers && s.workers[w].pc.Released? && TaskOf(s.workers[w].pc.e) == t
  }

  /** A snapshot of isStoped is true exactly when the flags are set and every submitted task is
      parked, finished, or in the window between `m_activeThreadCount--` and the requeue. */
  lemma StoppedIff(skip: PinTest, s0: Sys, steps: seq<Step>)
    requires Start(s0) && Run(skip, s0, steps)
    ensures
      var s := After(skip, s0, steps);
      IsStoped(s) <==> s.autoStop && s.stopping && forall t :: t in s.place ==> Resting(s, t) || InWindow(s, t)
  {
    StartHolds(s0);
    RunKeeps(skip, s0, steps);
    var s := After(skip, s0, steps);
    if IsStoped(s) {
      forall t | t in s.place ensures Resting(s, t) || InWindow(s, t) { StoppedTask(s, t); }
    } else if s.autoStop && s.stopping {
      BusyTask(s);
    }
  }

  lemma StoppedTask(s: Sys, t: Task)
    requires Inv(s) && IsStoped(s) && t in s.place
    ensures Resting(s, t) || InWindow(s, t)
  {
    PlacedOnce(s, t);
    QueuedPosition(s, t);
    if s.place[t].Held? {
      var w := s.place[t].w;
      assert HeldBy(s, w, t);
      assert w !in CountedWorkers(s);
    }
  }

  lemma BusyTask(s: Sys)
    requires Inv(s) && (s.queue != [] || s.active != 0)
    ensures exists t :: t in s.place && !Resting(s, t) && !InWindow(s, t)
  {
    if s.queue != [] {
      var t := TaskOf(s.queue[0]);
      assert QueuedEntry(s, s.queue[0]);
      PlacedOnce(s, t);
      NotInWindow(s, t);
    } else {
      assert CountedWorkers(s) != {};
      var w :| w in CountedWorkers(s);
      var t := TaskOf(s.workers[w].pc.e);
      assert HeldEntry(s, w, s.workers[w].pc);
      PlacedOnce(s, t);
      NotInWindow(s, t);
    }
  }

  lemma NotInWindow(s: Sys, t: Task)
    requires WorkerInv(s) && t in s.place
    requires s.place[t].Held? ==> HeldBy(s, s.place[t].w, t) && Counted(s.workers[s.place[t].w].pc)
    ensures !InWindow(s, t)
  {
    forall w | w in s.workers && s.workers[w].pc.Released? ensures TaskOf(s.workers[w].pc.e) != t {
      assert HeldEntry(s, w, s.workers[w].pc);
    }
  }

  /** m_activeThreadCount is the number of workers between dequeue and decrement, and
      m_idleThreadCount the number of workers around their idle fiber. */
  lemma CountersAreExact(skip: PinTest, s0: Sys, steps: seq<Step>)
    requires Start(s0) && Run(skip, s0, steps)
    ensures
      var s := After(skip, s0, steps);
      s.active == |CountedWorkers(s)| && s.idling == |IdleWorkers(s)|
  {
    StartHolds(s0);
    RunKeeps(skip, s0, steps);
  }

  // ---- Nothing asserted by the source fails ----

  /** No assertion fails and no iterator leaves its list; a dequeued entry carries work nobody
      else holds, a dequeued fiber is READY; queued fibers are never running or finished; every
      body was started at most once; a retained idle fiber is fit to be swapped in. */
  lemma RunIsSound(skip: PinTest, s0: Sys, steps: seq<Step>)
    requires Start(s0) && Run(skip, s0, steps)
    ensures
      var s := After(skip, s0, steps);
      && s.ok
      && (forall i :: 0 <= i < |s.queue| ==> Carries(s.queue[i]))
      && (forall i :: 0 <= i < |s.queue| && s.queue[i].fiber.Some? ==>
            StateOf(s.fibers, s.queue[i].fiber.value) in {Init, Hold, Ready})
      && (forall w :: w in s.workers && s.workers[w].pc.Taken? ==>
            var e := s.workers[w].pc.e;
            && Carries(e) && (e.fiber.Some? ==> StateOf(s.fibers, e.fiber.value) == Ready)
            && (forall v :: v in s.workers && HeldBy(s, v, TaskOf(e)) ==> v == w))
      && (forall i, j :: 0 <= i < j < |s.starts| ==> s.starts[i] != s.starts[j])
      && (forall w :: w in s.workers && (s.workers[w].pc.Loop? || s.workers[w].pc.Empty?) && s.workers[w].idle.Some? ==>
            s.workers[w].idle.value != Exec && !Terminal(s.workers[w].idle.value))
  {
    StartHolds(s0);
    RunKeeps(skip, s0, steps);
    var s := After(skip, s0, steps);
    forall i | 0 <= i < |s.queue| ensures QueuedEntry(s, s.queue[i]) {}
    forall w | w in s.workers ensures IdleFits(s.workers[w]) {}
    forall w | w in s.workers && Holding(s.workers[w].pc) ensures HeldEntry(s, w, s.workers[w].pc) {}
  }

  // ---- The pin test ----

  lemma {:induction false} TakenIsNotSkipped(skip: PinTest, me: Thread, q: seq<Entry>, i: nat, st: States)
    requires i <= |q|
    ensures var r := ScanFrom(skip, me, q, i, st); r.Took? ==> !skip(r.entry.thread, me)
    decreases |q| - i
  {
    if i < |q| {
      if skip(q[i].thread, me) {
        TakenIsNotSkipped(skip, me, q, i + 1, st);
      } else if q[i].fiber.Some? {
        match StateOf(st, q[i].fiber.value)
        case Init => TakenIsNotSkipped(skip, me, q, i + 1, st[q[i].fiber.value := Ready]);
        case Hold => TakenIsNotSkipped(skip, me, q, i + 1, st[q[i].fiber.value := Ready]);
        case Exec => TakenIsNotSkipped(skip, me, q, i + 1, st);
        case Ready =>
        case _ =>
          if i + 1 < |q| {
            TakenIsNotSkipped(skip, me, RemoveAt(q, i), i + 1, st);
          }
      }
    }
  }

  /** Worker `w` holds nothing that the test makes it pass over. */
  predicate PinKept(skip: PinTest, s: Sys, w: Thread) {
    w in s.workers && Holding(s.workers[w].pc) ==> !skip(s.workers[w].pc.e.thread, w)
  }

  lemma AbsorbKeepsPin(skip: PinTest, s: Sys, w: Thread, r: ScanResult)
    requires At(s, w) && s.workers[w].pc.Loop? && (r.Took? ==> !skip(r.entry.thread, w))
    ensures PinKept(skip, Absorb(s, w, r), w)
  {}

  lemma SwitchKeepsPin(skip: PinTest, s: Sys, a: Step)
    requires Loose(s) && Enabled(s, a) && (a.Dispatch? || a.Settle?) && PinKept(skip, s, a.w)
    ensures PinKept(skip, Next(skip, s, a), a.w)
  {
    var e := s.workers[a.w].pc.e;
    assert Known(s, e);
    if a.Dispatch? { DispatchShape(s, a.w, e); } else { SettleShape(s, a.w, e); }
  }

  lemma OtherKeepsPin(skip: PinTest, s: Sys, a: Step, w: Thread)
    requires Enabled(s, a) && StepOf(a, w) && !a.Scan? && !a.Dispatch? && !a.Settle? && PinKept(skip, s, w)
    ensures PinKept(skip, Next(skip, s, a), w)
  {}

  /** The worker that takes the step holds afterwards what it held, or what its scan took. */
  lemma StepKeepsPins(skip: PinTest, s: Sys, a: Step)
    requires Loose(s) && Enabled(s, a) && forall w :: PinKept(skip, s, w)
    ensures forall w :: PinKept(skip, Next(skip, s, a), w)
  {
    StepLoose(skip, s, a);
    forall w ensures PinKept(skip, Next(skip, s, a), w) {
      assert PinKept(skip, s, w);
      if StepOf(a, w) {
        if a.Scan? {
          TakenIsNotSkipped(skip, w, s.queue, 0, s.fibers);
          AbsorbKeepsPin(skip, s, w, ScanFrom(skip, w, s.queue, 0, s.fibers));
        } else if a.Dispatch? || a.Settle? {
          SwitchKeepsPin(skip, s, a);
        } else {
          OtherKeepsPin(skip, s, a, w);
        }
      }
    }
  }

  lemma {:induction false} RunKeepsPins(skip: PinTest, s: Sys, steps: seq<Step>)
    requires Loose(s) && Run(skip, s, steps) && forall w :: PinKept(skip, s, w)
    ensures forall w :: PinKept(skip, After(skip, s, steps), w)
    decreases |steps|
  {
    if steps != [] {
      StepLoose(skip, s, steps[0]);
      StepKeepsPins(skip, s, steps[0]);
      RunKeepsPins(skip, Next(skip, s, steps[0]), steps[1..]);
    }
  }

  /** In no run does a worker hold an entry that its pin test passes over: with the test as it is
      coded, never an entry pinned to its own thread. */
  lemma NeverHeldByItsThread(s0: Sys, steps: seq<Step>, w: Thread)
    requires Start(s0) && Run(CodedPinTest(), s0, steps)
    requires var s := After(CodedPinTest(), s0, steps); w in s.workers && Holding(s.workers[w].pc)
    ensures var e := After(CodedPinTest(), s0, steps).workers[w].pc.e; e.thread == 0 || e.thread != w
  {
    StartIsLoose(s0);
    forall v ensures PinKept(CodedPinTest(), s0, v) {
      assert v in s0.workers ==> StartWorker(s0, v);
    }
    RunKeepsPins(CodedPinTest(), s0, steps);
    assert PinKept(CodedPinTest(), After(CodedPinTest(), s0, steps), w);
  }
}
