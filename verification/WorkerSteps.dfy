/** What each worker does next, how its idle fiber decides when it leaves `run`, and what becomes of
    the fiber it has run: every step told by what it does, apart from how it is computed. */
module WorkerSteps {
  import opened Fibers
  import opened RunQueue
  import opened Control
  import opened Protocol
  import opened Invariant
  import opened AnySubmission
  import opened Nesting

  // ---- Whose turn it is, and where it leads ----

  /** The kind of step a worker can take. */
  predicate IsTurn(k: Worker, a: Step) {
    match k.pc
    case Waiting => a.CallRoot?
    case Loop => a.Scan?
    case Taken(_) => a.Dispatch?
    case Running(_) => a.BodyStop?
    case Returned(_) => a.Decrement?
    case Released(_) => a.Settle?
    case Empty => if k.idle.Some? then a.IdleSwapIn? else a.Leave?
    case Idling => a.IdleStop?
    case IdleBack => a.IdleSettle?
    case Exited => false
  }

  lemma TurnIff(s: Sys, w: Thread, a: Step)
    requires At(s, w) && StepOf(a, w)
    ensures Enabled(s, a) <==> IsTurn(s.workers[w], a)
  {}

  lemma KnownInRuns(skip: PinTest, s0: Sys, steps: seq<Step>, w: Thread)
    requires Start(s0) && Run(skip, s0, steps) && w in After(skip, s0, steps).workers
    ensures At(After(skip, s0, steps), w)
  {
    TransfersAreNested(skip, s0, steps);
    assert Truthful(After(skip, s0, steps).m, w);
  }

  /** No worker is ever stuck and none has a choice: in every reachable state a step of worker `w` is
      possible if and only if it is the one its place in `run` calls for, in whatever way the code it
      runs gives up control. Only a worker that has left `run` has none. */
  lemma WorkersAlwaysProceed(skip: PinTest, s0: Sys, steps: seq<Step>, w: Thread, a: Step)
    requires Start(s0) && Run(skip, s0, steps)
    requires w in After(skip, s0, steps).workers && StepOf(a, w)
    ensures var s := After(skip, s0, steps); Enabled(s, a) <==> IsTurn(s.workers[w], a)
  {
    KnownInRuns(skip, s0, steps, w);
    TurnIff(After(skip, s0, steps), w, a);
  }

  /** Where the step leads. */
  predicate Leads(pc: Pc, a: Step, pc': Pc) {
    match a
    case CallRoot(_) => pc' == Loop
    case Scan(_) => pc'.Taken? || pc' == Empty
    case Dispatch(_) => pc'.Running? && pc.Taken? && TaskOf(pc'.e) == TaskOf(pc.e) && pc'.e.thread == pc.e.thread
    case BodyStop(_, _) => pc.Running? && pc' == Returned(pc.e)
    case Decrement(_) => pc.Returned? && pc' == Released(pc.e)
    case Settle(_) => pc' == Loop
    case IdleSwapIn(_) => pc' == Idling
    case IdleStop(_, _) => pc' == IdleBack
    case IdleSettle(_) => pc' == Loop
    case Leave(_) => pc' == Exited
    case _ => false
  }

  lemma AbsorbLeads(s: Sys, w: Thread, r: ScanResult)
    requires At(s, w) && !r.Undefined?
    ensures Absorb(s, w, r).workers[w].pc == if r.Took? then Taken(r.entry) else Empty
  {}

  lemma OtherStepLeads(skip: PinTest, s: Sys, a: Step, w: Thread)
    requires Enabled(s, a) && StepOf(a, w) && !a.Scan? && !a.Dispatch? && !a.Settle?
    ensures w in Next(skip, s, a).workers && Leads(s.workers[w].pc, a, Next(skip, s, a).workers[w].pc)
  {}

  /** Every step of a reachable state leads on; a scan to Taken exactly when it took an entry. */
  lemma StepLeads(skip: PinTest, s: Sys, a: Step, w: Thread)
    requires Inv(s) && Enabled(s, a) && StepOf(a, w)
    ensures w in Next(skip, s, a).workers && Leads(s.workers[w].pc, a, Next(skip, s, a).workers[w].pc)
    ensures a.Scan? ==>
      (Next(skip, s, a).workers[w].pc == Empty <==> ScanFrom(skip, w, s.queue, 0, s.fibers).Nothing?)
  {
    if a.Scan? {
      QueueIsHealthy(s);
      ScanIsExact(skip, w, s.queue, 0, s.fibers);
      AbsorbLeads(s, w, ScanFrom(skip, w, s.queue, 0, s.fibers));
    } else if a.Dispatch? {
      assert HeldEntry(s, w, s.workers[w].pc);
      DispatchShape(s, w, s.workers[w].pc.e);
    } else if a.Settle? {
      assert HeldEntry(s, w, s.workers[w].pc);
      SettleShape(s, w, s.workers[w].pc.e);
    } else {
      OtherStepLeads(skip, s, a, w);
    }
  }

  // ---- The idle fiber ----

  /** How the idle fiber of `w` gave up control last. */
  ghost function LastIdle(steps: seq<Step>, w: Thread, known: Option<Stop>): Option<Stop>
    decreases |steps|
  {
    if steps == [] then known else LastIdle(steps[1..], w, NowIdle(steps[0], w, known))
  }

  function NowIdle(a: Step, w: Thread, known: Option<Stop>): Option<Stop> {
    if a.IdleStop? && a.w == w then Some(a.how) else known
  }

  predicate Ends(how: Option<Stop>) {
    how == Some(Return) || how == Some(Throw)
  }

  /** The idle fiber a worker keeps after that. */
  function Kept(last: Option<Stop>): Option<State> {
    match last
    case None => Some(Init)
    case Some(YieldReady) => Some(Ready)
    case Some(YieldHold) => Some(Hold)
    case Some(SwapOutOnly) => Some(Hold)
    case Some(Return) => None
    case Some(Throw) => None
  }

  /** Its state before the worker has looked at it. */
  function Left(how: Stop): State {
    match how
    case YieldReady => Ready
    case YieldHold => Hold
    case SwapOutOnly => Exec
    case Return => Term
    case Throw => Except
  }

  ghost predicate Tells(k: Worker, last: Option<Stop>) {
    match k.pc
    case Idling => !Ends(last)
    case IdleBack => last.Some? && k.idle == Some(Left(last.value))
    case _ => k.idle == Kept(last)
  }

  lemma IdleStepTells(skip: PinTest, s: Sys, a: Step, w: Thread, last: Option<Stop>)
    requires Enabled(s, a) && StepOf(a, w) && Tells(s.workers[w], last)
    requires a.IdleSwapIn? || a.IdleStop? || a.IdleSettle?
    ensures w in Next(skip, s, a).workers && Tells(Next(skip, s, a).workers[w], NowIdle(a, w, last))
    ensures Ends(NowIdle(a, w, last)) <==> Ends(last) || a == IdleStop(w, Return) || a == IdleStop(w, Throw)
  {}

  /** A step of the worker that is none of its idle fiber. */
  lemma OwnStepTells(skip: PinTest, s: Sys, a: Step, w: Thread, last: Option<Stop>)
    requires Loose(s) && Enabled(s, a) && StepOf(a, w) && Tells(s.workers[w], last)
    requires !a.IdleSwapIn? && !a.IdleStop? && !a.IdleSettle?
    ensures w in Next(skip, s, a).workers && Tells(Next(skip, s, a).workers[w], last)
  {
    if a.Scan? {
      AbsorbKeepsIdle(s, w, ScanFrom(skip, w, s.queue, 0, s.fibers), last);
    } else if a.Dispatch? {
      assert Known(s, s.workers[w].pc.e);
      DispatchShape(s, w, s.workers[w].pc.e);
    } else if a.Settle? {
      assert Known(s, s.workers[w].pc.e);
      SettleShape(s, w, s.workers[w].pc.e);
    } else {
      PlainStepTells(skip, s, a, w, last);
    }
  }

  lemma AbsorbKeepsIdle(s: Sys, w: Thread, r: ScanResult, last: Option<Stop>)
    requires At(s, w) && s.workers[w].pc.Loop? && Tells(s.workers[w], last)
    ensures w in Absorb(s, w, r).workers && Tells(Absorb(s, w, r).workers[w], last)
  {}

  lemma PlainStepTells(skip: PinTest, s: Sys, a: Step, w: Thread, last: Option<Stop>)
    requires Enabled(s, a) && StepOf(a, w) && Tells(s.workers[w], last)
    requires a.CallRoot? || a.BodyStop? || a.Decrement? || a.Leave?
    ensures w in Next(skip, s, a).workers && Tells(Next(skip, s, a).workers[w], last)
  {}

  lemma StepTells(skip: PinTest, s: Sys, a: Step, w: Thread, last: Option<Stop>)
    requires Loose(s) && Enabled(s, a) && w in s.workers && Tells(s.workers[w], last)
    ensures w in Next(skip, s, a).workers && Tells(Next(skip, s, a).workers[w], NowIdle(a, w, last))
    ensures Ends(NowIdle(a, w, last)) <==> Ends(last) || a == IdleStop(w, Return) || a == IdleStop(w, Throw)
  {
    if !StepOf(a, w) {
      StepLoose(skip, s, a);
    } else if a.IdleSwapIn? || a.IdleStop? || a.IdleSettle? {
      IdleStepTells(skip, s, a, w, last);
    } else {
      OwnStepTells(skip, s, a, w, last);
    }
  }

  /** The idle fiber of `w` has returned or thrown in the course of these steps. */
  ghost predicate HasEnded(steps: seq<Step>, w: Thread) {
    exists i :: 0 <= i < |steps| && (steps[i] == IdleStop(w, Return) || steps[i] == IdleStop(w, Throw))
  }

  lemma EndedFirstOrLater(steps: seq<Step>, w: Thread)
    requires steps != []
    ensures HasEnded(steps, w) <==>
            steps[0] == IdleStop(w, Return) || steps[0] == IdleStop(w, Throw) || HasEnded(steps[1..], w)
  {
    forall i | 0 <= i < |steps| - 1 ensures steps[1..][i] == steps[i + 1] {}
    assert forall i :: 0 < i < |steps| ==> steps[i] == steps[1..][i - 1];
  }

  lemma {:induction false} RunTells(skip: PinTest, s: Sys, steps: seq<Step>, w: Thread, last: Option<Stop>)
    requires Loose(s) && Run(skip, s, steps) && w in s.workers && Tells(s.workers[w], last)
    ensures
      var s' := After(skip, s, steps);
      w in s'.workers && Tells(s'.workers[w], LastIdle(steps, w, last))
    ensures Ends(LastIdle(steps, w, last)) <==> Ends(last) || HasEnded(steps, w)
    decreases |steps|
  {
    if steps != [] {
      StepLoose(skip, s, steps[0]);
      StepTells(skip, s, steps[0], w, last);
      RunTells(skip, Next(skip, s, steps[0]), steps[1..], w, NowIdle(steps[0], w, last));
      EndedFirstOrLater(steps, w);
    }
  }

  lemma StartTells(s0: Sys, w: Thread)
    requires Start(s0) && w in s0.workers
    ensures Loose(s0) && Tells(s0.workers[w], None)
  {
    StartIsLoose(s0);
    assert StartWorker(s0, w);
  }

  /** Whenever a worker is not with its idle fiber: the idle fiber is gone if and only if it has
      returned or thrown; otherwise it is new, READY after a yield to READY, and in HOLD after a yield
      to HOLD or a bare swapOut. */
  lemma IdleFiberIsKept(skip: PinTest, s0: Sys, steps: seq<Step>, w: Thread)
    requires Start(s0) && Run(skip, s0, steps) && w in s0.workers
    ensures
      var s := After(skip, s0, steps);
      && w in s.workers
      && (!s.workers[w].pc.Idling? && !s.workers[w].pc.IdleBack? ==>
            && s.workers[w].idle == Kept(LastIdle(steps, w, None))
            && (s.workers[w].idle.None? <==> HasEnded(steps, w)))
  {
    StartTells(s0, w);
    RunTells(skip, s0, steps, w, None);
    NoneKeptIff(LastIdle(steps, w, None));
  }

  lemma NoneKeptIff(last: Option<Stop>)
    ensures Kept(last).None? <==> Ends(last)
  {}

  /** A worker whose scan found nothing leaves `run` if and only if its idle fiber has returned or
      thrown, and swaps it in otherwise. */
  lemma EmptyWorkerDecides(skip: PinTest, s0: Sys, steps: seq<Step>, w: Thread)
    requires Start(s0) && Run(skip, s0, steps) && w in s0.workers
    requires var s := After(skip, s0, steps); w in s.workers && s.workers[w].pc.Empty?
    ensures
      var s := After(skip, s0, steps);
      && (Enabled(s, Leave(w)) <==> HasEnded(steps, w))
      && (Enabled(s, IdleSwapIn(w)) <==> !HasEnded(steps, w))
  {
    IdleFiberIsKept(skip, s0, steps, w);
    KnownInRuns(skip, s0, steps, w);
    EmptyTurn(After(skip, s0, steps), w);
  }

  lemma EmptyTurn(s: Sys, w: Thread)
    requires At(s, w) && s.workers[w].pc.Empty?
    ensures Enabled(s, Leave(w)) <==> s.workers[w].idle.None?
    ensures Enabled(s, IdleSwapIn(w)) <==> s.workers[w].idle.Some?
  {}

  // ---- The fiber that was run ----

  /** What a worker makes of the fiber it has run, by the way the body gave up control: requeued at
      the end if it yielded READY, parked in HOLD if it yielded HOLD or just swapped out, finished in
      TERM or EXCEPT if it returned or threw. */
  lemma WhatBecomesOfAFiber(skip: PinTest, s: Sys, w: Thread, how: Stop)
    requires Enabled(s, BodyStop(w, how)) && Carries(s.workers[w].pc.e)
    ensures
      var e, t := s.workers[w].pc.e, TaskOf(s.workers[w].pc.e);
      var s1 := Next(skip, s, BodyStop(w, how));
      Enabled(s1, Decrement(w)) && Enabled(Next(skip, s1, Decrement(w)), Settle(w)) &&
      var s3 := Next(skip, Next(skip, s1, Decrement(w)), Settle(w));
      && t in s3.fibers && t in s3.place && s3.active == s.active - 1
      && match how
         case YieldReady => s3.queue == s.queue + [e] && s3.fibers[t] == Ready && s3.place[t] == Queued
         case YieldHold => s3.queue == s.queue && s3.fibers[t] == Hold && s3.place[t] == Parked
         case SwapOutOnly => s3.queue == s.queue && s3.fibers[t] == Hold && s3.place[t] == Parked
         case Return => s3.queue == s.queue && s3.fibers[t] == Term && s3.place[t] == Finished
         case Throw => s3.queue == s.queue && s3.fibers[t] == Except && s3.place[t] == Finished
  {
    var e, t := s.workers[w].pc.e, TaskOf(s.workers[w].pc.e);
    BodyStops(skip, s, w, how);
    var s1 := Next(skip, s, BodyStop(w, how));
    var s2 := Next(skip, s1, Decrement(w));
    Settles(s2, w, e, t);
  }

  lemma BodyStops(skip: PinTest, s: Sys, w: Thread, how: Stop)
    requires Enabled(s, BodyStop(w, how))
    ensures
      var e, s1 := s.workers[w].pc.e, Next(skip, s, BodyStop(w, how));
      && s1.queue == s.queue && s1.active == s.active && s1.place == s.place && At(s1, w)
      && s1.fibers == s.fibers[TaskOf(e) := Left(how)] && s1.workers[w].pc == Returned(e)
  {}

  lemma Settles(s: Sys, w: Thread, e: Entry, t: Task)
    requires At(s, w) && Carries(e) && t == TaskOf(e) && t in s.fibers
    ensures
      var s' := DoSettle(s, w, e);
      && t in s'.fibers && t in s'.place && s'.active == s.active
      && (s.fibers[t] == Ready ==> s'.queue == s.queue + [e] && s'.fibers[t] == Ready && s'.place[t] == Queued)
      && (s.fibers[t] in {Hold, Exec} ==> s'.queue == s.queue && s'.fibers[t] == Hold && s'.place[t] == Parked)
      && (s.fibers[t] in {Term, Except} ==>
            s'.queue == s.queue && s'.fibers[t] == s.fibers[t] && s'.place[t] == Finished)
  {}

  // ---- What callers get ----

  /** A fiber or callback goes to the end of the queue with the thread it is pinned to; an empty
      submission changes nothing. */
  lemma SubmissionsGoLast(skip: PinTest, s: Sys, t: Task, thread: Thread)
    ensures Enabled(s, SubmitFiber(t, thread)) ==>
      Next(skip, s, SubmitFiber(t, thread)).queue == s.queue + [Entry(Some(t), None, thread)]
    ensures Enabled(s, SubmitCallback(t, thread)) ==>
      Next(skip, s, SubmitCallback(t, thread)).queue == s.queue + [Entry(None, Some(t), thread)]
    ensures Next(skip, s, SubmitNull(thread)) == s
  {}

  /** Any fiber that exists can be submitted at any time, any unused name as a fiber or a callback, and
      the flags can be set to anything. */
  lemma CallersAreFree(skip: PinTest, s: Sys, t: Task, thread: Thread, auto: bool, stopping: bool)
    ensures t in s.fibers ==> Enabled(s, SubmitFiber(t, thread))
    ensures t !in s.fibers && t !in s.place ==> Enabled(s, SubmitCallback(t, thread)) && Enabled(s, CreateFiber(t))
    ensures Enabled(s, SubmitNull(thread)) && Enabled(s, SetFlags(auto, stopping))
    ensures
      var s' := Next(skip, s, SetFlags(auto, stopping));
      s' == s.(autoStop := s'.autoStop, stopping := s'.stopping) && (IsStoped(s') ==> auto && stopping)
    ensures auto && stopping && s.queue == [] && s.active == 0 ==> IsStoped(Next(skip, s, SetFlags(auto, stopping)))
  {}

  // ---- What is asserted ----

  /** A step fails exactly where the source asserts or leaves the list: a yield by a fiber that is not
      in EXEC, a swapIn of an idle fiber that is, a scan past the end. */
  lemma StepFailsIff(skip: PinTest, s: Sys, a: Step)
    requires s.ok && Enabled(s, a) && (a.Dispatch? ==> Carries(s.workers[a.w].pc.e))
    ensures Next(skip, s, a).ok <==>
      match a
      case Scan(w) => !ScanFrom(skip, w, s.queue, 0, s.fibers).Undefined?
      case BodyStop(w, YieldReady) => StateOf(s.fibers, TaskOf(s.workers[w].pc.e)) == Exec
      case BodyStop(w, YieldHold) => StateOf(s.fibers, TaskOf(s.workers[w].pc.e)) == Exec
      case IdleSwapIn(w) => s.workers[w].idle != Some(Exec)
      case IdleStop(w, YieldReady) => s.workers[w].idle == Some(Exec)
      case IdleStop(w, YieldHold) => s.workers[w].idle == Some(Exec)
      case _ => true
  {
    if a.Scan? {
      AbsorbFailsIff(s, a.w, ScanFrom(skip, a.w, s.queue, 0, s.fibers));
    } else if a.Dispatch? {
      DispatchShape(s, a.w, s.workers[a.w].pc.e);
    } else if a.Settle? {
      SettleFailsNever(s, a.w, s.workers[a.w].pc.e);
    }
  }

  lemma AbsorbFailsIff(s: Sys, w: Thread, r: ScanResult)
    requires s.ok && At(s, w)
    ensures Absorb(s, w, r).ok <==> !r.Undefined?
  {}

  lemma SettleFailsNever(s: Sys, w: Thread, e: Entry)
    requires s.ok && At(s, w)
    ensures DoSettle(s, w, e).ok
  {}

  // ---- Bodies that were started ----

  /** A fiber is either still to be entered or its body was started. */
  ghost predicate StartsExact(s: Sys) {
    forall t :: t in s.fibers ==> t in s.unentered || t in s.starts
  }

  /** ... and every task a worker has entered is one of the latter. */
  ghost predicate AllStarted(s: Sys) {
    StartsExact(s) && forall w, t :: Busy(s, w, t) ==> t in s.starts
  }

  lemma DispatchStarts(skip: PinTest, s: Sys, w: Thread)
    requires Inv(s) && StartsExact(s) && Enabled(s, Dispatch(w))
    ensures
      var s', t := Next(skip, s, Dispatch(w)), TaskOf(s.workers[w].pc.e);
      StartsExact(s') && s.starts <= s'.starts && t in s'.starts
  {
    assert HeldEntry(s, w, s.workers[w].pc);
    DispatchShape(s, w, s.workers[w].pc.e);
  }

  lemma ScanStarts(skip: PinTest, s: Sys, w: Thread)
    requires Inv(s) && StartsExact(s) && Enabled(s, Scan(w))
    ensures StartsExact(Next(skip, s, Scan(w))) && Next(skip, s, Scan(w)).starts == s.starts
  {
    QueueIsHealthy(s);
    ScanIsExact(skip, w, s.queue, 0, s.fibers);
  }

  lemma BodyStopStarts(skip: PinTest, s: Sys, w: Thread, how: Stop)
    requires Inv(s) && StartsExact(s) && Enabled(s, BodyStop(w, how))
    ensures StartsExact(Next(skip, s, BodyStop(w, how))) && Next(skip, s, BodyStop(w, how)).starts == s.starts
  {
    assert HeldEntry(s, w, s.workers[w].pc);
  }

  lemma SettleStarts(s: Sys, w: Thread)
    requires Inv(s) && StartsExact(s) && At(s, w) && s.workers[w].pc.Released?
    ensures StartsExact(DoSettle(s, w, s.workers[w].pc.e)) && DoSettle(s, w, s.workers[w].pc.e).starts == s.starts
  {
    assert HeldEntry(s, w, s.workers[w].pc);
    SettleStates(s, w, s.workers[w].pc.e);
    SettleNames(s, w, s.workers[w].pc.e);
  }

  lemma SettleNames(s: Sys, w: Thread, e: Entry)
    requires At(s, w)
    ensures DoSettle(s, w, e).starts == s.starts && DoSettle(s, w, e).unentered == s.unentered
  {}

  lemma PlainStarts(skip: PinTest, s: Sys, a: Step)
    requires StartsExact(s) && Enabled(s, a) && !a.Dispatch? && !a.Scan? && !a.BodyStop? && !a.Settle?
    ensures StartsExact(Next(skip, s, a)) && Next(skip, s, a).starts == s.starts
  {}

  lemma StepExact(skip: PinTest, s: Sys, a: Step)
    requires Inv(s) && StartsExact(s) && Enabled(s, a)
    ensures StartsExact(Next(skip, s, a)) && s.starts <= Next(skip, s, a).starts
    ensures a.Dispatch? ==> TaskOf(s.workers[a.w].pc.e) in Next(skip, s, a).starts
  {
    match a
    case Dispatch(w) => DispatchStarts(skip, s, w);
    case Scan(w) => ScanStarts(skip, s, w);
    case BodyStop(w, how) => BodyStopStarts(skip, s, w, how);
    case Settle(w) => SettleStarts(s, w);
    case _ => PlainStarts(skip, s, a);
  }

  lemma StepStarts(skip: PinTest, s: Sys, a: Step)
    requires Inv(s) && Loose(s) && AllStarted(s) && Enabled(s, a)
    ensures AllStarted(Next(skip, s, a))
  {
    StepExact(skip, s, a);
    forall w, t | Busy(Next(skip, s, a), w, t) ensures t in Next(skip, s, a).starts {
      if !EntersTask(s, a, t) {
        BusyStays(skip, s, a, w, t);
      }
    }
  }

  lemma {:induction false} RunStarts(skip: PinTest, s: Sys, steps: seq<Step>)
    requires Inv(s) && Loose(s) && AllStarted(s) && Run(skip, s, steps)
    ensures Inv(After(skip, s, steps)) && AllStarted(After(skip, s, steps))
    decreases |steps|
  {
    if steps != [] {
      StepKeeps(skip, s, steps[0]);
      StepLoose(skip, s, steps[0]);
      StepStarts(skip, s, steps[0]);
      RunStarts(skip, Next(skip, s, steps[0]), steps[1..]);
    }
  }

  /** In every reachable state the bodies that were started are, each once, those of the fibers that
      are not still to be entered; and the body of every task that a worker has entered was started. */
  lemma BodiesAreStarted(skip: PinTest, s0: Sys, steps: seq<Step>, w: Thread, t: Task)
    requires Start(s0) && Run(skip, s0, steps)
    ensures
      var s := After(skip, s0, steps);
      && (t in s.starts <==> t in s.fibers && t !in s.unentered)
      && multiset(s.starts)[t] <= 1
      && (Busy(s, w, t) ==> t in s.starts)
  {
    StartHolds(s0);
    StartIsLoose(s0);
    assert forall v :: v in s0.workers ==> StartWorker(s0, v);
    RunStarts(skip, s0, steps);
    OnlyOnce(After(skip, s0, steps).starts, t);
  }

  lemma {:induction false} OnlyOnce(a: seq<Task>, t: Task)
    requires forall i, j :: 0 <= i < j < |a| ==> a[i] != a[j]
    ensures multiset(a)[t] <= 1
    decreases |a|
  {
    if a != [] {
      OnlyOnce(a[1..], t);
      assert a == [a[0]] + a[1..];
      assert a[0] !in a[1..];
    }
  }
}
