/** Scheduler::run as a protocol: any number of workers, any number of tasks, one step per
    lock-held region or per stretch of code that only the stepping worker can observe. */
module Protocol {
  import opened Fibers
  import opened RunQueue
  import opened Control

  /** Where a worker is in the body of `run`. */
  datatype Pc =
    | Waiting             // the caller's thread, before stop() calls the root fiber
    | Loop                // at the loop head
    | Taken(e: Entry)     // dequeued an entry; counted active
    | Running(e: Entry)   // the entry's fiber is in control; counted active
    | Returned(e: Entry)  // the fiber gave control back; still counted active
    | Released(e: Entry)  // after m_activeThreadCount--, before the requeue
    | Empty               // the scan found nothing
    | Idling              // the idle fiber is in control
    | IdleBack            // the idle fiber gave control back
    | Exited

  /** `idle` is the state of the worker's idle fiber, None after idle_ft.reset(). */
  datatype Worker = Worker(pc: Pc, idle: Option<State>)

  datatype Place = Queued | Held(w: Thread) | Parked | Finished

  /** The shared state. `unentered` are the fibers whose context has never been entered. Two fields
      are histories that no branch reads: `starts` lists the bodies that were started, `place`
      records the last move of every task ever submitted. `ok` turns false when an assertion of
      the source fails or an iterator leaves its list. */
  datatype Sys = Sys(
    queue: seq<Entry>,
    fibers: States,
    unentered: set<Task>,
    workers: map<Thread, Worker>,
    active: int,
    idling: int,
    autoStop: bool,
    stopping: bool,
    m: Machine,
    ok: bool,
    starts: seq<Task>,
    place: map<Task, Place>)

  datatype Step =
    | CreateFiber(t: Task)
    | SubmitFiber(t: Task, thread: Thread)
    | SubmitCallback(t: Task, thread: Thread)
    | SubmitNull(thread: Thread)
    | SetFlags(autoStop: bool, stopping: bool)
    | CallRoot(w: Thread)
    | Scan(w: Thread)
    | Dispatch(w: Thread)
    | BodyStop(w: Thread, how: Stop)
    | Decrement(w: Thread)
    | Settle(w: Thread)
    | IdleSwapIn(w: Thread)
    | IdleStop(w: Thread, how: Stop)
    | IdleSettle(w: Thread)
    | Leave(w: Thread)

  function TaskOf(e: Entry): Task {
    if e.fiber.Some? then e.fiber.value else if e.cb.Some? then e.cb.value else 0
  }

  predicate Holding(pc: Pc) {
    pc.Taken? || pc.Running? || pc.Returned? || pc.Released?
  }

  predicate Counted(pc: Pc) {
    pc.Taken? || pc.Running? || pc.Returned?
  }

  predicate At(s: Sys, w: Thread) {
    w in s.workers && Knows(s.m, w)
  }

  function Goto(s: Sys, w: Thread, pc: Pc): Sys
    requires w in s.workers
  {
    s.(workers := s.workers[w := s.workers[w].(pc := pc)])
  }

  /** When the code can take a step; nothing is assumed of callers here. */
  predicate Enabled(s: Sys, a: Step) {
    match a
    case CreateFiber(t) => t !in s.fibers && t !in s.place
    case SubmitFiber(t, _) => t in s.fibers
    case SubmitCallback(t, _) => t !in s.fibers && t !in s.place
    case SubmitNull(_) => true
    case SetFlags(_, _) => true
    case CallRoot(w) => At(s, w) && s.workers[w].pc.Waiting?
    case Scan(w) => At(s, w) && s.workers[w].pc.Loop?
    case Dispatch(w) => At(s, w) && s.workers[w].pc.Taken?
    case BodyStop(w, _) => At(s, w) && s.workers[w].pc.Running?
    case Decrement(w) => At(s, w) && s.workers[w].pc.Returned?
    case Settle(w) => At(s, w) && s.workers[w].pc.Released?
    case IdleSwapIn(w) => At(s, w) && s.workers[w].pc.Empty? && s.workers[w].idle.Some?
    case IdleStop(w, _) => At(s, w) && s.workers[w].pc.Idling?
    case IdleSettle(w) => At(s, w) && s.workers[w].pc.IdleBack?
    case Leave(w) => At(s, w) && s.workers[w].pc.Empty? && s.workers[w].idle.None?
  }

  function Enqueue(s: Sys, e: Entry): Sys {
    if Carries(e) then s.(queue := s.queue + [e], place := s.place[TaskOf(e) := Queued]) else s
  }

  /** What a worker does with the outcome of its scan, still under the lock. */
  function Absorb(s: Sys, w: Thread, r: ScanResult): Sys
    requires At(s, w)
  {
    match r
    case Undefined => s.(ok := false)
    case Nothing(q, st) => Goto(s.(queue := q, fibers := st), w, Empty)
    case Took(_, e, q, st) =>
      Goto(s.(queue := q, fibers := st, active := s.active + 1,
              place := if Carries(e) then s.place[TaskOf(e) := Held(w)] else s.place), w, Taken(e))
  }

  /** A callback gets a fiber of its own. */
  function MakeFor(s: Sys, e: Entry): Sys {
    if e.fiber.Some? then s
    else s.(fibers := s.fibers[TaskOf(e) := Init], unentered := s.unentered + {TaskOf(e)},
            m := Make(s.m, TaskFiber(TaskOf(e))))
  }

  /** The first swapIn of a fiber starts its body. */
  function Enter(s: Sys, t: Task): Sys {
    if t in s.unentered then s.(unentered := s.unentered - {t}, starts := s.starts + [t]) else s
  }

  /** Make a fiber for a callback, set it READY, swap it in. */
  function DoDispatch(s: Sys, w: Thread, e: Entry): Sys
    requires At(s, w)
  {
    if !Carries(e) then Goto(s.(active := s.active - 1), w, Loop)
    else
      var t := TaskOf(e);
      var s1 := Enter(MakeFor(s, e), t);
      Goto(s1.(fibers := s1.fibers[t := Exec], m := SwapIn(s1.m, w, TaskFiber(t))),
           w, Running(Entry(Some(t), None, e.thread)))
  }

  /** Requeue a READY fiber, drop a finished one, park any other in HOLD. */
  function DoSettle(s: Sys, w: Thread, e: Entry): Sys
    requires At(s, w)
  {
    var t := TaskOf(e);
    var s1 := Goto(s, w, Loop);
    var state := StateOf(s.fibers, t);
    if state == Ready then Enqueue(s1, e)
    else if Terminal(state) then s1.(place := s.place[t := Finished])
    else s1.(fibers := s.fibers[t := Hold], place := s.place[t := Parked])
  }

  function Next(skip: PinTest, s: Sys, a: Step): Sys
    requires Enabled(s, a)
  {
    match a
    case CreateFiber(t) =>
      s.(fibers := s.fibers[t := Init], unentered := s.unentered + {t}, m := Make(s.m, TaskFiber(t)))
    case SubmitFiber(t, thread) => Enqueue(s, Entry(Some(t), None, thread))
    case SubmitCallback(t, thread) => Enqueue(s, Entry(None, Some(t), thread))
    case SubmitNull(thread) => Enqueue(s, Entry(None, None, thread))
    case SetFlags(auto, stopping) => s.(autoStop := auto, stopping := stopping)
    case CallRoot(w) => Goto(s.(m := Call(s.m, w, RootFiber)), w, Loop)
    case Scan(w) => Absorb(s, w, ScanFrom(skip, w, s.queue, 0, s.fibers))
    case Dispatch(w) => DoDispatch(s, w, s.workers[w].pc.e)
    case BodyStop(w, how) =>
      var e := s.workers[w].pc.e;
      var asserts := (how.YieldReady? || how.YieldHold?) ==> StateOf(s.fibers, TaskOf(e)) == Exec;
      Goto(s.(fibers := s.fibers[TaskOf(e) := StateAfter(how)], m := SwapOut(s.m, w), ok := s.ok && asserts),
           w, Returned(e))
    case Decrement(w) => Goto(s.(active := s.active - 1), w, Released(s.workers[w].pc.e))
    case Settle(w) => DoSettle(s, w, s.workers[w].pc.e)
    case IdleSwapIn(w) =>
      s.(idling := s.idling + 1, m := SwapIn(s.m, w, IdleFiber(w)),
         ok := s.ok && s.workers[w].idle.value != Exec,
         workers := s.workers[w := Worker(Idling, Some(Exec))])
    case IdleStop(w, how) =>
      var asserts := (how.YieldReady? || how.YieldHold?) ==> s.workers[w].idle == Some(Exec);
      s.(m := SwapOut(s.m, w), ok := s.ok && asserts,
         workers := s.workers[w := Worker(IdleBack, Some(StateAfter(how)))])
    case IdleSettle(w) =>
      var kept := match s.workers[w].idle
                  case Some(Exec) => Some(Hold)
                  case Some(Term) => None
                  case Some(Except) => None
                  case other => other;
      s.(idling := s.idling - 1, workers := s.workers[w := Worker(Loop, kept)])
    case Leave(w) =>
      Goto(s.(m := if s.m.sched[w] == RootFiber then Back(s.m, w) else s.m), w, Exited)
  }

  /** A snapshot of Scheduler::isStoped. */
  predicate IsStoped(s: Sys) {
    s.autoStop && s.stopping && s.queue == [] && s.active == 0
  }

  predicate InQueue(s: Sys, t: Task) {
    exists i :: 0 <= i < |s.queue| && TaskOf(s.queue[i]) == t
  }

  predicate HeldBy(s: Sys, w: Thread, t: Task) {
    w in s.workers && Holding(s.workers[w].pc) && TaskOf(s.workers[w].pc.e) == t
  }

  /** What callers of schedule must respect: a fiber is submitted only while it is unfinished
      and neither queued nor held by a worker. */
  ghost predicate Submittable(s: Sys, t: Task) {
    && t in s.fibers && !Terminal(s.fibers[t])
    && !InQueue(s, t)
    && (forall w :: w in s.workers ==> !HeldBy(s, w, t))
  }

  ghost predicate Allowed(s: Sys, a: Step) {
    a.SubmitFiber? ==> Submittable(s, a.t)
  }

  /** A scheduler before its workers run: any set of threads, and possibly one of them the
      caller's, whose scheduler fiber is the root fiber. */
  ghost predicate Start(s: Sys) {
    && s.queue == [] && s.fibers == map[] && s.unentered == {} && s.active == 0 && s.idling == 0 && s.ok
    && s.starts == [] && s.place == map[]
    && s.m.ok
    && (forall w :: w in s.workers ==> StartWorker(s, w))
    && (forall v, w :: v in s.workers && w in s.workers && s.workers[v].pc.Waiting? && s.workers[w].pc.Waiting? ==>
          v == w)
    && (forall r :: r in s.m.ctx <==> r == RootFiber || (r.IdleFiber? && r.thread in s.workers))
    && (forall r :: r in s.m.ctx ==> s.m.ctx[r] == r)
  }

  ghost predicate StartWorker(s: Sys, w: Thread)
    requires w in s.workers
  {
    && Knows(s.m, w)
    && s.workers[w].idle == Some(Init)
    && s.m.cpu[w] == s.m.cur[w] == MainFiber(w) && s.m.callers[w] == []
    && if s.workers[w].pc == Waiting then s.m.sched[w] == RootFiber
       else s.workers[w].pc == Loop && s.m.sched[w] == MainFiber(w)
  }

  ghost predicate Run(skip: PinTest, s: Sys, steps: seq<Step>)
    decreases |steps|
  {
    steps == [] ||
    (Enabled(s, steps[0]) && Allowed(s, steps[0]) && Run(skip, Next(skip, s, steps[0]), steps[1..]))
  }

  ghost function After(skip: PinTest, s: Sys, steps: seq<Step>): Sys
    requires Run(skip, s, steps)
    decreases |steps|
  {
    if steps == [] then s else After(skip, Next(skip, s, steps[0]), steps[1..])
  }
}
