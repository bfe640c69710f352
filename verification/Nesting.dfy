/** Control transfers of the workers are well nested, on every thread and in every run. */
module Nesting {
  import opened Fibers
  import opened RunQueue
  import opened Control
  import opened Protocol
  import opened Invariant

  /** The fiber object exists, given the worker threads and the tasks that have a fiber. */
  ghost predicate Exists(threads: set<Thread>, tasks: set<Task>, r: Ref) {
    match r
    case MainFiber(w) => w in threads
    case RootFiber => true
    case TaskFiber(t) => t in tasks
    case IdleFiber(w) => w in threads
  }

  predicate OnCpu(m: Machine, w: Thread, r: Ref) {
    w in m.cpu && m.cpu[w] == r
  }

  /** Every fiber is in control of one thread or suspended with its own execution, never both. */
  ghost predicate Exclusive(m: Machine, threads: set<Thread>, tasks: set<Task>) {
    forall r :: ExclusiveAt(m, threads, tasks, r)
  }

  ghost predicate ExclusiveAt(m: Machine, threads: set<Thread>, tasks: set<Task>, r: Ref) {
    && (r in m.ctx ==> m.ctx[r] == r && Exists(threads, tasks, r) && forall w :: w in threads ==> !OnCpu(m, w, r))
    && (Exists(threads, tasks, r) && r !in m.ctx ==> exists w :: w in threads && OnCpu(m, w, r))
    && (forall v, w :: v in threads && w in threads && OnCpu(m, v, r) && OnCpu(m, w, r) ==> v == w)
  }

  /** Who runs on thread `w` and whose swapIn or call brought it there. */
  ghost predicate Nested(m: Machine, w: Thread, pc: Pc) {
    && Truthful(m, w)
    && m.sched[w] in {MainFiber(w), RootFiber}
    && var below := if m.sched[w] == RootFiber then [MainFiber(w)] else [];
       match pc
       case Waiting => m.cpu[w] == MainFiber(w) && m.callers[w] == [] && m.sched[w] == RootFiber
       case Exited => m.cpu[w] == MainFiber(w) && m.callers[w] == []
       case Running(e) => m.cpu[w] == TaskFiber(TaskOf(e)) && m.callers[w] == below + [m.sched[w]]
       case Idling => m.cpu[w] == IdleFiber(w) && m.callers[w] == below + [m.sched[w]]
       case _ => m.cpu[w] == m.sched[w] && m.callers[w] == below
  }

  predicate RootedAt(m: Machine, w: Thread) {
    w in m.sched && m.sched[w] == RootFiber
  }

  ghost predicate OneRoot(m: Machine, threads: set<Thread>) {
    forall v, w :: v in threads && w in threads && RootedAt(m, v) && RootedAt(m, w) ==> v == w
  }

  ghost predicate AllNested(m: Machine, workers: map<Thread, Worker>) {
    forall w :: w in workers ==> Nested(m, w, workers[w].pc)
  }

  /** What control looks like while the workers are where `workers` says and `tasks` have fibers. */
  ghost predicate MachineInv(m: Machine, workers: map<Thread, Worker>, tasks: set<Task>) {
    m.ok && AllNested(m, workers) && OneRoot(m, workers.Keys) && Exclusive(m, workers.Keys, tasks)
  }

  ghost predicate NestInv(s: Sys) {
    MachineInv(s.m, s.workers, s.fibers.Keys)
  }

  lemma StartNests(s: Sys)
    requires Start(s)
    ensures NestInv(s)
  {
    forall w | w in s.workers ensures Nested(s.m, w, s.workers[w].pc) {
      assert StartWorker(s, w);
    }
    forall r ensures ExclusiveAt(s.m, s.workers.Keys, s.fibers.Keys, r) {
      assert Exists(s.workers.Keys, s.fibers.Keys, r) && r !in s.m.ctx ==> OnCpu(s.m, r.thread, r);
    }
  }

  /** Control of thread `w` passed from one fiber to another. */
  lemma Transfer(m: Machine, m': Machine, threads: set<Thread>, tasks: set<Task>, w: Thread, from: Ref, to: Ref)
    requires Exclusive(m, threads, tasks) && w in threads && from != to
    requires OnCpu(m, w, from) && to in m.ctx && Exists(threads, tasks, from)
    requires m'.cpu == m.cpu[w := to] && m'.ctx == m.ctx[from := from] - {to}
    ensures Exclusive(m', threads, tasks)
  {
    assert ExclusiveAt(m, threads, tasks, from) && ExclusiveAt(m, threads, tasks, to);
    forall v, r | v != w ensures OnCpu(m', v, r) == OnCpu(m, v, r) {}
    forall r ensures ExclusiveAt(m', threads, tasks, r) {
      assert ExclusiveAt(m, threads, tasks, r);
      if r == to {
        assert OnCpu(m', w, r);
      } else if Exists(threads, tasks, r) && r !in m'.ctx {
        var v :| v in threads && OnCpu(m, v, r);
        assert OnCpu(m', v, r);
      }
    }
  }

  /** Control goes where the operation says, and only thread `w` is concerned. */
  ghost predicate Moved(m: Machine, m': Machine, w: Thread, from: Ref, to: Ref, callers: seq<Ref>) {
    && Knows(m, w) && m.ok
    && m' == m.(cpu := m.cpu[w := to], cur := m.cur[w := to], ctx := m.ctx[from := from] - {to},
                callers := m.callers[w := callers])
  }

  /** swapIn and call are made by a fiber that knows itself; so is the answering swapOut or back. */
  lemma MovesIn(m: Machine, w: Thread, f: Ref, save: Ref)
    requires Truthful(m, w) && m.ok && m.cpu[w] == save && f in m.ctx && m.ctx[f] == f && f != save
    ensures m.sched[w] == save ==> Moved(m, SwapIn(m, w, f), w, save, f, m.callers[w] + [save])
    ensures save == MainFiber(w) ==> Moved(m, Call(m, w, f), w, save, f, m.callers[w] + [save])
  {}

  lemma MovesOut(m: Machine, w: Thread, below: seq<Ref>, to: Ref)
    requires Truthful(m, w) && m.ok && m.callers[w] == below + [to]
    requires to in m.ctx && m.ctx[to] == to && to != m.cpu[w]
    ensures m.sched[w] == to ==> Moved(m, SwapOut(m, w), w, m.cpu[w], to, below)
    ensures to == MainFiber(w) ==> Moved(m, Back(m, w), w, m.cpu[w], to, below)
  {
    assert (below + [to])[..|below|] == below;
  }

  lemma MovedNests(m: Machine, m': Machine, workers: map<Thread, Worker>, w: Thread, k: Worker,
                   from: Ref, to: Ref, callers: seq<Ref>)
    requires Moved(m, m', w, from, to, callers) && AllNested(m, workers) && Nested(m', w, k.pc)
    ensures AllNested(m', workers[w := k])
  {
    forall v | v in workers && v != w ensures Nested(m', v, workers[v].pc) {
      assert Nested(m, v, workers[v].pc);
    }
  }

  lemma RootsStay(m: Machine, m': Machine, threads: set<Thread>)
    requires OneRoot(m, threads) && m'.sched == m.sched
    ensures OneRoot(m', threads)
  {
    forall v | v in threads ensures RootedAt(m', v) == RootedAt(m, v) {}
  }

  /** Control of thread `w` moved from one existing fiber to another and the worker went on. */
  lemma Moves(m: Machine, m': Machine, workers: map<Thread, Worker>, tasks: set<Task>,
              w: Thread, k: Worker, from: Ref, to: Ref, callers: seq<Ref>)
    requires MachineInv(m, workers, tasks) && w in workers
    requires Moved(m, m', w, from, to, callers) && from != to
    requires OnCpu(m, w, from) && to in m.ctx && Exists(workers.Keys, tasks, from)
    requires Nested(m', w, k.pc)
    ensures MachineInv(m', workers[w := k], tasks)
  {
    var threads := workers.Keys;
    assert workers[w := k].Keys == threads;
    assert Exclusive(m', threads, tasks) by { Transfer(m, m', threads, tasks, w, from, to); }
    assert AllNested(m', workers[w := k]) by { MovedNests(m, m', workers, w, k, from, to, callers); }
    assert OneRoot(m', threads) by { RootsStay(m, m', threads); }
  }

  predicate OwnCode(pc: Pc) {
    pc.Loop? || pc.Taken? || pc.Returned? || pc.Released? || pc.Empty? || pc.IdleBack?
  }

  /** Worker `w` moves within the code of `run` that runs on its scheduler fiber. */
  lemma Stays(m: Machine, workers: map<Thread, Worker>, tasks: set<Task>, w: Thread, k: Worker)
    requires MachineInv(m, workers, tasks) && w in workers
    requires (OwnCode(workers[w].pc) && OwnCode(k.pc)) || Nested(m, w, k.pc)
    ensures MachineInv(m, workers[w := k], tasks)
  {
    assert workers[w := k].Keys == workers.Keys;
    assert Nested(m, w, workers[w].pc);
  }

  /** A fiber that no thread runs can be resumed. */
  lemma Resumable(m: Machine, workers: map<Thread, Worker>, tasks: set<Task>, r: Ref)
    requires MachineInv(m, workers, tasks) && Exists(workers.Keys, tasks, r)
    requires forall v :: v in workers ==> !OnCpu(m, v, r)
    ensures r in m.ctx && m.ctx[r] == r
  {
    assert ExclusiveAt(m, workers.Keys, tasks, r);
  }

  /** While a task or idle fiber is in control of `w`, the scheduler fiber of `w` waits. */
  lemma SchedulerWaits(m: Machine, workers: map<Thread, Worker>, tasks: set<Task>, w: Thread)
    requires MachineInv(m, workers, tasks) && w in workers && (workers[w].pc.Running? || workers[w].pc.Idling?)
    ensures Knows(m, w) && m.sched[w] in m.ctx && m.ctx[m.sched[w]] == m.sched[w]
  {
    assert Nested(m, w, workers[w].pc);
    forall v | v in workers ensures !OnCpu(m, v, m.sched[w]) {
      assert Nested(m, v, workers[v].pc);
      assert v != w && m.sched[w] == RootFiber ==> !RootedAt(m, v);
    }
    Resumable(m, workers, tasks, m.sched[w]);
  }

  /** The fiber in control of `w` swaps out: control returns to the fiber that swapped it in. */
  lemma SwapsOut(m: Machine, workers: map<Thread, Worker>, tasks: set<Task>, w: Thread)
    requires MachineInv(m, workers, tasks) && w in workers && (workers[w].pc.Running? || workers[w].pc.Idling?)
    ensures Knows(m, w) && m.callers[w] != []
    ensures
      var below := m.callers[w][..|m.callers[w]| - 1];
      && Moved(m, SwapOut(m, w), w, m.cpu[w], ReturnsTo(m, w), below)
      && ReturnsTo(m, w) == m.sched[w] && m.sched[w] != m.cpu[w] && m.sched[w] in m.ctx
      && Nested(SwapOut(m, w), w, Loop)
  {
    SchedulerWaits(m, workers, tasks, w);
    ThreadSwapsOut(m, w, workers[w].pc);
  }

  lemma ThreadSwapsOut(m: Machine, w: Thread, pc: Pc)
    requires m.ok && Nested(m, w, pc) && (pc.Running? || pc.Idling?)
    requires m.sched[w] in m.ctx && m.ctx[m.sched[w]] == m.sched[w]
    ensures m.callers[w] != []
    ensures
      var below := m.callers[w][..|m.callers[w]| - 1];
      && Moved(m, SwapOut(m, w), w, m.cpu[w], ReturnsTo(m, w), below)
      && ReturnsTo(m, w) == m.sched[w] && m.sched[w] != m.cpu[w]
      && Nested(SwapOut(m, w), w, Loop)
  {
    var below := if m.sched[w] == RootFiber then [MainFiber(w)] else [];
    assert (below + [m.sched[w]])[..|below|] == below;
    MovesOut(m, w, below, m.sched[w]);
  }

  lemma OwnCodeNests(m: Machine, w: Thread, pc: Pc, pc': Pc)
    requires Nested(m, w, pc) && OwnCode(pc) && OwnCode(pc')
    ensures Nested(m, w, pc')
  {}

  /** The fiber in control while the worker is not in its own code. */
  lemma InControl(m: Machine, workers: map<Thread, Worker>, tasks: set<Task>, w: Thread)
    requires AllNested(m, workers) && w in workers
    requires workers[w].pc.Idling? || (workers[w].pc.Running? && TaskOf(workers[w].pc.e) in tasks)
    ensures Knows(m, w) && OnCpu(m, w, m.cpu[w]) && Exists(workers.Keys, tasks, m.cpu[w])
  {
    assert Nested(m, w, workers[w].pc);
  }

  /** ... and the worker goes on to its next line. */
  lemma GivesBack(m: Machine, workers: map<Thread, Worker>, tasks: set<Task>, w: Thread, k: Worker)
    requires MachineInv(m, workers, tasks) && w in workers && Knows(m, w) && OwnCode(k.pc)
    requires workers[w].pc.Idling? || (workers[w].pc.Running? && TaskOf(workers[w].pc.e) in tasks)
    ensures MachineInv(SwapOut(m, w), workers[w := k], tasks)
  {
    SwapsOut(m, workers, tasks, w);
    OwnCodeNests(SwapOut(m, w), w, Loop, k.pc);
    InControl(m, workers, tasks, w);
    Moves(m, SwapOut(m, w), workers, tasks, w, k, m.cpu[w], m.sched[w], m.callers[w][..|m.callers[w]| - 1]);
  }

  /** The scheduler fiber of `w` swaps in a fiber that nobody runs. */
  lemma SwapsIn(m: Machine, workers: map<Thread, Worker>, tasks: set<Task>, w: Thread, k: Worker, f: Ref)
    requires MachineInv(m, workers, tasks) && w in workers && Knows(m, w) && OwnCode(workers[w].pc)
    requires Exists(workers.Keys, tasks, f) && forall v :: v in workers ==> !OnCpu(m, v, f)
    requires (k.pc.Running? && f == TaskFiber(TaskOf(k.pc.e))) || (k.pc.Idling? && f == IdleFiber(w))
    ensures MachineInv(SwapIn(m, w, f), workers[w := k], tasks)
  {
    assert Nested(m, w, workers[w].pc);
    Resumable(m, workers, tasks, f);
    MovesIn(m, w, f, m.sched[w]);
    Moves(m, SwapIn(m, w, f), workers, tasks, w, k, m.sched[w], f, m.callers[w] + [m.sched[w]]);
  }

  /** No thread runs the idle fiber of a worker that is not idling. */
  lemma IdleOffCpu(m: Machine, workers: map<Thread, Worker>, w: Thread)
    requires AllNested(m, workers) && w in workers && !workers[w].pc.Idling?
    ensures forall v :: v in workers ==> !OnCpu(m, v, IdleFiber(w))
  {
    forall v | v in workers ensures !OnCpu(m, v, IdleFiber(w)) {
      assert Nested(m, v, workers[v].pc);
    }
  }

  /** Only a worker that is Running a task has the task's fiber on its thread. */
  lemma TaskOffCpu(m: Machine, workers: map<Thread, Worker>, t: Task)
    requires AllNested(m, workers)
    requires forall v :: v in workers && workers[v].pc.Running? ==> TaskOf(workers[v].pc.e) != t
    ensures forall v :: v in workers ==> !OnCpu(m, v, TaskFiber(t))
  {
    forall v | v in workers ensures !OnCpu(m, v, TaskFiber(t)) {
      assert Nested(m, v, workers[v].pc);
    }
  }

  /** stop() calls the root fiber on the caller's thread. */
  lemma CallsRoot(m: Machine, workers: map<Thread, Worker>, tasks: set<Task>, w: Thread, k: Worker)
    requires MachineInv(m, workers, tasks) && w in workers && Knows(m, w) && workers[w].pc.Waiting? && k.pc.Loop?
    ensures MachineInv(Call(m, w, RootFiber), workers[w := k], tasks)
  {
    assert Nested(m, w, workers[w].pc);
    forall v | v in workers ensures !OnCpu(m, v, RootFiber) {
      assert Nested(m, v, workers[v].pc);
      assert v != w ==> !RootedAt(m, v);
    }
    Resumable(m, workers, tasks, RootFiber);
    MovesIn(m, w, RootFiber, MainFiber(w));
    Moves(m, Call(m, w, RootFiber), workers, tasks, w, k, MainFiber(w), RootFiber, m.callers[w] + [MainFiber(w)]);
  }

  /** The root fiber gives its thread back: control returns to the main fiber, which called it. */
  lemma BacksOut(m: Machine, workers: map<Thread, Worker>, tasks: set<Task>, w: Thread)
    requires MachineInv(m, workers, tasks) && w in workers && workers[w].pc.Empty? && RootedAt(m, w)
    ensures Knows(m, w) && m.callers[w] != []
    ensures Moved(m, Back(m, w), w, RootFiber, MainFiber(w), []) && MainFiber(w) in m.ctx && OnCpu(m, w, RootFiber)
    ensures ReturnsTo(m, w) == MainFiber(w) && Nested(Back(m, w), w, Exited)
  {
    assert Nested(m, w, workers[w].pc);
    forall v | v in workers ensures !OnCpu(m, v, MainFiber(w)) {
      assert Nested(m, v, workers[v].pc);
    }
    Resumable(m, workers, tasks, MainFiber(w));
    assert [] + [MainFiber(w)] == [MainFiber(w)];
    MovesOut(m, w, [], MainFiber(w));
  }

  /** The root fiber finishes and its worker is done. */
  lemma RootReturns(m: Machine, workers: map<Thread, Worker>, tasks: set<Task>, w: Thread, k: Worker)
    requires MachineInv(m, workers, tasks) && w in workers && workers[w].pc.Empty? && k.pc.Exited?
    requires RootedAt(m, w)
    ensures MachineInv(Back(m, w), workers[w := k], tasks)
  {
    BacksOut(m, workers, tasks, w);
    Moves(m, Back(m, w), workers, tasks, w, k, RootFiber, MainFiber(w), []);
  }

  lemma MakeIsExclusive(m: Machine, threads: set<Thread>, tasks: set<Task>, t: Task)
    requires Exclusive(m, threads, tasks) && t !in tasks
    requires forall v :: v in threads ==> !OnCpu(m, v, TaskFiber(t))
    ensures Exclusive(Make(m, TaskFiber(t)), threads, tasks + {t})
  {
    var m' := Make(m, TaskFiber(t));
    forall v, r ensures OnCpu(m', v, r) == OnCpu(m, v, r) {}
    forall r ensures ExclusiveAt(m', threads, tasks + {t}, r) {
      assert ExclusiveAt(m, threads, tasks, r);
      if Exists(threads, tasks + {t}, r) && r !in m'.ctx {
        var w :| w in threads && OnCpu(m, w, r);
        assert OnCpu(m', w, r);
      }
    }
  }

  /** Making a context for a new task fiber. */
  lemma Makes(m: Machine, workers: map<Thread, Worker>, tasks: set<Task>, t: Task)
    requires MachineInv(m, workers, tasks) && t !in tasks
    requires forall v :: v in workers && workers[v].pc.Running? ==> TaskOf(workers[v].pc.e) != t
    ensures MachineInv(Make(m, TaskFiber(t)), workers, tasks + {t})
  {
    TaskOffCpu(m, workers, t);
    MakeIsExclusive(m, workers.Keys, tasks, t);
    forall v | v in workers ensures Nested(Make(m, TaskFiber(t)), v, workers[v].pc) {
      assert Nested(m, v, workers[v].pc);
    }
  }

  // ---- The steps ----

  lemma NotRunning(s: Sys, t: Task)
    requires WorkerInv(s)
    requires t in s.place && s.place[t].Held? ==> s.place[t].w in s.workers && !s.workers[s.place[t].w].pc.Running?
    ensures forall v :: v in s.workers && s.workers[v].pc.Running? ==> TaskOf(s.workers[v].pc.e) != t
  {
    forall v | v in s.workers && s.workers[v].pc.Running? ensures TaskOf(s.workers[v].pc.e) != t {
      assert HeldEntry(s, v, s.workers[v].pc);
    }
  }

  lemma DispatchSwaps(s: Sys, w: Thread, e: Entry)
    requires At(s, w) && Carries(e)
    ensures
      var m := if e.fiber.None? then Make(s.m, TaskFiber(TaskOf(e))) else s.m;
      DoDispatch(s, w, e).m == SwapIn(m, w, TaskFiber(TaskOf(e)))
  {}

  lemma DispatchNests(s: Sys, w: Thread)
    requires NestInv(s) && WorkerInv(s) && StartsInv(s) && At(s, w) && s.workers[w].pc.Taken?
    ensures NestInv(DoDispatch(s, w, s.workers[w].pc.e))
  {
    var e := s.workers[w].pc.e;
    var t := TaskOf(e);
    assert HeldEntry(s, w, s.workers[w].pc);
    NotRunning(s, t);
    DispatchShape(s, w, e);
    DispatchSwaps(s, w, e);
    var k := Worker(Running(Entry(Some(t), None, e.thread)), s.workers[w].idle);
    var m, tasks := s.m, s.fibers.Keys;
    if e.fiber.None? {
      Makes(m, s.workers, tasks, t);
      m, tasks := Make(m, TaskFiber(t)), tasks + {t};
    }
    TaskOffCpu(m, s.workers, t);
    SwapsIn(m, s.workers, tasks, w, k, TaskFiber(t));
    assert DoDispatch(s, w, e).fibers.Keys == tasks;
  }

  lemma ScanNests(skip: PinTest, s: Sys, w: Thread, r: ScanResult)
    requires NestInv(s) && At(s, w) && s.workers[w].pc.Loop? && ScanOutcome(skip, w, s.queue, 0, s.fibers, r)
    ensures NestInv(Absorb(s, w, r))
  {
    Stays(s.m, s.workers, s.fibers.Keys, w, Absorb(s, w, r).workers[w]);
  }

  lemma SettleNests(s: Sys, w: Thread)
    requires NestInv(s) && WorkerInv(s) && At(s, w) && s.workers[w].pc.Released?
    ensures NestInv(DoSettle(s, w, s.workers[w].pc.e))
  {
    assert HeldEntry(s, w, s.workers[w].pc);
    assert DoSettle(s, w, s.workers[w].pc.e).fibers.Keys == s.fibers.Keys;
    Stays(s.m, s.workers, s.fibers.Keys, w, Worker(Loop, s.workers[w].idle));
  }

  lemma BodyStopNests(skip: PinTest, s: Sys, w: Thread, how: Stop)
    requires NestInv(s) && WorkerInv(s) && Enabled(s, BodyStop(w, how))
    ensures NestInv(Next(skip, s, BodyStop(w, how)))
  {
    assert HeldEntry(s, w, s.workers[w].pc);
    assert Next(skip, s, BodyStop(w, how)).fibers.Keys == s.fibers.Keys;
    GivesBack(s.m, s.workers, s.fibers.Keys, w, Worker(Returned(s.workers[w].pc.e), s.workers[w].idle));
  }

  lemma IdleInNests(skip: PinTest, s: Sys, w: Thread)
    requires NestInv(s) && Enabled(s, IdleSwapIn(w))
    ensures NestInv(Next(skip, s, IdleSwapIn(w)))
  {
    IdleOffCpu(s.m, s.workers, w);
    SwapsIn(s.m, s.workers, s.fibers.Keys, w, Worker(Idling, Some(Exec)), IdleFiber(w));
  }

  lemma LeaveNests(skip: PinTest, s: Sys, w: Thread)
    requires NestInv(s) && Enabled(s, Leave(w))
    ensures NestInv(Next(skip, s, Leave(w)))
  {
    var k := Worker(Exited, s.workers[w].idle);
    assert Nested(s.m, w, s.workers[w].pc);
    if s.m.sched[w] == RootFiber {
      RootReturns(s.m, s.workers, s.fibers.Keys, w, k);
    } else {
      Stays(s.m, s.workers, s.fibers.Keys, w, k);
    }
  }

  lemma CreateNests(skip: PinTest, s: Sys, t: Task)
    requires NestInv(s) && WorkerInv(s) && Enabled(s, CreateFiber(t))
    ensures NestInv(Next(skip, s, CreateFiber(t)))
  {
    NotRunning(s, t);
    Makes(s.m, s.workers, s.fibers.Keys, t);
    assert Next(skip, s, CreateFiber(t)).fibers.Keys == s.fibers.Keys + {t};
  }

  lemma StayNests(skip: PinTest, s: Sys, a: Step)
    requires NestInv(s) && Enabled(s, a) && (a.Decrement? || a.IdleSettle?)
    ensures NestInv(Next(skip, s, a))
  {
    Stays(s.m, s.workers, s.fibers.Keys, a.w, Next(skip, s, a).workers[a.w]);
  }

  lemma StepNests(skip: PinTest, s: Sys, a: Step)
    requires NestInv(s) && Inv(s) && Enabled(s, a)
    ensures NestInv(Next(skip, s, a))
  {
    match a
    case CreateFiber(t) => CreateNests(skip, s, t);
    case Scan(w) =>
      QueueIsHealthy(s);
      ScanIsExact(skip, w, s.queue, 0, s.fibers);
      ScanNests(skip, s, w, ScanFrom(skip, w, s.queue, 0, s.fibers));
    case Dispatch(w) => DispatchNests(s, w);
    case BodyStop(w, how) => BodyStopNests(skip, s, w, how);
    case Decrement(w) => StayNests(skip, s, a);
    case Settle(w) => SettleNests(s, w);
    case IdleSwapIn(w) => IdleInNests(skip, s, w);
    case IdleStop(w, how) => GivesBack(s.m, s.workers, s.fibers.Keys, w, Worker(IdleBack, Some(StateAfter(how))));
    case IdleSettle(w) => StayNests(skip, s, a);
    case CallRoot(w) => CallsRoot(s.m, s.workers, s.fibers.Keys, w, Worker(Loop, s.workers[w].idle));
    case Leave(w) => LeaveNests(skip, s, w);
    case _ =>
  }

  lemma {:induction false} RunNests(skip: PinTest, s: Sys, steps: seq<Step>)
    requires NestInv(s) && Inv(s) && Run(skip, s, steps)
    ensures NestInv(After(skip, s, steps))
    decreases |steps|
  {
    if steps != [] {
      StepNests(skip, s, steps[0]);
      StepKeeps(skip, s, steps[0]);
      RunNests(skip, Next(skip, s, steps[0]), steps[1..]);
    }
  }

  /** The worker is about to leave `run` on the root fiber, which then goes back to its caller. */
  predicate LeavesRoot(s: Sys, w: Thread) {
    w in s.workers && s.workers[w].pc.Empty? && s.workers[w].idle.None? && RootedAt(s.m, w)
  }

  /** When the fiber in control of `w` gives it up, it goes to the fiber whose swapIn or call is
      still unanswered, and `t_fiber` names that fiber: swapOut answers swapIn, back answers call. */
  ghost predicate Answers(s: Sys, w: Thread) {
    && Knows(s.m, w) && s.m.callers[w] != []
    && var m' := if LeavesRoot(s, w) then Back(s.m, w) else SwapOut(s.m, w);
       OnCpu(m', w, ReturnsTo(s.m, w)) && Truthful(m', w) && m'.ok
  }

  /** In every reachable state: no context without an execution was ever resumed, `t_fiber` names
      the fiber in control of each worker thread, every fiber is in control of exactly one thread
      or else suspended with its own execution, and a task, idle or root fiber that gives up control
      gives it back to the fiber that swapped it in or called it, whichever worker ran it before. */
  lemma TransfersAreNested(skip: PinTest, s0: Sys, steps: seq<Step>)
    requires Start(s0) && Run(skip, s0, steps)
    ensures
      var s := After(skip, s0, steps);
      && s.m.ok
      && Exclusive(s.m, s.workers.Keys, s.fibers.Keys)
      && (forall w :: w in s.workers ==> Truthful(s.m, w))
      && (forall w :: w in s.workers && (s.workers[w].pc.Running? || s.workers[w].pc.Idling? || LeavesRoot(s, w)) ==>
            Answers(s, w))
  {
    StartHolds(s0);
    StartNests(s0);
    RunNests(skip, s0, steps);
    var s := After(skip, s0, steps);
    forall w | w in s.workers ensures Truthful(s.m, w) {
      assert Nested(s.m, w, s.workers[w].pc);
    }
    forall w | w in s.workers && (s.workers[w].pc.Running? || s.workers[w].pc.Idling? || LeavesRoot(s, w))
      ensures Answers(s, w)
    {
      if LeavesRoot(s, w) {
        BacksOut(s.m, s.workers, s.fibers.Keys, w);
      } else {
        SwapsOut(s.m, s.workers, s.fibers.Keys, w);
      }
    }
  }
}
