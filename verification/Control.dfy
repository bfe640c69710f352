/** Control transfer between fibers: which fiber's code runs on each thread, what the
    thread-local `t_fiber` says, and whose continuation every saved context holds. */
module Control {
  import opened Fibers

  /** A fiber object. */
  datatype Ref =
    | MainFiber(thread: Thread)   // t_threadFiber of a thread
    | RootFiber                   // m_rootFiber
    | TaskFiber(task: Task)
    | IdleFiber(thread: Thread)

  /** `cpu` is the truth that swapcontext establishes; `cur` is `t_fiber`; `sched` is
      `t_scheduler_fiber`; `ctx[r]` names the fiber whose suspended execution is stored in the
      context of `r`, and is absent while no resumable execution is stored there. `callers`
      is a history: the fibers whose swapIn or call on this thread is still unanswered. */
  datatype Machine = Machine(
    cpu: map<Thread, Ref>,
    cur: map<Thread, Ref>,
    sched: map<Thread, Ref>,
    ctx: map<Ref, Ref>,
    callers: map<Thread, seq<Ref>>,
    ok: bool)

  predicate Knows(m: Machine, w: Thread) {
    w in m.cpu && w in m.cur && w in m.sched && w in m.callers
  }

  /** swapcontext(save, load) on thread `w`: the running execution goes to `save`, the one
      stored in `load` continues. Loading a context with nothing to resume is a failure. */
  function SwapContext(m: Machine, w: Thread, save: Ref, load: Ref): Machine
    requires Knows(m, w)
  {
    var ctx := m.ctx[save := m.cpu[w]];
    if load in ctx then m.(ctx := ctx - {load}, cpu := m.cpu[w := ctx[load]])
    else m.(ok := false)
  }

  function Push(m: Machine, w: Thread): Machine
    requires Knows(m, w)
  {
    m.(callers := m.callers[w := m.callers[w] + [m.cpu[w]]])
  }

  function Pop(m: Machine, w: Thread): Machine
    requires Knows(m, w)
  {
    if m.callers[w] == [] then m.(ok := false)
    else m.(callers := m.callers[w := m.callers[w][..|m.callers[w]| - 1]])
  }

  function SetThis(m: Machine, w: Thread, f: Ref): Machine
    requires Knows(m, w)
  {
    m.(cur := m.cur[w := f])
  }

  /** Fiber::swapIn of `f`, executed on thread `w`. */
  function SwapIn(m: Machine, w: Thread, f: Ref): Machine
    requires Knows(m, w)
  {
    SwapContext(SetThis(Push(m, w), w, f), w, m.sched[w], f)
  }

  /** GetThis()->swapOut(), executed on thread `w`. */
  function SwapOut(m: Machine, w: Thread): Machine
    requires Knows(m, w)
  {
    SwapContext(SetThis(Pop(m, w), w, m.sched[w]), w, m.cur[w], m.sched[w])
  }

  /** Fiber::call of `f`, executed on thread `w`. */
  function Call(m: Machine, w: Thread, f: Ref): Machine
    requires Knows(m, w)
  {
    SwapContext(SetThis(Push(m, w), w, f), w, MainFiber(w), f)
  }

  /** GetThis()->back(), executed on thread `w`. */
  function Back(m: Machine, w: Thread): Machine
    requires Knows(m, w)
  {
    SwapContext(SetThis(Pop(m, w), w, MainFiber(w)), w, m.cur[w], MainFiber(w))
  }

  /** makecontext for a new fiber. */
  function Make(m: Machine, f: Ref): Machine {
    m.(ctx := m.ctx[f := f])
  }

  /** `t_fiber` names the fiber in control. */
  predicate Truthful(m: Machine, w: Thread) {
    Knows(m, w) && m.cur[w] == m.cpu[w]
  }

  /** The fiber to which control goes when the fiber now running gives it up. */
  function ReturnsTo(m: Machine, w: Thread): Ref
    requires Knows(m, w) && m.callers[w] != []
  {
    m.callers[w][|m.callers[w]| - 1]
  }

  /** Control comes back to whoever did the swapIn, always; but `t_fiber` is right afterwards
      exactly when that was the thread's scheduler fiber. So only the scheduler fiber may
      swap fibers in, as the project's notes demand. */
  lemma SwapInSwapOutIff(m: Machine, w: Thread, f: Ref)
    requires Truthful(m, w) && m.ok
    requires f in m.ctx && m.ctx[f] == f && f != m.sched[w] && f != m.cpu[w]
    ensures
      var m' := SwapOut(SwapIn(m, w, f), w);
      && m'.ok && m'.cpu[w] == m.cpu[w] && m'.callers[w] == m.callers[w]
      && m'.ctx[f] == f
      && (Truthful(m', w) <==> m.cpu[w] == m.sched[w])
  {
    var m1 := SwapIn(m, w, f);
    assert m1.callers[w][..|m1.callers[w]| - 1] == m.callers[w];
  }

  /** A swapIn done by any other fiber overwrites the scheduler fiber's saved execution: when
      that was all there was of it, no context holds it any longer. */
  lemma NestedSwapInLosesScheduler(m: Machine, w: Thread, f: Ref)
    requires Truthful(m, w) && m.ok
    requires f in m.ctx && m.ctx[f] == f && f != m.sched[w]
    requires forall r :: r in m.ctx ==> m.ctx[r] == r
    requires m.cpu[w] != m.sched[w]
    ensures
      var m' := SwapIn(m, w, f);
      forall r :: r in m'.ctx ==> m'.ctx[r] != m.sched[w]
  {}
}
