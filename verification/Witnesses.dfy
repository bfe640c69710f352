/** Concrete runs that show what the worker protocol does not promise. */
module Witnesses {
  import opened Fibers
  import opened RunQueue
  import opened Control
  import opened Protocol
  import opened SchedulerTheorems

  /** Three workers on threads 1 to 3, nothing submitted. */
  function ThreeWorkers(): Sys {
    Sys([], map[], {}, map[1 := Worker(Loop, Some(Init)), 2 := Worker(Loop, Some(Init)), 3 := Worker(Loop, Some(Init))],
        0, 0, true, true, Mains(), true, [], map[])
  }

  /** Every thread runs its main fiber, which is its scheduler fiber. */
  function Mains(): Machine {
    var mains := map[1 := MainFiber(1), 2 := MainFiber(2), 3 := MainFiber(3)];
    Machine(mains, mains, mains,
            map[RootFiber := RootFiber, IdleFiber(1) := IdleFiber(1), IdleFiber(2) := IdleFiber(2),
                IdleFiber(3) := IdleFiber(3)],
            map[1 := [], 2 := [], 3 := []], true)
  }

  lemma ThreeWorkersStart()
    ensures Start(ThreeWorkers())
  {
    assert forall w :: w in ThreeWorkers().workers ==> StartWorker(ThreeWorkers(), w);
  }

  lemma FirstStep() returns (s: Sys)
    ensures Enabled(ThreeWorkers(), SubmitCallback(7, 0))
    ensures s == Next(CodedPinTest(), ThreeWorkers(), SubmitCallback(7, 0))
    ensures s == ThreeWorkers().(queue := [Entry(None, Some(7), 0)], place := map[7 := Queued])
  {
    s := Next(CodedPinTest(), ThreeWorkers(), SubmitCallback(7, 0));
  }

  lemma SecondStep(s: Sys) returns (s': Sys)
    requires s == ThreeWorkers().(queue := [Entry(None, Some(7), 0)], place := map[7 := Queued])
    ensures Enabled(s, Scan(1)) && s' == Next(CodedPinTest(), s, Scan(1))
    ensures s' == Goto(ThreeWorkers().(active := 1, place := map[7 := Held(1)]), 1, Taken(Entry(None, Some(7), 0)))
  {
    s' := Next(CodedPinTest(), s, Scan(1));
    assert s'.queue == [] && s'.place == map[7 := Held(1)];
  }

  /** What is queued of task 7 once it has a fiber. */
  const SEVEN := Entry(Some(7), None, 0)

  /** Worker 1 runs task 7 on its thread. */
  predicate Ran(s: Sys, pc: Pc, state: State) {
    && s.queue == [] && s.active == 1 && s.autoStop && s.stopping
    && 7 in s.fibers && s.fibers[7] == state
    && 1 in s.workers && s.workers[1] == Worker(pc, Some(Init))
    && 2 in s.workers && s.workers[2] == Worker(Loop, Some(Init))
    && 3 in s.workers && s.workers[3] == Worker(Loop, Some(Init))
    && AllKnow(s.m)
  }

  predicate AllKnow(m: Machine) {
    && Knows(m, 1) && Knows(m, 2) && Knows(m, 3)
    && m.sched[1] == MainFiber(1) && m.sched[3] == MainFiber(3)
  }

  lemma ThirdStep(s: Sys) returns (s': Sys)
    requires s == Goto(ThreeWorkers().(active := 1, place := map[7 := Held(1)]), 1, Taken(Entry(None, Some(7), 0)))
    ensures Enabled(s, Dispatch(1)) && s' == Next(CodedPinTest(), s, Dispatch(1))
    ensures Ran(s', Running(SEVEN), Exec)
  {
    s' := Next(CodedPinTest(), s, Dispatch(1));
  }

  lemma KnowAfterOut(m: Machine, w: Thread)
    requires AllKnow(m) && Knows(m, w)
    ensures AllKnow(SwapOut(m, w))
  {
    assert SwapOut(m, w).sched == m.sched;
  }

  lemma FourthStep(s: Sys, how: Stop) returns (s': Sys)
    requires Ran(s, Running(SEVEN), Exec)
    ensures Enabled(s, BodyStop(1, how)) && s' == Next(CodedPinTest(), s, BodyStop(1, how))
    ensures Ran(s', Returned(SEVEN), StateAfter(how))
  {
    s' := Next(CodedPinTest(), s, BodyStop(1, how));
    KnowAfterOut(s.m, 1);
  }

  lemma StepThenRun(skip: PinTest, s: Sys, a: Step, rest: seq<Step>)
    requires Enabled(s, a) && Allowed(s, a) && Run(skip, Next(skip, s, a), rest)
    ensures Run(skip, s, [a] + rest) && After(skip, s, [a] + rest) == After(skip, Next(skip, s, a), rest)
  {
    assert ([a] + rest)[1..] == rest;
  }

  /** A run from the start that leaves task 7 with worker 1, which has just got control back. */
  lemma Begins(how: Stop) returns (s: Sys, steps: seq<Step>)
    ensures Start(ThreeWorkers()) && Run(CodedPinTest(), ThreeWorkers(), steps)
    ensures s == After(CodedPinTest(), ThreeWorkers(), steps)
    ensures Ran(s, Returned(SEVEN), StateAfter(how))
  {
    var skip := CodedPinTest();
    ThreeWorkersStart();
    var s1 := FirstStep();
    var s2 := SecondStep(s1);
    var s3 := ThirdStep(s2);
    s := FourthStep(s3, how);
    assert Run(skip, s, []) && After(skip, s, []) == s;
    steps := [BodyStop(1, how)] + [];
    StepThenRun(skip, s3, BodyStop(1, how), []);
    StepThenRun(skip, s2, Dispatch(1), steps);
    steps := [Dispatch(1)] + steps;
    StepThenRun(skip, s1, Scan(1), steps);
    steps := [Scan(1)] + steps;
    StepThenRun(skip, ThreeWorkers(), SubmitCallback(7, 0), steps);
    steps := [SubmitCallback(7, 0)] + steps;
  }

  /** The code can do these steps, whether or not callers should make it. */
  ghost predicate Does(s: Sys, steps: seq<Step>, s': Sys)
    decreases |steps|
  {
    if steps == [] then s' == s
    else Enabled(s, steps[0]) && Does(Next(CodedPinTest(), s, steps[0]), steps[1..], s')
  }

  lemma DoesThen(s: Sys, a: Step, rest: seq<Step>, s': Sys)
    requires Enabled(s, a) && Does(Next(CodedPinTest(), s, a), rest, s')
    ensures Does(s, [a] + rest, s')
  {
    assert ([a] + rest)[1..] == rest;
  }

  /** The queue holds the fiber twice, and two workers are at their loop heads. */
  predicate Twice(s: Sys) {
    && s.queue == [SEVEN, SEVEN] && 7 in s.fibers && s.fibers[7] == Ready && AllKnow(s.m)
    && 1 in s.workers && s.workers[1].pc == Loop && 3 in s.workers && s.workers[3].pc == Loop
  }

  /** Submitted while worker 1 holds it, promoted by worker 2, requeued by worker 1. */
  lemma HeldHoldDuplicates(s: Sys) returns (s': Sys)
    requires Ran(s, Returned(SEVEN), Hold)
    ensures !Submittable(s, 7)
    ensures Does(s, [SubmitFiber(7, 0), Scan(2), Decrement(1), Settle(1)], s') && Twice(s')
  {
    assert HeldBy(s, 1, 7);
    var s1 := Resubmits(s);
    var s2 := Promotes(s1);
    var s3 := Decrements(s2);
    s' := Settled(s3);
    DoesThen(s3, Settle(1), [], s');
    DoesThen(s2, Decrement(1), [Settle(1)], s');
    DoesThen(s1, Scan(2), [Decrement(1), Settle(1)], s');
    DoesThen(s, SubmitFiber(7, 0), [Scan(2), Decrement(1), Settle(1)], s');
  }

  /** Worker 1 still holds the fiber, which is queued again; worker 3 is at its loop head. */
  predicate Again(s: Sys, pc: Pc, state: State) {
    && s.queue == [SEVEN] && 7 in s.fibers && s.fibers[7] == state && AllKnow(s.m)
    && 1 in s.workers && s.workers[1].pc == pc && 3 in s.workers && s.workers[3].pc == Loop
  }

  lemma Resubmits(s: Sys) returns (s': Sys)
    requires Ran(s, Returned(SEVEN), Hold)
    ensures Enabled(s, SubmitFiber(7, 0)) && s' == Next(CodedPinTest(), s, SubmitFiber(7, 0))
    ensures Again(s', Returned(SEVEN), Hold) && 2 in s'.workers && s'.workers[2].pc == Loop
  {
    s' := Enqueue(s, SEVEN);
  }

  lemma Decrements(s: Sys) returns (s': Sys)
    requires Again(s, Returned(SEVEN), Ready)
    ensures Enabled(s, Decrement(1)) && s' == Next(CodedPinTest(), s, Decrement(1)) && Again(s', Released(SEVEN), Ready)
  {
    s' := Goto(s.(active := s.active - 1), 1, Released(SEVEN));
  }

  lemma Promotes(s: Sys) returns (s': Sys)
    requires Again(s, Returned(SEVEN), Hold) && 2 in s.workers && s.workers[2].pc == Loop
    ensures Enabled(s, Scan(2)) && s' == Next(CodedPinTest(), s, Scan(2)) && Again(s', Returned(SEVEN), Ready)
  {
    ScanPromotes(s);
    s' := Absorb(s, 2, Nothing(s.queue, s.fibers[7 := Ready]));
  }

  lemma ScanPromotes(s: Sys)
    requires s.queue == [SEVEN] && 7 in s.fibers && s.fibers[7] == Hold
    ensures ScanFrom(CodedPinTest(), 2, s.queue, 0, s.fibers) == Nothing(s.queue, s.fibers[7 := Ready])
  {}

  lemma Settled(s: Sys) returns (s': Sys)
    requires Again(s, Released(SEVEN), Ready)
    ensures Enabled(s, Settle(1)) && s' == Next(CodedPinTest(), s, Settle(1)) && Twice(s')
  {
    s' := DoSettle(s, 1, SEVEN);
    assert [SEVEN] + [SEVEN] == [SEVEN, SEVEN];
  }

  lemma TakesFirst(s: Sys, w: Thread, rest: seq<Entry>) returns (s': Sys)
    requires At(s, w) && s.workers[w].pc == Loop
    requires s.queue == [SEVEN] + rest && 7 in s.fibers && s.fibers[7] == Ready
    ensures Enabled(s, Scan(w)) && s' == Next(CodedPinTest(), s, Scan(w))
    ensures s'.queue == rest && s'.fibers == s.fibers && s'.m == s.m
    ensures s'.workers == s.workers[w := s.workers[w].(pc := Taken(SEVEN))]
  {
    s' := Next(CodedPinTest(), s, Scan(w));
    assert RemoveAt(s.queue, 0) == rest;
  }

  lemma Dispatches(s: Sys, w: Thread) returns (s': Sys)
    requires At(s, w) && s.workers[w].pc == Taken(SEVEN)
    ensures Enabled(s, Dispatch(w)) && s' == Next(CodedPinTest(), s, Dispatch(w))
    ensures s'.workers == s.workers[w := s.workers[w].(pc := Running(SEVEN))] && s'.m == SwapIn(s.m, w, TaskFiber(7))
  {
    s' := DoDispatch(s, w, SEVEN);
  }

  /** The context of a fiber that is running holds nothing that could be resumed. */
  lemma SecondSwapInFails(m: Machine)
    requires AllKnow(m)
    ensures
      var m1 := SwapIn(m, 1, TaskFiber(7));
      AllKnow(m1) && !SwapIn(m1, 3, TaskFiber(7)).ok
  {
    var m1 := SwapIn(m, 1, TaskFiber(7));
    assert m1.sched == m.sched && (m1.ok ==> TaskFiber(7) !in m1.ctx);
  }

  /** Both entries are taken, and two workers run the same fiber. */
  lemma TwiceIsRunTwice(s: Sys) returns (s': Sys)
    requires Twice(s)
    ensures Does(s, [Scan(1), Scan(3), Dispatch(1), Dispatch(3)], s')
    ensures HeldBy(s', 1, 7) && HeldBy(s', 3, 7) && !s'.m.ok
  {
    assert s.queue == [SEVEN] + [SEVEN];
    var s1 := TakesFirst(s, 1, [SEVEN]);
    assert s1.queue == [SEVEN] + [];
    var s2 := TakesFirst(s1, 3, []);
    var s3 := Dispatches(s2, 1);
    SecondSwapInFails(s.m);
    s' := Dispatches(s3, 3);
    DoesThen(s3, Dispatch(3), [], s');
    DoesThen(s2, Dispatch(1), [Dispatch(3)], s');
    DoesThen(s1, Scan(3), [Dispatch(1), Dispatch(3)], s');
    DoesThen(s, Scan(1), [Scan(3), Dispatch(1), Dispatch(3)], s');
  }

  /** A fiber that was told to HOLD is resubmitted (say, by an event that fired) before the worker
      that still holds it has parked it: another worker's scan promotes it, the first worker then
      sees READY and requeues it, and the fiber is in the queue twice. Two workers then take it, and
      the second one resumes a context whose fiber is already running. */
  lemma EarlyResubmissionDuplicates() returns (steps: seq<Step>, twice: Sys, broken: Sys)
    ensures Start(ThreeWorkers()) && Run(CodedPinTest(), ThreeWorkers(), steps)
    ensures !Submittable(After(CodedPinTest(), ThreeWorkers(), steps), 7)
    ensures Does(After(CodedPinTest(), ThreeWorkers(), steps),
                 [SubmitFiber(7, 0), Scan(2), Decrement(1), Settle(1)], twice)
    ensures twice.queue == [SEVEN, SEVEN]
    ensures Does(twice, [Scan(1), Scan(3), Dispatch(1), Dispatch(3)], broken)
    ensures HeldBy(broken, 1, 7) && HeldBy(broken, 3, 7) && !broken.m.ok
  {
    var s;
    s, steps := Begins(YieldHold);
    twice := HeldHoldDuplicates(s);
    broken := TwiceIsRunTwice(twice);
  }

  /** Between the decrement and the requeue a snapshot of isStoped is true although the task has
      not finished; one step later it is back in the queue. */
  lemma StoppedInTheWindow() returns (steps: seq<Step>)
    ensures Start(ThreeWorkers()) && Run(CodedPinTest(), ThreeWorkers(), steps)
    ensures
      var s := After(CodedPinTest(), ThreeWorkers(), steps);
      && Enabled(s, Decrement(1))
      && var s1 := Next(CodedPinTest(), s, Decrement(1));
      && IsStoped(s1) && Enabled(s1, Settle(1))
      && Next(CodedPinTest(), s1, Settle(1)).queue == [SEVEN]
  {
    var s;
    s, steps := Begins(YieldReady);
  }

  /** The pin test passes over an entry exactly on the thread it is pinned to. */
  lemma PinnedEntrySkipsItsThread(thread: Thread, t: Task, me: Thread)
    requires thread != 0
    ensures ScanFrom(CodedPinTest(), me, [Entry(None, Some(t), thread)], 0, map[]).Took? <==> me != thread
  {}
}
