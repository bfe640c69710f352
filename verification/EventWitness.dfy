/** A concrete run for the one exception to the result about IOManager::isStoped. */
module EventWitness {
  import opened Fibers
  import opened RunQueue
  import opened Control
  import opened Protocol
  import opened AnySubmission
  import opened EventStop
  import opened Witnesses

  ghost predicate Reaches(io0: Io, io: Io) {
    exists steps :: IoRun(CodedPinTest(), io0, steps) && IoAfter(CodedPinTest(), io0, steps) == io
  }

  lemma {:induction false} RunThen(io: Io, steps: seq<IoStep>, b: IoStep)
    requires IoRun(CodedPinTest(), io, steps) && IoEnabled(IoAfter(CodedPinTest(), io, steps), b)
    ensures IoRun(CodedPinTest(), io, steps + [b])
    ensures IoAfter(CodedPinTest(), io, steps + [b]) ==
            IoNext(CodedPinTest(), IoAfter(CodedPinTest(), io, steps), b)
    decreases |steps|
  {
    if steps == [] {
      assert [] + [b] == [b];
      var io' := IoNext(CodedPinTest(), io, b);
      assert IoRun(CodedPinTest(), io', []) && [b][1..] == [];
    } else {
      assert (steps + [b])[1..] == steps[1..] + [b];
      RunThen(IoNext(CodedPinTest(), io, steps[0]), steps[1..], b);
    }
  }

  lemma ReachesThen(io0: Io, io: Io, b: IoStep)
    requires Reaches(io0, io) && IoEnabled(io, b)
    ensures Reaches(io0, IoNext(CodedPinTest(), io, b))
  {
    var steps :| IoRun(CodedPinTest(), io0, steps) && IoAfter(CodedPinTest(), io0, steps) == io;
    RunThen(io0, steps, b);
  }

  /** What the run below looks at. */
  datatype View = View(queue: seq<Entry>, fibers: States, pcs: map<Thread, Pc>, active: int)

  ghost predicate Looks(s: Sys, v: View) {
    && s.queue == v.queue && s.fibers == v.fibers && s.active == v.active && s.autoStop && s.stopping
    && s.workers.Keys == v.pcs.Keys && (forall w :: w in v.pcs ==> s.workers[w].pc == v.pcs[w] && Knows(s.m, w))
  }

  /** Where the run has come to, with no registration pending. */
  ghost predicate Here(io0: Io, io: Io, v: View, placed: set<Task>) {
    && Reaches(io0, io) && Looks(io.sys, v) && io.sys.place.Keys == placed
    && io.events == map[] && io.pending == 0
  }

  /** A step of a worker, once it is known how the workers look afterwards. */
  lemma Works(io0: Io, io: Io, v: View, placed: set<Task>, a: Step, v': View) returns (io': Io)
    requires Here(io0, io, v, placed) && Enabled(io.sys, a) && !a.CreateFiber? && !a.SubmitCallback?
    requires Looks(Next(CodedPinTest(), io.sys, a), v') && Next(CodedPinTest(), io.sys, a).place.Keys == placed
    requires a.Dispatch? ==> forall r :: r in io.awaited ==> io.awaited[r].t != TaskOf(io.sys.workers[a.w].pc.e)
    ensures Here(io0, io', v', placed) && io'.awaited == io.awaited
  {
    ReachesThen(io0, io, Work(a));
    io' := IoNext(CodedPinTest(), io, Work(a));
    if a.Dispatch? {
      assert NotOf(io.awaited, TaskOf(io.sys.workers[a.w].pc.e)) == io.awaited;
    }
  }

  lemma Submits(io0: Io, io: Io, v: View, placed: set<Task>, t: Task) returns (io': Io, v': View)
    requires Here(io0, io, v, placed) && t !in placed && t !in v.fibers
    ensures v' == v.(queue := v.queue + [Entry(None, Some(t), 0)])
    ensures Here(io0, io', v', placed + {t}) && io'.awaited == io.awaited
  {
    ReachesThen(io0, io, Work(SubmitCallback(t, 0)));
    io' := IoNext(CodedPinTest(), io, Work(SubmitCallback(t, 0)));
    v' := v.(queue := v.queue + [Entry(None, Some(t), 0)]);
  }

  lemma Takes(io0: Io, io: Io, v: View, placed: set<Task>, w: Thread, t: Task) returns (io': Io, v': View)
    requires Here(io0, io, v, placed) && w in v.pcs && v.pcs[w] == Loop && t in placed
    requires v.queue == [Entry(None, Some(t), 0)]
    ensures v' == v.(queue := [], pcs := v.pcs[w := Taken(Entry(None, Some(t), 0))], active := v.active + 1)
    ensures Here(io0, io', v', placed) && io'.awaited == io.awaited
  {
    v' := v.(queue := [], pcs := v.pcs[w := Taken(Entry(None, Some(t), 0))], active := v.active + 1);
    assert RemoveAt(v.queue, 0) == [];
    io' := Works(io0, io, v, placed, Scan(w), v');
  }

  /** A dispatch that enters task `t`, for which nothing is awaited. */
  lemma Enters(io0: Io, io: Io, v: View, placed: set<Task>, w: Thread, t: Task) returns (io': Io, v': View)
    requires Here(io0, io, v, placed) && w in v.pcs && v.pcs[w] == Taken(Entry(None, Some(t), 0))
    requires forall r :: r in io.awaited ==> io.awaited[r].t != t
    ensures v' == v.(fibers := v.fibers[t := Exec], pcs := v.pcs[w := Running(Entry(Some(t), None, 0))])
    ensures Here(io0, io', v', placed) && io'.awaited == io.awaited
  {
    v' := v.(fibers := v.fibers[t := Exec], pcs := v.pcs[w := Running(Entry(Some(t), None, 0))]);
    Invariant.DispatchShape(io.sys, w, Entry(None, Some(t), 0));
    DispatchKnows(io.sys, w, Entry(None, Some(t), 0));
    io' := Works(io0, io, v, placed, Dispatch(w), v');
  }

  lemma DispatchKnows(s: Sys, w: Thread, e: Entry)
    requires At(s, w) && Carries(e)
    ensures forall v :: Knows(s.m, v) ==> Knows(DoDispatch(s, w, e).m, v)
    ensures DoDispatch(s, w, e).autoStop == s.autoStop && DoDispatch(s, w, e).stopping == s.stopping
  {}

  /** The body of task `t` returns. */
  lemma Stops(io0: Io, io: Io, v: View, placed: set<Task>, w: Thread, t: Task) returns (io': Io, v': View)
    requires Here(io0, io, v, placed) && w in v.pcs && v.pcs[w] == Running(Entry(Some(t), None, 0))
    ensures v' == v.(fibers := v.fibers[t := Term], pcs := v.pcs[w := Returned(Entry(Some(t), None, 0))])
    ensures Here(io0, io', v', placed) && io'.awaited == io.awaited
  {
    v' := v.(fibers := v.fibers[t := Term], pcs := v.pcs[w := Returned(Entry(Some(t), None, 0))]);
    SwapOutKnows(io.sys.m, w);
    io' := Works(io0, io, v, placed, BodyStop(w, Return), v');
  }

  lemma SwapOutKnows(m: Machine, w: Thread)
    requires Knows(m, w)
    ensures forall v :: Knows(m, v) ==> Knows(SwapOut(m, w), v)
  {}

  lemma Decrements(io0: Io, io: Io, v: View, placed: set<Task>, w: Thread, t: Task) returns (io': Io, v': View)
    requires Here(io0, io, v, placed) && w in v.pcs && v.pcs[w] == Returned(Entry(Some(t), None, 0))
    ensures v' == v.(active := v.active - 1, pcs := v.pcs[w := Released(Entry(Some(t), None, 0))])
    ensures Here(io0, io', v', placed) && io'.awaited == io.awaited
  {
    v' := v.(active := v.active - 1, pcs := v.pcs[w := Released(Entry(Some(t), None, 0))]);
    io' := Works(io0, io, v, placed, Decrement(w), v');
  }

  /** The scan of worker 2 erases the entry of the finished fiber 7 and passes over the next one. */
  lemma Erases7(io0: Io, io: Io, v: View, placed: set<Task>, e: Entry) returns (io': Io, v': View)
    requires Here(io0, io, v, placed) && v.queue == [SEVEN, e] && 7 in v.fibers && v.fibers[7] == Term
    requires 2 in v.pcs && v.pcs[2] == Loop
    ensures v' == v.(queue := [e], pcs := v.pcs[2 := Empty])
    ensures Here(io0, io', v', placed) && io'.awaited == io.awaited
  {
    v' := v.(queue := [e], pcs := v.pcs[2 := Empty]);
    FinishedEntryIsErased(CodedPinTest(), 2, 7, e, v.fibers);
    io' := Works(io0, io, v, placed, Scan(2), v');
  }

  /** Fiber 7 waits for its event under registration 0, which has come to the given stage. */
  ghost predicate At0(io0: Io, io: Io, s: Sys, stage: Stage) {
    Reaches(io0, io) && io.sys == s && io.events == map[0 := Event(7, stage, true, true)] && io.pending == 1
  }

  lemma Registers(io0: Io, io: Io) returns (io': Io)
    requires Reaches(io0, io) && io.events == map[] && io.pending == 0 && io.awaited == map[]
    requires StateOf(io.sys.fibers, 7) == Exec
    ensures At0(io0, io', io.sys, Armed) && io'.awaited == map[]
  {
    ReachesThen(io0, io, Count(0, 7, true, true));
    var io1 := IoNext(CodedPinTest(), io, Count(0, 7, true, true));
    ReachesThen(io0, io1, Fill(0));
    io' := IoNext(CodedPinTest(), io1, Fill(0));
  }

  lemma Fires(io0: Io, io: Io, s: Sys) returns (io': Io)
    requires At0(io0, io, s, Armed) && io.awaited == map[] && 7 in s.fibers
    ensures At0(io0, io', Next(CodedPinTest(), s, SubmitFiber(7, 0)), Pushed)
    ensures io'.awaited == map[0 := Event(7, Armed, true, true)]
  {
    ReachesThen(io0, io, Clear(0));
    var io1 := IoNext(CodedPinTest(), io, Clear(0));
    ReachesThen(io0, io1, Hand(0));
    io' := IoNext(CodedPinTest(), io1, Hand(0));
  }

  /** Fiber 7 registers itself while it runs, the event fires at once, and it is scheduled. */
  lemma FiresEarly(io0: Io, io: Io, v: View, placed: set<Task>) returns (io': Io, v': View)
    requires Here(io0, io, v, placed) && io.awaited == map[] && StateOf(v.fibers, 7) == Exec && 7 in placed
    ensures v' == v.(queue := v.queue + [SEVEN])
    ensures Here(io0, io', v', placed) && io'.awaited == map[0 := Event(7, Armed, true, true)]
  {
    v' := v.(queue := v.queue + [SEVEN]);
    var io1 := Registers(io0, io);
    var io2 := Fires(io0, io1, io.sys);
    ReachesThen(io0, io2, Uncount(0));
    io' := IoNext(CodedPinTest(), io2, Uncount(0));
    assert io'.events == map[];
  }

  // ---- The run ----

  function Initially(): Io {
    Io(ThreeWorkers(), 0, map[], map[], {})
  }

  /** Some run from the start leads to a state that looks like this. */
  ghost predicate Seen(v: View, placed: set<Task>, awaited: map<nat, Event>) {
    exists io :: Here(Initially(), io, v, placed) && io.awaited == awaited
  }

  lemma SeenFirst()
    ensures Seen(View([], map[], Stand(Loop, Loop, Loop), 0), {}, map[])
  {
    var io0 := Initially();
    assert IoRun(CodedPinTest(), io0, []) && IoAfter(CodedPinTest(), io0, []) == io0;
    assert Here(io0, io0, View([], map[], Stand(Loop, Loop, Loop), 0), {});
  }

  /** In each of these `v'` is how it looks afterwards. */
  lemma SeenSubmit(v: View, placed: set<Task>, aw: map<nat, Event>, t: Task, v': View, placed': set<Task>)
    requires Seen(v, placed, aw) && t !in placed && t !in v.fibers
    requires v' == v.(queue := v'.queue) && v'.queue == v.queue + [Entry(None, Some(t), 0)] && placed' == placed + {t}
    ensures Seen(v', placed', aw)
  {
    var io :| Here(Initially(), io, v, placed) && io.awaited == aw;
    var io', v1 := Submits(Initially(), io, v, placed, t);
    assert v1 == v';
  }

  lemma SeenTake(v: View, placed: set<Task>, aw: map<nat, Event>, w: Thread, t: Task, v': View)
    requires Seen(v, placed, aw) && w in v.pcs && v.pcs[w] == Loop && t in placed
    requires v.queue == [Entry(None, Some(t), 0)]
    requires v' == View([], v.fibers, v.pcs[w := Taken(Entry(None, Some(t), 0))], v.active + 1)
    ensures Seen(v', placed, aw)
  {
    var io :| Here(Initially(), io, v, placed) && io.awaited == aw;
    var io', v1 := Takes(Initially(), io, v, placed, w, t);
    assert v1 == v';
  }

  lemma SeenEnter(v: View, placed: set<Task>, aw: map<nat, Event>, w: Thread, t: Task, v': View)
    requires Seen(v, placed, aw) && w in v.pcs && v.pcs[w] == Taken(Entry(None, Some(t), 0))
    requires forall r :: r in aw ==> aw[r].t != t
    requires v' == v.(fibers := v.fibers[t := Exec], pcs := v.pcs[w := Running(Entry(Some(t), None, 0))])
    ensures Seen(v', placed, aw)
  {
    var io :| Here(Initially(), io, v, placed) && io.awaited == aw;
    var io', v1 := Enters(Initially(), io, v, placed, w, t);
    assert v1 == v';
  }

  lemma SeenStop(v: View, placed: set<Task>, aw: map<nat, Event>, w: Thread, t: Task, v': View)
    requires Seen(v, placed, aw) && w in v.pcs && v.pcs[w] == Running(Entry(Some(t), None, 0))
    requires v' == v.(fibers := v.fibers[t := Term], pcs := v.pcs[w := Returned(Entry(Some(t), None, 0))])
    ensures Seen(v', placed, aw)
  {
    var io :| Here(Initially(), io, v, placed) && io.awaited == aw;
    var io', v1 := Stops(Initially(), io, v, placed, w, t);
    assert v1 == v';
  }

  lemma SeenDecrement(v: View, placed: set<Task>, aw: map<nat, Event>, w: Thread, t: Task, v': View)
    requires Seen(v, placed, aw) && w in v.pcs && v.pcs[w] == Returned(Entry(Some(t), None, 0))
    requires v' == v.(active := v.active - 1, pcs := v.pcs[w := Released(Entry(Some(t), None, 0))])
    ensures Seen(v', placed, aw)
  {
    var io :| Here(Initially(), io, v, placed) && io.awaited == aw;
    var io', v1 := Decrements(Initially(), io, v, placed, w, t);
    assert v1 == v';
  }

  lemma SeenFire(v: View, placed: set<Task>, v': View)
    requires Seen(v, placed, map[]) && StateOf(v.fibers, 7) == Exec && 7 in placed
    requires v' == v.(queue := v'.queue) && v'.queue == v.queue + [SEVEN]
    ensures Seen(v', placed, FIRED)
  {
    var io :| Here(Initially(), io, v, placed) && io.awaited == map[];
    var io', v1 := FiresEarly(Initially(), io, v, placed);
    assert v1 == v';
  }

  lemma SeenErase(v: View, placed: set<Task>, aw: map<nat, Event>, e: Entry, v': View)
    requires Seen(v, placed, aw) && v.queue == [SEVEN, e] && 7 in v.fibers && v.fibers[7] == Term
    requires 2 in v.pcs && v.pcs[2] == Loop && v' == v.(queue := [e], pcs := v.pcs[2 := Empty])
    ensures Seen(v', placed, aw)
  {
    var io :| Here(Initially(), io, v, placed) && io.awaited == aw;
    var io', v1 := Erases7(Initially(), io, v, placed, e);
    assert v1 == v';
  }

  const CALLBACK7 := Entry(None, Some(7), 0)
  const CALLBACK8 := Entry(None, Some(8), 0)
  const EIGHT := Entry(Some(8), None, 0)
  const FIRED := map[0 := Event(7, Armed, true, true)]

  /** Where the three workers are. */
  function Stand(p1: Pc, p2: Pc, p3: Pc): map<Thread, Pc> {
    map[1 := p1, 2 := p2, 3 := p3]
  }

  lemma First(p1: Pc, p2: Pc, p3: Pc, p: Pc)
    ensures Stand(p1, p2, p3)[1 := p] == Stand(p, p2, p3)
  {}

  lemma Second(p1: Pc, p2: Pc, p3: Pc, p: Pc)
    ensures Stand(p1, p2, p3)[2 := p] == Stand(p1, p, p3)
  {}

  lemma Third(p1: Pc, p2: Pc, p3: Pc, p: Pc)
    ensures Stand(p1, p2, p3)[3 := p] == Stand(p1, p2, p)
  {}

  lemma IsSubmitted()
    ensures Seen(View([CALLBACK7], map[], Stand(Loop, Loop, Loop), 0), {7}, map[])
  {
    SeenFirst();
    var v := View([], map[], Stand(Loop, Loop, Loop), 0);
    SeenSubmit(v, {}, map[], 7, View([CALLBACK7], map[], Stand(Loop, Loop, Loop), 0), {7});
  }

  lemma IsTaken()
    ensures Seen(View([], map[], Stand(Taken(CALLBACK7), Loop, Loop), 1), {7}, map[])
  {
    IsSubmitted();
    First(Loop, Loop, Loop, Taken(CALLBACK7));
    SeenTake(View([CALLBACK7], map[], Stand(Loop, Loop, Loop), 0), {7}, map[], 1, 7,
             View([], map[], Stand(Taken(CALLBACK7), Loop, Loop), 1));
  }

  lemma IsRunning()
    ensures Seen(View([], map[7 := Exec], Stand(Running(SEVEN), Loop, Loop), 1), {7}, map[])
  {
    IsTaken();
    First(Taken(CALLBACK7), Loop, Loop, Running(SEVEN));
    SeenEnter(View([], map[], Stand(Taken(CALLBACK7), Loop, Loop), 1), {7}, map[], 1, 7,
              View([], map[7 := Exec], Stand(Running(SEVEN), Loop, Loop), 1));
  }

  /** Fiber 7 is scheduled by its event while worker 1 runs it. */
  lemma HasFired()
    ensures Seen(View([SEVEN], map[7 := Exec], Stand(Running(SEVEN), Loop, Loop), 1), {7}, FIRED)
  {
    IsRunning();
    SeenFire(View([], map[7 := Exec], Stand(Running(SEVEN), Loop, Loop), 1), {7},
             View([SEVEN], map[7 := Exec], Stand(Running(SEVEN), Loop, Loop), 1));
  }

  lemma IsScheduled()
    ensures Seen(View([SEVEN, CALLBACK8], map[7 := Exec], Stand(Running(SEVEN), Loop, Loop), 1), {7, 8}, FIRED)
  {
    HasFired();
    SeenSubmit(View([SEVEN], map[7 := Exec], Stand(Running(SEVEN), Loop, Loop), 1), {7}, FIRED, 8,
               View([SEVEN, CALLBACK8], map[7 := Exec], Stand(Running(SEVEN), Loop, Loop), 1), {7, 8});
  }

  lemma HasEnded()
    ensures Seen(View([SEVEN, CALLBACK8], map[7 := Term], Stand(Returned(SEVEN), Loop, Loop), 1), {7, 8}, FIRED)
  {
    IsScheduled();
    First(Running(SEVEN), Loop, Loop, Returned(SEVEN));
    assert map[7 := Exec][7 := Term] == map[7 := Term];
    SeenStop(View([SEVEN, CALLBACK8], map[7 := Exec], Stand(Running(SEVEN), Loop, Loop), 1), {7, 8}, FIRED, 1, 7,
             View([SEVEN, CALLBACK8], map[7 := Term], Stand(Returned(SEVEN), Loop, Loop), 1));
  }

  /** The entry of fiber 7 is erased, and worker 1 counts itself out. */
  lemma IsErased()
    ensures Seen(View([CALLBACK8], map[7 := Term], Stand(Returned(SEVEN), Empty, Loop), 1), {7, 8}, FIRED)
  {
    HasEnded();
    Second(Returned(SEVEN), Loop, Loop, Empty);
    SeenErase(View([SEVEN, CALLBACK8], map[7 := Term], Stand(Returned(SEVEN), Loop, Loop), 1), {7, 8}, FIRED, CALLBACK8,
              View([CALLBACK8], map[7 := Term], Stand(Returned(SEVEN), Empty, Loop), 1));
  }

  lemma IsPassed()
    ensures Seen(View([CALLBACK8], map[7 := Term], Stand(Released(SEVEN), Empty, Loop), 0), {7, 8}, FIRED)
  {
    IsErased();
    First(Returned(SEVEN), Empty, Loop, Released(SEVEN));
    SeenDecrement(View([CALLBACK8], map[7 := Term], Stand(Returned(SEVEN), Empty, Loop), 1), {7, 8}, FIRED, 1, 7,
                  View([CALLBACK8], map[7 := Term], Stand(Released(SEVEN), Empty, Loop), 0));
  }

  /** Worker 3 takes the callback, runs it to its end and counts itself out. */
  lemma OtherIsTaken()
    ensures Seen(View([], map[7 := Term], Stand(Released(SEVEN), Empty, Taken(CALLBACK8)), 1), {7, 8}, FIRED)
  {
    IsPassed();
    Third(Released(SEVEN), Empty, Loop, Taken(CALLBACK8));
    SeenTake(View([CALLBACK8], map[7 := Term], Stand(Released(SEVEN), Empty, Loop), 0), {7, 8}, FIRED, 3, 8,
             View([], map[7 := Term], Stand(Released(SEVEN), Empty, Taken(CALLBACK8)), 1));
  }

  lemma OtherIsRunning()
    ensures Seen(View([], map[7 := Term, 8 := Exec], Stand(Released(SEVEN), Empty, Running(EIGHT)), 1), {7, 8}, FIRED)
  {
    OtherIsTaken();
    Third(Released(SEVEN), Empty, Taken(CALLBACK8), Running(EIGHT));
    SeenEnter(View([], map[7 := Term], Stand(Released(SEVEN), Empty, Taken(CALLBACK8)), 1), {7, 8}, FIRED, 3, 8,
              View([], map[7 := Term, 8 := Exec], Stand(Released(SEVEN), Empty, Running(EIGHT)), 1));
  }

  lemma OtherHasEnded()
    ensures Seen(View([], map[7 := Term, 8 := Term], Stand(Released(SEVEN), Empty, Returned(EIGHT)), 1), {7, 8}, FIRED)
  {
    OtherIsRunning();
    Third(Released(SEVEN), Empty, Running(EIGHT), Returned(EIGHT));
    assert map[7 := Term, 8 := Exec][8 := Term] == map[7 := Term, 8 := Term];
    SeenStop(View([], map[7 := Term, 8 := Exec], Stand(Released(SEVEN), Empty, Running(EIGHT)), 1), {7, 8}, FIRED, 3, 8,
             View([], map[7 := Term, 8 := Term], Stand(Released(SEVEN), Empty, Returned(EIGHT)), 1));
  }

  lemma IsForgotten()
    ensures Seen(View([], map[7 := Term, 8 := Term], Stand(Released(SEVEN), Empty, Released(EIGHT)), 0), {7, 8}, FIRED)
  {
    OtherHasEnded();
    Third(Released(SEVEN), Empty, Returned(EIGHT), Released(EIGHT));
    SeenDecrement(
      View([], map[7 := Term, 8 := Term], Stand(Released(SEVEN), Empty, Returned(EIGHT)), 1), {7, 8}, FIRED, 3, 8,
      View([], map[7 := Term, 8 := Term], Stand(Released(SEVEN), Empty, Released(EIGHT)), 0));
  }

  /** A fiber registers itself, is scheduled by its event while it still runs, and ends. The scan then
      erases its entry, and once the other work is done isStoped is true although the registration
      has fired and the fiber was never entered again. */
  lemma StoppedAlthoughAwaited() returns (steps: seq<IoStep>)
    ensures IoStart(Initially()) && IoRun(CodedPinTest(), Initially(), steps)
    ensures
      var io := IoAfter(CodedPinTest(), Initially(), steps);
      0 in io.awaited && io.awaited[0].own && IoIsStoped(io)
  {
    ThreeWorkersStart();
    IsForgotten();
    var v := View([], map[7 := Term, 8 := Term], Stand(Released(SEVEN), Empty, Released(EIGHT)), 0);
    var io :| Here(Initially(), io, v, {7, 8}) && io.awaited == FIRED;
    steps :| IoRun(CodedPinTest(), Initially(), steps) && IoAfter(CodedPinTest(), Initially(), steps) == io;
  }
}
