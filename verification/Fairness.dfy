/** Bounded bypass: how often later entries of the run queue may overtake an earlier one. */
module Fairness {
  import opened Fibers
  import opened RunQueue
  import opened Protocol
  import opened Invariant

  /** The step is a scan that takes an entry standing behind the one of `t`. */
  ghost predicate Overtakes(skip: PinTest, s: Sys, a: Step, t: Task) {
    && a.Scan?
    && var r := ScanFrom(skip, a.w, s.queue, 0, s.fibers);
       r.Took? && exists p :: 0 <= p < r.index && p < |s.queue| && TaskOf(s.queue[p]) == t
  }

  /** No worker passes over the entries of `t` because of their pin. */
  ghost predicate Unpinned(skip: PinTest, s: Sys, t: Task) {
    forall i, me: Thread :: 0 <= i < |s.queue| && TaskOf(s.queue[i]) == t ==> !skip(s.queue[i].thread, me)
  }

  /** The queued task is a callback or a READY fiber. */
  ghost predicate Due(s: Sys, t: Task) {
    t !in s.fibers || s.fibers[t] == Ready
  }

  /** The task is queued and unpinned in every state of the run. */
  ghost predicate QueuedThroughout(skip: PinTest, s: Sys, steps: seq<Step>, t: Task)
    requires Run(skip, s, steps)
    decreases |steps|
  {
    && InQueue(s, t) && Unpinned(skip, s, t)
    && (steps == [] || QueuedThroughout(skip, Next(skip, s, steps[0]), steps[1..], t))
  }

  ghost function Overtakings(skip: PinTest, s: Sys, steps: seq<Step>, t: Task): nat
    requires Run(skip, s, steps)
    decreases |steps|
  {
    if steps == [] then 0
    else (if Overtakes(skip, s, steps[0], t) then 1 else 0) + Overtakings(skip, Next(skip, s, steps[0]), steps[1..], t)
  }

  /** While an unpinned task waits in the queue, it is never overtaken if it is a callback or a
      READY fiber, and at most once, by all workers together, if its fiber is INIT or HOLD. */
  lemma BoundedBypass(skip: PinTest, s0: Sys, before: seq<Step>, steps: seq<Step>, t: Task)
    requires Start(s0) && Run(skip, s0, before)
    requires Run(skip, After(skip, s0, before), steps)
    requires QueuedThroughout(skip, After(skip, s0, before), steps, t)
    ensures Overtakings(skip, After(skip, s0, before), steps, t) <= if Due(After(skip, s0, before), t) then 0 else 1
  {
    StartHolds(s0);
    RunKeeps(skip, s0, before);
    BypassFrom(skip, After(skip, s0, before), steps, t);
  }

  lemma {:induction false} BypassFrom(skip: PinTest, s: Sys, steps: seq<Step>, t: Task)
    requires Inv(s) && Run(skip, s, steps) && QueuedThroughout(skip, s, steps, t)
    ensures Overtakings(skip, s, steps, t) <= if Due(s, t) then 0 else 1
    decreases |steps|
  {
    if steps != [] {
      var s' := Next(skip, s, steps[0]);
      StepKeeps(skip, s, steps[0]);
      assert InQueue(s', t);
      OvertakingPromotes(skip, s, steps[0], t);
      BypassFrom(skip, s', steps[1..], t);
    }
  }

  lemma OvertakingPromotes(skip: PinTest, s: Sys, a: Step, t: Task)
    requires Inv(s) && Enabled(s, a) && Allowed(s, a)
    requires InQueue(s, t) && Unpinned(skip, s, t) && InQueue(Next(skip, s, a), t)
    ensures Due(s, t) ==> Due(Next(skip, s, a), t) && !Overtakes(skip, s, a, t)
    ensures Overtakes(skip, s, a, t) ==> Due(Next(skip, s, a), t)
  {
    var p :| 0 <= p < |s.queue| && TaskOf(s.queue[p]) == t;
    assert QueuedEntry(s, s.queue[p]);
    if a.Scan? {
      ScanBypass(skip, s, a.w, p);
    } else {
      OtherStep(skip, s, a, t);
    }
  }

  lemma ScanBypass(skip: PinTest, s: Sys, w: Thread, p: nat)
    requires QueueInv(s) && Enabled(s, Scan(w)) && p < |s.queue| && !skip(s.queue[p].thread, w)
    ensures
      var t, s' := TaskOf(s.queue[p]), Next(skip, s, Scan(w));
      && (Due(s, t) ==> Due(s', t) && !Overtakes(skip, s, Scan(w), t))
      && (Overtakes(skip, s, Scan(w), t) ==> Due(s', t))
  {
    var r := ScanFrom(skip, w, s.queue, 0, s.fibers);
    QueueIsHealthy(s);
    ScanIsExact(skip, w, s.queue, 0, s.fibers);
    ScanOvertaking(skip, s, w, p, r);
    assert Next(skip, s, Scan(w)).fibers == r.states;
    forall q | 0 <= q < |s.queue| && TaskOf(s.queue[q]) == TaskOf(s.queue[p]) ensures q == p {}
  }

  lemma ScanOvertaking(skip: PinTest, s: Sys, w: Thread, p: nat, r: ScanResult)
    requires QueueInv(s) && Healthy(s.queue, s.fibers) && p < |s.queue| && !skip(s.queue[p].thread, w)
    requires ScanOutcome(skip, w, s.queue, 0, s.fibers, r)
    ensures
      var t := TaskOf(s.queue[p]);
      && (r.Took? && p < r.index ==> !Due(s, t) && t in r.states && r.states[t] == Ready)
      && (Due(s, t) ==> t !in r.states || r.states[t] == Ready)
  {
    assert QueuedEntry(s, s.queue[p]);
    if r.Took? && p < r.index {
      assert !Eligible(skip, w, s.queue[p], s.fibers);
      assert Waits(skip, w, s.queue[p], s.fibers);
    }
  }

  /** A step that is not a scan leaves the fiber of a queued task alone. */
  lemma OtherStep(skip: PinTest, s: Sys, a: Step, t: Task)
    requires Inv(s) && Enabled(s, a) && Allowed(s, a) && !a.Scan? && IsQueued(s, t)
    ensures
      var s' := Next(skip, s, a);
      StateOf(s'.fibers, t) == StateOf(s.fibers, t) && (t in s'.fibers <==> t in s.fibers)
  {
    match a
    case Dispatch(w) =>
      assert HeldEntry(s, w, s.workers[w].pc);
      DispatchShape(s, w, s.workers[w].pc.e);
    case BodyStop(w, _) => assert HeldEntry(s, w, s.workers[w].pc);
    case Settle(w) => assert HeldEntry(s, w, s.workers[w].pc);
    case _ =>
  }
}
