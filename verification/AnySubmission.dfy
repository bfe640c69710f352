/** What the worker protocol keeps even if callers submit fibers that are queued, held or finished:
    no entry disappears without having been taken, except for fibers whose body has ended. */
module AnySubmission {
  import opened Fibers
  import opened RunQueue
  import opened Protocol
  import opened Invariant

  predicate Usual(state: State) {
    state in {Init, Hold, Exec, Ready, Term, Except}
  }

  /** The entry carries work that was submitted, and its fiber exists. */
  predicate Known(s: Sys, e: Entry) {
    Carries(e) && TaskOf(e) in s.place && (e.fiber.Some? ==> TaskOf(e) in s.fibers)
  }

  ghost predicate EntriesKnown(s: Sys) {
    && (forall e :: e in s.queue ==> Known(s, e))
    && (forall w :: w in s.workers && Holding(s.workers[w].pc) ==> Known(s, s.workers[w].pc.e))
  }

  ghost predicate StatesUsual(st: States) {
    forall f :: f in st ==> Usual(st[f])
  }

  ghost predicate Loose(s: Sys) {
    CountInv(s) && EntriesKnown(s) && StatesUsual(s.fibers)
  }

  lemma StartIsLoose(s: Sys)
    requires Start(s)
    ensures Loose(s)
  {
    assert CountedWorkers(s) == {} && IdleWorkers(s) == {};
    forall w | w in s.workers ensures !Holding(s.workers[w].pc) { assert StartWorker(s, w); }
  }

  // ---- The scan of an arbitrary queue ----

  /** The scan erases an entry only for a fiber in none of the states it waits for. */
  predicate Erasable(e: Entry, st: States) {
    e.fiber.Some? && StateOf(st, e.fiber.value) !in {Init, Hold, Exec, Ready}
  }

  /** The scan promotes fibers and does nothing else to states. */
  ghost predicate OnlyPromotes(st: States, st': States) {
    && st'.Keys == st.Keys
    && forall f :: f in st ==> st'[f] == st[f] || (st'[f] == Ready && st[f] in {Init, Hold})
  }

  /** `q'` and what was taken are part of `q`, copy by copy, and only copies of erasable entries are
      missing. */
  ghost predicate LosesOnlyErasable(q: seq<Entry>, q': seq<Entry>, taken: multiset<Entry>, st: States) {
    forall e :: var left := multiset(q')[e] + taken[e];
      left <= multiset(q)[e] && (left < multiset(q)[e] ==> Erasable(e, st))
  }

  ghost predicate ScanLoses(q: seq<Entry>, st: States, r: ScanResult) {
    match r
    case Undefined => true
    case Nothing(q', st') => OnlyPromotes(st, st') && LosesOnlyErasable(q, q', multiset{}, st)
    case Took(_, x, q', st') => OnlyPromotes(st, st') && LosesOnlyErasable(q, q', multiset{x}, st)
  }

  lemma RemovedOne(q: seq<Entry>, k: nat)
    requires k < |q|
    ensures multiset(RemoveAt(q, k)) == multiset(q) - multiset{q[k]}
  {
    assert q == q[..k] + [q[k]] + q[k + 1..];
  }

  /** Erasing entry `k` first loses one copy of it more. */
  lemma ErasedFirst(q: seq<Entry>, k: nat, st: States, r: ScanResult)
    requires k < |q| && Erasable(q[k], st) && ScanLoses(RemoveAt(q, k), st, r)
    ensures ScanLoses(q, st, r)
  {
    RemovedOne(q, k);
  }

  /** What the numbers of copies say about membership. */
  lemma MembersOf(q: seq<Entry>, q': seq<Entry>, taken: multiset<Entry>, st: States, e: Entry)
    requires LosesOnlyErasable(q, q', taken, st)
    ensures e in q' || e in taken ==> e in q
    ensures e in q && e !in q' && e !in taken ==> Erasable(e, st)
  {
    assert multiset(q')[e] + taken[e] <= multiset(q)[e];
    assert (e in q <==> e in multiset(q)) && (e in q' <==> e in multiset(q'));
  }

  lemma {:induction false} ScanLosesOnlyErasable(skip: PinTest, me: Thread, q: seq<Entry>, i: nat, st: States)
    requires i <= |q|
    ensures ScanLoses(q, st, ScanFrom(skip, me, q, i, st))
    decreases |q| - i
  {
    if i < |q| && !skip(q[i].thread, me) {
      RemovedOne(q, i);
      if q[i].fiber.Some? {
        var f := q[i].fiber.value;
        match StateOf(st, f)
        case Init => ScanAfterPromotion(skip, me, q, i, st);
        case Hold => ScanAfterPromotion(skip, me, q, i, st);
        case Exec => ScanLosesOnlyErasable(skip, me, q, i + 1, st);
        case Ready =>
        case _ =>
          if i + 1 < |q| {
            ScanLosesOnlyErasable(skip, me, RemoveAt(q, i), i + 1, st);
            ErasedFirst(q, i, st, ScanFrom(skip, me, q, i, st));
          }
      }
    } else if i < |q| {
      ScanLosesOnlyErasable(skip, me, q, i + 1, st);
    }
  }

  lemma {:induction false} ScanAfterPromotion(skip: PinTest, me: Thread, q: seq<Entry>, i: nat, st: States)
    requires i < |q| && q[i].fiber.Some? && StateOf(st, q[i].fiber.value) in {Init, Hold}
    ensures ScanLoses(q, st, ScanFrom(skip, me, q, i + 1, st[q[i].fiber.value := Ready]))
    decreases |q| - i, 0
  {
    var f := q[i].fiber.value;
    ScanLosesOnlyErasable(skip, me, q, i + 1, st[f := Ready]);
    PromotedFirst(q, f, st, ScanFrom(skip, me, q, i + 1, st[f := Ready]));
  }

  lemma PromotedFirst(q: seq<Entry>, f: Task, st: States, r: ScanResult)
    requires StateOf(st, f) in {Init, Hold} && ScanLoses(q, st[f := Ready], r)
    ensures ScanLoses(q, st, r)
  {
    assert st[f := Ready].Keys == st.Keys;
    assert forall e :: Erasable(e, st[f := Ready]) ==> Erasable(e, st);
  }

  /** An entry of a finished fiber at the front of the queue is erased, and the next one passed over. */
  lemma FinishedEntryIsErased(skip: PinTest, me: Thread, f: Task, e: Entry, st: States)
    requires !skip(0, me) && f in st && Terminal(st[f])
    ensures ScanFrom(skip, me, [Entry(Some(f), None, 0), e], 0, st) == Nothing([e], st)
  {
    assert RemoveAt([Entry(Some(f), None, 0), e], 0) == [e];
  }

  // ---- Every step ----

  /** The names a step brings in. */
  predicate Names(a: Step, t: Task) {
    (a.CreateFiber? || a.SubmitFiber? || a.SubmitCallback?) && a.t == t
  }

  predicate StepOf(a: Step, w: Thread) {
    !(a.CreateFiber? || a.SubmitFiber? || a.SubmitCallback? || a.SubmitNull? || a.SetFlags?) && a.w == w
  }

  /** No worker moves but the one that takes the step. Tasks and fibers are only added, and only under
      the names the step brings in; a fiber is also made for a submitted callback. */
  ghost predicate GrowsBy(s: Sys, s': Sys, a: Step) {
    && s.place.Keys <= s'.place.Keys && s.fibers.Keys <= s'.fibers.Keys
    && s'.workers.Keys == s.workers.Keys
    && (forall w :: w in s.workers && !StepOf(a, w) ==> s'.workers[w] == s.workers[w])
    && (forall t :: t in s'.place && t !in s.place ==> Names(a, t))
    && (forall t :: t in s'.fibers && t !in s.fibers ==> Names(a, t) || t in s.place)
  }

  lemma KnownStays(s: Sys, s': Sys)
    requires EntriesKnown(s) && s.place.Keys <= s'.place.Keys && s.fibers.Keys <= s'.fibers.Keys
    requires forall e :: e in s'.queue && e !in s.queue ==> Known(s', e)
    requires forall w :: w in s'.workers && Holding(s'.workers[w].pc) ==>
      Known(s', s'.workers[w].pc.e) || (w in s.workers && s'.workers[w] == s.workers[w])
    ensures EntriesKnown(s')
  {}

  /** A step of worker `w` that touches the queue and the states only as stated. */
  lemma WorkerStepLoose(s: Sys, s': Sys, w: Thread)
    requires Loose(s) && w in s.workers && w in s'.workers && s'.workers == s.workers[w := s'.workers[w]]
    requires s.place.Keys <= s'.place.Keys && s.fibers.Keys <= s'.fibers.Keys && StatesUsual(s'.fibers)
    requires forall e :: e in s'.queue && e !in s.queue ==> Known(s', e)
    requires Holding(s'.workers[w].pc) ==> Known(s', s'.workers[w].pc.e)
    requires s'.active - s.active == (if Counted(s'.workers[w].pc) then 1 else 0)
                                   - (if Counted(s.workers[w].pc) then 1 else 0)
    requires s'.idling - s.idling == (if s'.workers[w].pc.Idling? || s'.workers[w].pc.IdleBack? then 1 else 0)
                                   - (if s.workers[w].pc.Idling? || s.workers[w].pc.IdleBack? then 1 else 0)
    ensures Loose(s')
  {
    CountsFollow(s, s', w);
    KnownStays(s, s');
  }

  lemma ScanLoose(skip: PinTest, s: Sys, w: Thread)
    requires Loose(s) && Enabled(s, Scan(w))
    ensures Loose(Next(skip, s, Scan(w))) && GrowsBy(s, Next(skip, s, Scan(w)), Scan(w))
  {
    ScanLosesOnlyErasable(skip, w, s.queue, 0, s.fibers);
    AbsorbLoose(s, w, ScanFrom(skip, w, s.queue, 0, s.fibers));
  }

  lemma ScannedAreKnown(s: Sys, r: ScanResult)
    requires Loose(s) && ScanLoses(s.queue, s.fibers, r) && !r.Undefined?
    ensures forall e :: e in r.queue ==> e in s.queue
    ensures r.Took? ==> Known(s, r.entry)
  {
    var taken := if r.Took? then multiset{r.entry} else multiset{};
    forall e | e in r.queue || e in taken ensures e in s.queue {
      MembersOf(s.queue, r.queue, taken, s.fibers, e);
    }
  }

  lemma AbsorbLoose(s: Sys, w: Thread, r: ScanResult)
    requires Loose(s) && At(s, w) && s.workers[w].pc.Loop? && ScanLoses(s.queue, s.fibers, r)
    ensures Loose(Absorb(s, w, r))
    ensures GrowsBy(s, Absorb(s, w, r), Scan(w))
  {
    if r.Undefined? {
      assert CountedWorkers(Absorb(s, w, r)) == CountedWorkers(s);
      assert IdleWorkers(Absorb(s, w, r)) == IdleWorkers(s);
    } else {
      ScannedAreKnown(s, r);
      WorkerStepLoose(s, Absorb(s, w, r), w);
    }
  }

  lemma DispatchLoose(s: Sys, w: Thread)
    requires Loose(s) && At(s, w) && s.workers[w].pc.Taken?
    ensures Loose(DoDispatch(s, w, s.workers[w].pc.e))
    ensures var s' := DoDispatch(s, w, s.workers[w].pc.e); GrowsBy(s, s', Dispatch(w))
  {
    assert Known(s, s.workers[w].pc.e);
    DispatchShape(s, w, s.workers[w].pc.e);
    WorkerStepLoose(s, DoDispatch(s, w, s.workers[w].pc.e), w);
  }

  lemma BodyStopLoose(skip: PinTest, s: Sys, w: Thread, how: Stop)
    requires Loose(s) && Enabled(s, BodyStop(w, how))
    ensures Loose(Next(skip, s, BodyStop(w, how)))
    ensures GrowsBy(s, Next(skip, s, BodyStop(w, how)), BodyStop(w, how))
  {
    assert Known(s, s.workers[w].pc.e);
    WorkerStepLoose(s, Next(skip, s, BodyStop(w, how)), w);
  }

  lemma SettleLoose(s: Sys, w: Thread)
    requires Loose(s) && At(s, w) && s.workers[w].pc.Released?
    ensures Loose(DoSettle(s, w, s.workers[w].pc.e))
    ensures GrowsBy(s, DoSettle(s, w, s.workers[w].pc.e), Settle(w))
  {
    assert Known(s, s.workers[w].pc.e);
    SettleShape(s, w, s.workers[w].pc.e);
    SettleQueue(s, w, s.workers[w].pc.e);
    SettleStates(s, w, s.workers[w].pc.e);
    WorkerStepLoose(s, DoSettle(s, w, s.workers[w].pc.e), w);
  }

  /** What letting go of a fiber does: to the workers and the counters, to the queue, and to states. */
  lemma SettleShape(s: Sys, w: Thread, e: Entry)
    requires At(s, w) && Carries(e)
    ensures
      var s' := DoSettle(s, w, e);
      && s'.workers == s.workers[w := s.workers[w].(pc := Loop)] && s'.active == s.active && s'.idling == s.idling
  {}

  lemma SettleQueue(s: Sys, w: Thread, e: Entry)
    requires At(s, w) && Carries(e)
    ensures DoSettle(s, w, e).queue == if StateOf(s.fibers, TaskOf(e)) == Ready then s.queue + [e] else s.queue
  {}

  lemma SettleStates(s: Sys, w: Thread, e: Entry)
    requires At(s, w) && Carries(e)
    ensures
      var s', t := DoSettle(s, w, e), TaskOf(e);
      && (s'.fibers == s.fibers || s'.fibers == s.fibers[t := Hold])
      && t in s'.place && s'.place.Keys == s.place.Keys + {t}
  {}

  lemma OwnStepLoose(skip: PinTest, s: Sys, a: Step)
    requires Loose(s) && Enabled(s, a) && (a.CallRoot? || a.Decrement? || a.Leave?)
    ensures Loose(Next(skip, s, a)) && GrowsBy(s, Next(skip, s, a), a)
  {
    if a.Decrement? { assert Known(s, s.workers[a.w].pc.e); }
    WorkerStepLoose(s, Next(skip, s, a), a.w);
  }

  lemma IdleStepLoose(skip: PinTest, s: Sys, a: Step)
    requires Loose(s) && Enabled(s, a) && (a.IdleSwapIn? || a.IdleStop? || a.IdleSettle?)
    ensures Loose(Next(skip, s, a)) && GrowsBy(s, Next(skip, s, a), a)
  {
    WorkerStepLoose(s, Next(skip, s, a), a.w);
  }

  lemma CallerStepLoose(skip: PinTest, s: Sys, a: Step)
    requires Loose(s) && Enabled(s, a)
    requires a.CreateFiber? || a.SubmitFiber? || a.SubmitCallback? || a.SubmitNull? || a.SetFlags?
    ensures Loose(Next(skip, s, a)) && GrowsBy(s, Next(skip, s, a), a)
  {
    CountsStay(s, Next(skip, s, a));
    KnownStays(s, Next(skip, s, a));
  }

  lemma StepLoose(skip: PinTest, s: Sys, a: Step)
    requires Loose(s) && Enabled(s, a)
    ensures Loose(Next(skip, s, a)) && GrowsBy(s, Next(skip, s, a), a)
  {
    match a
    case Scan(w) => ScanLoose(skip, s, w);
    case Dispatch(w) => DispatchLoose(s, w);
    case BodyStop(w, how) => BodyStopLoose(skip, s, w, how);
    case Settle(w) => SettleLoose(s, w);
    case CreateFiber(_) => CallerStepLoose(skip, s, a);
    case SubmitFiber(_, _) => CallerStepLoose(skip, s, a);
    case SubmitCallback(_, _) => CallerStepLoose(skip, s, a);
    case SubmitNull(_) => CallerStepLoose(skip, s, a);
    case SetFlags(_, _) => CallerStepLoose(skip, s, a);
    case CallRoot(_) => OwnStepLoose(skip, s, a);
    case Decrement(_) => OwnStepLoose(skip, s, a);
    case Leave(_) => OwnStepLoose(skip, s, a);
    case _ => IdleStepLoose(skip, s, a);
  }

  // ---- Where a submitted task is ----

  ghost predicate Listed(s: Sys, t: Task) {
    exists e :: e in s.queue && TaskOf(e) == t
  }

  predicate TakenBy(s: Sys, w: Thread, t: Task) {
    w in s.workers && s.workers[w].pc.Taken? && TaskOf(s.workers[w].pc.e) == t
  }

  /** The task is queued, or dequeued and not yet entered. */
  ghost predicate Awaiting(s: Sys, t: Task) {
    Listed(s, t) || exists w :: TakenBy(s, w, t)
  }

  predicate EntersTask(s: Sys, a: Step, t: Task) {
    a.Dispatch? && TakenBy(s, a.w, t)
  }

  /** The step finds an entry of the task that the scan erases. */
  ghost predicate Erases(s: Sys, a: Step, t: Task) {
    a.Scan? && exists e :: e in s.queue && TaskOf(e) == t && Erasable(e, s.fibers)
  }

  lemma QueueOnlyGrows(skip: PinTest, s: Sys, a: Step)
    requires Loose(s) && Enabled(s, a) && !a.Scan?
    ensures s.queue <= Next(skip, s, a).queue
  {
    if a.Dispatch? {
      assert Known(s, s.workers[a.w].pc.e);
      DispatchShape(s, a.w, s.workers[a.w].pc.e);
    } else if a.Settle? {
      assert Known(s, s.workers[a.w].pc.e);
      SettleQueue(s, a.w, s.workers[a.w].pc.e);
    }
  }

  lemma AbsorbKeepsAwaiting(s: Sys, w: Thread, r: ScanResult, e: Entry)
    requires Loose(s) && At(s, w) && ScanLoses(s.queue, s.fibers, r) && e in s.queue
    ensures Awaiting(Absorb(s, w, r), TaskOf(e)) || Erasable(e, s.fibers)
  {
    if r.Took? && r.entry == e {
      assert TakenBy(Absorb(s, w, r), w, TaskOf(e));
    } else if !Erasable(e, s.fibers) {
      assert e in Absorb(s, w, r).queue;
    }
  }

  /** A waiting task goes on waiting until it is entered, unless its entry is erased. */
  lemma StaysAwaiting(skip: PinTest, s: Sys, a: Step, t: Task)
    requires Loose(s) && Enabled(s, a) && Awaiting(s, t) && !EntersTask(s, a, t)
    ensures Awaiting(Next(skip, s, a), t) || Erases(s, a, t)
  {
    if Listed(s, t) {
      var e :| e in s.queue && TaskOf(e) == t;
      if a.Scan? {
        ScanLosesOnlyErasable(skip, a.w, s.queue, 0, s.fibers);
        AbsorbKeepsAwaiting(s, a.w, ScanFrom(skip, a.w, s.queue, 0, s.fibers), e);
      } else {
        QueueOnlyGrows(skip, s, a);
        assert e in Next(skip, s, a).queue;
      }
    } else {
      var w :| TakenBy(s, w, t);
      assert !StepOf(a, w);
      StepLoose(skip, s, a);
      assert TakenBy(Next(skip, s, a), w, t);
    }
  }

  /** A fiber gets a terminal state only when its body ends. */
  lemma EndsOnlyByStop(skip: PinTest, s: Sys, a: Step, t: Task)
    requires Loose(s) && Enabled(s, a) && Terminal(StateOf(Next(skip, s, a).fibers, t))
    ensures Terminal(StateOf(s.fibers, t)) ||
            (a.BodyStop? && Terminal(StateAfter(a.how)) && t == TaskOf(s.workers[a.w].pc.e))
  {
    if a.Scan? {
      ScanLosesOnlyErasable(skip, a.w, s.queue, 0, s.fibers);
      AbsorbEndsNothing(s, a.w, ScanFrom(skip, a.w, s.queue, 0, s.fibers), t);
    } else if a.Dispatch? || a.Settle? {
      SwitchEndsNothing(skip, s, a, t);
    } else {
      OtherEndsNothing(skip, s, a, t);
    }
  }

  lemma AbsorbEndsNothing(s: Sys, w: Thread, r: ScanResult, t: Task)
    requires At(s, w) && ScanLoses(s.queue, s.fibers, r) && Terminal(StateOf(Absorb(s, w, r).fibers, t))
    ensures Terminal(StateOf(s.fibers, t))
  {}

  lemma SwitchEndsNothing(skip: PinTest, s: Sys, a: Step, t: Task)
    requires Loose(s) && Enabled(s, a) && (a.Dispatch? || a.Settle?)
    requires Terminal(StateOf(Next(skip, s, a).fibers, t))
    ensures Terminal(StateOf(s.fibers, t))
  {
    var e := s.workers[a.w].pc.e;
    assert Known(s, e);
    if a.Dispatch? { DispatchShape(s, a.w, e); } else { SettleStates(s, a.w, e); }
  }

  lemma OtherEndsNothing(skip: PinTest, s: Sys, a: Step, t: Task)
    requires Enabled(s, a) && !a.Scan? && !a.Dispatch? && !a.Settle?
    requires Terminal(StateOf(Next(skip, s, a).fibers, t))
    ensures Terminal(StateOf(s.fibers, t)) ||
            (a.BodyStop? && Terminal(StateAfter(a.how)) && t == TaskOf(s.workers[a.w].pc.e))
  {}

  // ---- Fibers that are scheduled too late ----

  /** A worker has entered the task and has not let go of it. */
  predicate Busy(s: Sys, w: Thread, t: Task) {
    && w in s.workers && (s.workers[w].pc.Running? || s.workers[w].pc.Returned? || s.workers[w].pc.Released?)
    && TaskOf(s.workers[w].pc.e) == t
  }

  /** The task is in the hands of a worker that has entered it, or its fiber has finished. */
  ghost predicate Late(s: Sys, t: Task) {
    (exists w :: Busy(s, w, t)) || Terminal(StateOf(s.fibers, t))
  }

  lemma BusyStays(skip: PinTest, s: Sys, a: Step, w: Thread, t: Task)
    requires Loose(s) && Enabled(s, a) && Busy(Next(skip, s, a), w, t) && !EntersTask(s, a, t)
    ensures Busy(s, w, t)
  {
    StepLoose(skip, s, a);
    if StepOf(a, w) {
      if a.Dispatch? || a.Settle? || a.Scan? {
        BusyAfterSwitch(skip, s, a, w, t);
      } else {
        BusyAfterOther(skip, s, a, w, t);
      }
    }
  }

  lemma BusyAfterOther(skip: PinTest, s: Sys, a: Step, w: Thread, t: Task)
    requires Enabled(s, a) && StepOf(a, w) && !a.Dispatch? && !a.Settle? && !a.Scan?
    requires Busy(Next(skip, s, a), w, t)
    ensures Busy(s, w, t)
  {}

  lemma BusyAfterSwitch(skip: PinTest, s: Sys, a: Step, w: Thread, t: Task)
    requires Loose(s) && Enabled(s, a) && (a.Dispatch? || a.Settle? || a.Scan?) && a.w == w && !EntersTask(s, a, t)
    ensures !Busy(Next(skip, s, a), w, t)
  {
    if a.Scan? {
      AbsorbIsNotBusy(s, w, ScanFrom(skip, w, s.queue, 0, s.fibers), t);
    } else {
      var e := s.workers[w].pc.e;
      assert Known(s, e);
      if a.Dispatch? { DispatchShape(s, w, e); } else { SettleShape(s, w, e); }
    }
  }

  lemma AbsorbIsNotBusy(s: Sys, w: Thread, r: ScanResult, t: Task)
    requires At(s, w) && s.workers[w].pc.Loop?
    ensures !Busy(Absorb(s, w, r), w, t)
  {}

  /** Nothing but entering it makes a task late. */
  lemma NotLateStays(skip: PinTest, s: Sys, a: Step, t: Task)
    requires Loose(s) && Enabled(s, a) && !Late(s, t) && !EntersTask(s, a, t)
    ensures !Late(Next(skip, s, a), t)
  {
    var s' := Next(skip, s, a);
    forall w ensures !Busy(s', w, t) {
      if Busy(s', w, t) { BusyStays(skip, s, a, w, t); }
    }
    if Terminal(StateOf(s'.fibers, t)) {
      EndsOnlyByStop(skip, s, a, t);
      assert Busy(s, a.w, t);
    }
  }

  /** No scan erases an entry of a task that is not late. */
  lemma NotLateNotErased(s: Sys, a: Step, t: Task)
    requires Loose(s) && !Late(s, t)
    ensures !Erases(s, a, t)
  {
    forall e | e in s.queue && TaskOf(e) == t ensures !Erasable(e, s.fibers) {
      assert Known(s, e);
    }
  }

  /** A fiber that callers may submit is not late. */
  lemma SubmittableIsNotLate(s: Sys, t: Task)
    requires Submittable(s, t)
    ensures !Late(s, t)
  {
    forall w ensures !Busy(s, w, t) {
      assert w in s.workers ==> !HeldBy(s, w, t);
    }
  }

  lemma AwaitingIsSeen(s: Sys, t: Task)
    requires Loose(s) && Awaiting(s, t)
    ensures !IsStoped(s)
  {
    if !Listed(s, t) {
      var w :| TakenBy(s, w, t);
      assert w in CountedWorkers(s);
    }
  }
}
