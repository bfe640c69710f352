/** IOManager::isStoped against events that fire: registration, trigger and the pending counter
    as micro-steps interleaved with every step of the workers and with arbitrary submissions. */
module EventStop {
  import opened Fibers
  import opened RunQueue
  import opened Protocol
  import opened Invariant
  import opened AnySubmission

  /** How far one registration has come. */
  datatype Stage =
    | Counting  // addEvent has incremented m_pendingEventCount, the context is not filled yet
    | Armed     // the context holds the callback or fiber
    | Cleared   // triggerEvent has cleared the event bit, nothing is scheduled yet
    | Pushed    // the callback or fiber is scheduled, the counter is not decremented yet

  /** One registration, of callback or fiber `t`; a fiber may have several. `own`: the registering
      thread belonged to this manager, so it is the one that schedules it. */
  datatype Event = Event(t: Task, stage: Stage, isFiber: bool, own: bool)

  /** The manager with its workers. Two fields are histories: `awaited` holds the registrations that
      have fired and whose callback or fiber was not entered since, `ended` the tasks whose body has
      ended. */
  datatype Io = Io(sys: Sys, pending: int, events: map<nat, Event>, awaited: map<nat, Event>, ended: set<Task>)

  datatype IoStep =
    | Work(a: Step)
    | Count(r: nat, t: Task, isFiber: bool, own: bool)  // m_pendingEventCount++
    | Fill(r: nat)                                      // the rest of addEvent
    | Delete(r: nat)                                    // delEvent
    | Clear(r: nat)                                     // events &= ~event
    | Hand(r: nat)                                      // ctx.scheduler->schedule(...)
    | Uncount(r: nat)                                   // m_pendingEventCount--

  predicate AtStage(io: Io, r: nat, stage: Stage) {
    r in io.events && io.events[r].stage == stage
  }

  predicate Unnamed(io: Io, t: Task) {
    t !in io.sys.fibers && t !in io.sys.place && forall r :: r in io.events ==> io.events[r].t != t
  }

  function Submission(e: Event): Step {
    if e.isFiber then SubmitFiber(e.t, 0) else SubmitCallback(e.t, 0)
  }

  /** When the code can take a step. A fiber registers itself while it runs; what is new gets a name
      of its own. Nothing is assumed about when a fiber is submitted or its event fires. */
  predicate IoEnabled(io: Io, b: IoStep) {
    match b
    case Work(a) => Enabled(io.sys, a) && (a.CreateFiber? || a.SubmitCallback? ==> Unnamed(io, a.t))
    case Count(r, t, isFiber, _) =>
      && r !in io.events && r !in io.awaited
      && if isFiber then StateOf(io.sys.fibers, t) == Exec else Unnamed(io, t)
    case Fill(r) => AtStage(io, r, Counting)
    case Delete(r) => AtStage(io, r, Armed)
    case Clear(r) => AtStage(io, r, Armed)
    case Hand(r) => AtStage(io, r, Cleared) && (io.events[r].own ==> Enabled(io.sys, Submission(io.events[r])))
    case Uncount(r) => AtStage(io, r, Pushed)
  }

  /** The scheduler's own rule: fibers are submitted only while unfinished, not queued and not held. */
  ghost predicate HandAllowed(io: Io, r: nat) {
    r in io.events && io.events[r].own ==> Allowed(io.sys, Submission(io.events[r]))
  }

  function Advance(io: Io, r: nat, stage: Stage): Io
    requires r in io.events
  {
    io.(events := io.events[r := io.events[r].(stage := stage)])
  }

  function NotOf(m: map<nat, Event>, t: Task): map<nat, Event> {
    map r | r in m && m[r].t != t :: m[r]
  }

  function IoNext(skip: PinTest, io: Io, b: IoStep): Io
    requires IoEnabled(io, b)
  {
    match b
    case Work(a) =>
      io.(sys := Next(skip, io.sys, a),
          awaited := if a.Dispatch? then NotOf(io.awaited, TaskOf(io.sys.workers[a.w].pc.e)) else io.awaited,
          ended := if a.BodyStop? && Terminal(StateAfter(a.how)) then io.ended + {TaskOf(io.sys.workers[a.w].pc.e)}
                   else io.ended)
    case Count(r, t, isFiber, own) =>
      io.(pending := io.pending + 1, events := io.events[r := Event(t, Counting, isFiber, own)])
    case Fill(r) => Advance(io, r, Armed)
    case Delete(r) => io.(pending := io.pending - 1, events := io.events - {r})
    case Clear(r) => Advance(io, r, Cleared).(awaited := io.awaited[r := io.events[r]])
    case Hand(r) =>
      Advance(io, r, Pushed).(sys := if io.events[r].own then Next(skip, io.sys, Submission(io.events[r])) else io.sys)
    case Uncount(r) => io.(pending := io.pending - 1, events := io.events - {r})
  }

  /** A snapshot of IOManager::isStoped. */
  predicate IoIsStoped(io: Io) {
    io.pending == 0 && IsStoped(io.sys)
  }

  ghost predicate IoStart(io: Io) {
    Start(io.sys) && io.pending == 0 && io.events == map[] && io.awaited == map[] && io.ended == {}
  }

  ghost predicate IoRun(skip: PinTest, io: Io, steps: seq<IoStep>)
    decreases |steps|
  {
    steps == [] || (IoEnabled(io, steps[0]) && IoRun(skip, IoNext(skip, io, steps[0]), steps[1..]))
  }

  ghost function IoAfter(skip: PinTest, io: Io, steps: seq<IoStep>): Io
    requires IoRun(skip, io, steps)
    decreases |steps|
  {
    if steps == [] then io else IoAfter(skip, IoNext(skip, io, steps[0]), steps[1..])
  }

  // ---- How one registration is handed over ----

  /** Registration `r` is handed over while its task is in the hands of a worker that has entered it,
      or after its fiber has finished. */
  ghost predicate LateHand(io: Io, b: IoStep, r: nat) {
    b == Hand(r) && r in io.events && io.events[r].own && Late(io.sys, io.events[r].t)
  }

  /** Whether the hand-over of registration `r`, counted last under this number, was late. */
  ghost function LateNow(io: Io, b: IoStep, r: nat, late: bool): bool {
    if b.Count? && b.r == r then false else late || LateHand(io, b, r)
  }

  ghost predicate HandedLate(skip: PinTest, io: Io, steps: seq<IoStep>, r: nat, late: bool)
    requires IoRun(skip, io, steps)
    decreases |steps|
  {
    if steps == [] then late
    else HandedLate(skip, IoNext(skip, io, steps[0]), steps[1..], r, LateNow(io, steps[0], r, late))
  }

  /** Whenever registration `r` was handed over, the scheduler's rule allowed it. */
  ghost predicate RuleKept(skip: PinTest, io: Io, steps: seq<IoStep>, r: nat)
    requires IoRun(skip, io, steps)
    decreases |steps|
  {
    steps == [] ||
    ((steps[0] == Hand(r) ==> HandAllowed(io, r)) && RuleKept(skip, IoNext(skip, io, steps[0]), steps[1..], r))
  }

  // ---- Proof ----

  /** A fired registration is seen by one of the three things isStoped looks at. */
  ghost predicate Covered(io: Io, r: nat, t: Task) {
    AtStage(io, r, Cleared) || Awaiting(io.sys, t)
  }

  /** The registration waits under a name that nothing else has yet. */
  predicate Reserves(e: Event) {
    !e.isFiber && !e.stage.Pushed?
  }

  ghost predicate EventsInv(fibers: set<Task>, placed: set<Task>, events: map<nat, Event>) {
    && (forall r :: r in events && events[r].isFiber ==> events[r].t in fibers)
    && (forall r :: r in events && Reserves(events[r]) ==> events[r].t !in fibers && events[r].t !in placed)
    && (forall q, r :: q in events && r in events && q != r && Reserves(events[r]) ==> events[q].t != events[r].t)
  }

  lemma CountedEvents(fibers: set<Task>, placed: set<Task>, events: map<nat, Event>, r: nat, e: Event)
    requires EventsInv(fibers, placed, events) && r !in events
    requires if e.isFiber then e.t in fibers
             else e.t !in fibers && e.t !in placed && forall q :: q in events ==> events[q].t != e.t
    ensures EventsInv(fibers, placed, events[r := e])
  {
    forall q | q in events && Reserves(events[q]) ensures events[q].t != e.t {}
  }

  lemma AdvancedEvents(fibers: set<Task>, placed: set<Task>, events: map<nat, Event>, r: nat, stage: Stage)
    requires EventsInv(fibers, placed, events) && r in events && !events[r].stage.Pushed?
    ensures EventsInv(fibers, placed, events[r := events[r].(stage := stage)])
  {}

  /** The name is given to the scheduler. */
  lemma PushedEvents(fibers: set<Task>, placed: set<Task>, events: map<nat, Event>, r: nat)
    requires EventsInv(fibers, placed, events) && r in events && !events[r].stage.Pushed?
    ensures EventsInv(fibers, placed + {events[r].t}, events[r := events[r].(stage := Pushed)])
  {
    forall q | q in events && q != r && Reserves(events[q]) ensures events[q].t != events[r].t {}
  }

  ghost predicate IoInv(io: Io) {
    && Loose(io.sys)
    && io.pending == |io.events|
    && EventsInv(io.sys.fibers.Keys, io.sys.place.Keys, io.events)
    && EndedInv(io.sys.fibers, io.ended)
    && (forall r :: r in io.awaited ==> Synced(io.events, io.awaited, r))
  }

  ghost predicate EndedInv(st: States, ended: set<Task>) {
    forall t :: t in st && Terminal(st[t]) ==> t in ended
  }

  ghost predicate Synced(events: map<nat, Event>, awaited: map<nat, Event>, r: nat)
    requires r in awaited
  {
    r in events ==> awaited[r] == events[r].(stage := awaited[r].stage)
  }

  /** What is known of registration `r`: handed over in time it is covered until it is entered, handed
      over late it belongs to a fiber and is covered unless the fiber's body has ended. */
  ghost predicate Fits(io: Io, r: nat, late: bool) {
    && (late && r in io.events ==> io.events[r].isFiber)
    && (r in io.awaited && io.awaited[r].own ==>
          var t := io.awaited[r].t;
          if late then io.awaited[r].isFiber && (Covered(io, r, t) || t in io.ended)
          else Covered(io, r, t) && (AtStage(io, r, Cleared) || !Late(io.sys, t)))
  }

  lemma ErasedHasEnded(io: Io, a: Step, t: Task)
    requires IoInv(io) && Enabled(io.sys, a) && Erases(io.sys, a, t)
    ensures t in io.ended
  {
    var e :| e in io.sys.queue && TaskOf(e) == t && Erasable(e, io.sys.fibers);
    assert Known(io.sys, e);
  }

  lemma WorkFits(skip: PinTest, io: Io, a: Step, r: nat, late: bool)
    requires IoInv(io) && IoEnabled(io, Work(a)) && Fits(io, r, late)
    ensures Fits(IoNext(skip, io, Work(a)), r, late)
  {
    if r in IoNext(skip, io, Work(a)).awaited && io.awaited[r].own && !AtStage(io, r, Cleared) {
      var t := io.awaited[r].t;
      if Awaiting(io.sys, t) {
        StaysAwaiting(skip, io.sys, a, t);
      }
      if !late {
        NotLateStays(skip, io.sys, a, t);
        NotLateNotErased(io.sys, a, t);
      } else if Erases(io.sys, a, t) {
        ErasedHasEnded(io, a, t);
      }
    }
  }

  /** A worker step uses no name that a registration waits under. */
  lemma WorkKeepsEvents(skip: PinTest, io: Io, a: Step)
    requires EventsInv(io.sys.fibers.Keys, io.sys.place.Keys, io.events) && Loose(io.sys) && IoEnabled(io, Work(a))
    ensures EventsInv(Next(skip, io.sys, a).fibers.Keys, Next(skip, io.sys, a).place.Keys, io.events)
  {
    StepLoose(skip, io.sys, a);
    forall r | r in io.events && Reserves(io.events[r]) ensures !Names(a, io.events[r].t) {}
  }

  lemma WorkKeepsEnded(skip: PinTest, io: Io, a: Step)
    requires Loose(io.sys) && EndedInv(io.sys.fibers, io.ended) && IoEnabled(io, Work(a))
    ensures EndedInv(Next(skip, io.sys, a).fibers, IoNext(skip, io, Work(a)).ended)
  {
    var st := Next(skip, io.sys, a).fibers;
    forall t | t in st && Terminal(st[t]) ensures t in IoNext(skip, io, Work(a)).ended {
      EndsOnlyByStop(skip, io.sys, a, t);
    }
  }

  lemma WorkKeeps(skip: PinTest, io: Io, a: Step)
    requires IoInv(io) && IoEnabled(io, Work(a))
    ensures IoInv(IoNext(skip, io, Work(a)))
  {
    var io' := IoNext(skip, io, Work(a));
    StepLoose(skip, io.sys, a);
    WorkKeepsEvents(skip, io, a);
    WorkKeepsEnded(skip, io, a);
    forall r | r in io'.awaited ensures Synced(io'.events, io'.awaited, r) {
      assert Synced(io.events, io.awaited, r);
    }
  }

  lemma Shrinks(m: map<nat, Event>, r: nat)
    requires r in m
    ensures |m - {r}| == |m| - 1
  {
    assert (m - {r}).Keys == m.Keys - {r};
  }

  lemma Grows(m: map<nat, Event>, r: nat, e: Event)
    ensures |m[r := e]| == |m| + (if r in m then 0 else 1)
  {
    assert m[r := e].Keys == m.Keys + {r};
  }

  /** Only registration `r` changed; the rest follows once the counter is known to be right. */
  lemma EventsFollow(io: Io, io': Io, r: nat)
    requires IoInv(io) && io'.sys == io.sys && io'.ended == io.ended && io'.pending == |io'.events|
    requires EventsInv(io.sys.fibers.Keys, io.sys.place.Keys, io'.events)
    requires io'.events - {r} == io.events - {r} && io'.awaited - {r} == io.awaited - {r}
    requires r in io'.awaited ==> Synced(io'.events, io'.awaited, r)
    ensures IoInv(io')
  {
    forall q | q in io'.awaited ensures Synced(io'.events, io'.awaited, q) {
      if q != r {
        assert q in io'.awaited - {r} && (q in io.events <==> q in io.events - {r});
        assert Synced(io.events, io.awaited, q);
      }
    }
  }

  lemma CountKeeps(io: Io, r: nat, e: Event)
    requires IoInv(io) && r !in io.events && r !in io.awaited
    requires if e.isFiber then e.t in io.sys.fibers else Unnamed(io, e.t)
    ensures IoInv(io.(pending := io.pending + 1, events := io.events[r := e]))
  {
    Grows(io.events, r, e);
    CountedEvents(io.sys.fibers.Keys, io.sys.place.Keys, io.events, r, e);
    var io' := io.(pending := io.pending + 1, events := io.events[r := e]);
    assert io'.events - {r} == io.events - {r};
    EventsFollow(io, io', r);
  }

  lemma ForgetKeeps(io: Io, r: nat)
    requires IoInv(io) && r in io.events
    ensures IoInv(io.(pending := io.pending - 1, events := io.events - {r}))
  {
    Shrinks(io.events, r);
    var io' := io.(pending := io.pending - 1, events := io.events - {r});
    assert io'.events - {r} == io.events - {r};
    EventsFollow(io, io', r);
  }

  lemma FillKeeps(io: Io, r: nat)
    requires IoInv(io) && AtStage(io, r, Counting)
    ensures IoInv(Advance(io, r, Armed))
  {
    var io' := Advance(io, r, Armed);
    Grows(io.events, r, io'.events[r]);
    AdvancedEvents(io.sys.fibers.Keys, io.sys.place.Keys, io.events, r, Armed);
    assert io'.events - {r} == io.events - {r};
    assert r in io.awaited ==> Synced(io.events, io.awaited, r);
    EventsFollow(io, io', r);
  }

  lemma ClearKeeps(io: Io, r: nat)
    requires IoInv(io) && AtStage(io, r, Armed)
    ensures IoInv(Advance(io, r, Cleared).(awaited := io.awaited[r := io.events[r]]))
  {
    var io' := Advance(io, r, Cleared).(awaited := io.awaited[r := io.events[r]]);
    Grows(io.events, r, io'.events[r]);
    AdvancedEvents(io.sys.fibers.Keys, io.sys.place.Keys, io.events, r, Cleared);
    assert io'.events - {r} == io.events - {r} && io'.awaited - {r} == io.awaited - {r};
    EventsFollow(io, io', r);
  }

  lemma EventStepKeeps(skip: PinTest, io: Io, b: IoStep)
    requires IoInv(io) && IoEnabled(io, b) && !b.Work? && !b.Hand?
    ensures IoInv(IoNext(skip, io, b))
  {
    match b
    case Count(r, t, isFiber, own) => CountKeeps(io, r, Event(t, Counting, isFiber, own));
    case Fill(r) => FillKeeps(io, r);
    case Delete(r) => ForgetKeeps(io, r);
    case Clear(r) => ClearKeeps(io, r);
    case Uncount(r) => ForgetKeeps(io, r);
  }

  lemma EventStepFits(skip: PinTest, io: Io, b: IoStep, r: nat, late: bool)
    requires IoInv(io) && IoEnabled(io, b) && !b.Work? && !b.Hand? && Fits(io, r, late)
    ensures Fits(IoNext(skip, io, b), r, LateNow(io, b, r, late))
  {}

  lemma HandKeeps(skip: PinTest, io: Io, r: nat)
    requires IoInv(io) && IoEnabled(io, Hand(r))
    ensures IoInv(IoNext(skip, io, Hand(r)))
  {
    var e := io.events[r];
    Grows(io.events, r, e.(stage := Pushed));
    AdvancedEvents(io.sys.fibers.Keys, io.sys.place.Keys, io.events, r, Pushed);
    if e.own {
      var sys' := Next(skip, io.sys, Submission(e));
      CallerStepLoose(skip, io.sys, Submission(e));
      PushedEvents(io.sys.fibers.Keys, io.sys.place.Keys, io.events, r);
      assert sys'.place.Keys == io.sys.place.Keys + {e.t} && sys'.fibers == io.sys.fibers;
    }
    forall q | q in io.awaited ensures Synced(io.events[r := e.(stage := Pushed)], io.awaited, q) {
      assert Synced(io.events, io.awaited, q);
    }
  }

  lemma HandedIsListed(skip: PinTest, s: Sys, e: Event)
    requires Enabled(s, Submission(e))
    ensures Awaiting(Next(skip, s, Submission(e)), e.t)
  {
    var s' := Next(skip, s, Submission(e));
    assert s'.queue[|s.queue|] in s'.queue;
  }

  /** The callback of a registration cannot be late: its name is still unused. */
  lemma CallbackIsNotLate(io: Io, r: nat)
    requires IoInv(io) && AtStage(io, r, Cleared) && !io.events[r].isFiber
    ensures !Late(io.sys, io.events[r].t)
  {
    assert Reserves(io.events[r]);
    forall w | w in io.sys.workers && Holding(io.sys.workers[w].pc)
      ensures TaskOf(io.sys.workers[w].pc.e) in io.sys.place
    {
      assert Known(io.sys, io.sys.workers[w].pc.e);
    }
  }

  /** What a submission changes for a task: it may begin to wait, and it becomes no later. */
  lemma SubmissionMoves(skip: PinTest, s: Sys, e: Event, t: Task)
    requires Loose(s) && Enabled(s, Submission(e))
    ensures var s' := Next(skip, s, Submission(e)); (Awaiting(s, t) || t == e.t) ==> Awaiting(s', t)
    ensures !Late(s, t) ==> !Late(Next(skip, s, Submission(e)), t)
  {
    if t == e.t {
      HandedIsListed(skip, s, e);
    } else if Awaiting(s, t) {
      StaysAwaiting(skip, s, Submission(e), t);
    }
    if !Late(s, t) {
      NotLateStays(skip, s, Submission(e), t);
    }
  }

  lemma HandFits(skip: PinTest, io: Io, q: nat, r: nat, late: bool)
    requires IoInv(io) && IoEnabled(io, Hand(q)) && Fits(io, r, late)
    ensures Fits(IoNext(skip, io, Hand(q)), r, LateNow(io, Hand(q), r, late))
  {
    var e := io.events[q];
    if q == r && !e.isFiber {
      CallbackIsNotLate(io, r);
    }
    if r in io.awaited {
      assert Synced(io.events, io.awaited, r);
      if e.own {
        SubmissionMoves(skip, io.sys, e, io.awaited[r].t);
      }
    }
  }

  lemma {:induction false} IoRunKeeps(skip: PinTest, io: Io, steps: seq<IoStep>)
    requires IoInv(io) && IoRun(skip, io, steps)
    ensures IoInv(IoAfter(skip, io, steps))
    decreases |steps|
  {
    if steps != [] {
      IoStepKeeps(skip, io, steps[0]);
      IoRunKeeps(skip, IoNext(skip, io, steps[0]), steps[1..]);
    }
  }

  lemma IoStepKeeps(skip: PinTest, io: Io, b: IoStep)
    requires IoInv(io) && IoEnabled(io, b)
    ensures IoInv(IoNext(skip, io, b))
  {
    match b
    case Work(a) => WorkKeeps(skip, io, a);
    case Hand(r) => HandKeeps(skip, io, r);
    case _ => EventStepKeeps(skip, io, b);
  }

  lemma {:induction false} IoRunFits(skip: PinTest, io: Io, steps: seq<IoStep>, r: nat, late: bool)
    requires IoInv(io) && IoRun(skip, io, steps) && Fits(io, r, late)
    ensures Fits(IoAfter(skip, io, steps), r, HandedLate(skip, io, steps, r, late))
    decreases |steps|
  {
    if steps != [] {
      var b := steps[0];
      match b {
        case Work(a) => WorkFits(skip, io, a, r, late);
        case Hand(q) => HandFits(skip, io, q, r, late);
        case _ => EventStepFits(skip, io, b, r, late);
      }
      IoStepKeeps(skip, io, b);
      IoRunFits(skip, IoNext(skip, io, b), steps[1..], r, LateNow(io, b, r, late));
    }
  }

  /** A hand-over that the scheduler's rule allows is not late. */
  lemma {:induction false} KeptIsNotLate(skip: PinTest, io: Io, steps: seq<IoStep>, r: nat)
    requires IoInv(io) && IoRun(skip, io, steps) && RuleKept(skip, io, steps, r)
    ensures !HandedLate(skip, io, steps, r, false)
    decreases |steps|
  {
    if steps != [] {
      if LateHand(io, steps[0], r) {
        if io.events[r].isFiber {
          SubmittableIsNotLate(io.sys, io.events[r].t);
        } else {
          CallbackIsNotLate(io, r);
        }
      }
      IoStepKeeps(skip, io, steps[0]);
      KeptIsNotLate(skip, IoNext(skip, io, steps[0]), steps[1..], r);
    }
  }

  lemma StartKeepsIo(io: Io)
    requires IoStart(io)
    ensures IoInv(io)
  {
    StartIsLoose(io.sys);
  }

  lemma CoveredIsSeen(io: Io, r: nat, t: Task)
    requires IoInv(io) && Covered(io, r, t)
    ensures !IoIsStoped(io)
  {
    if AtStage(io, r, Cleared) {
      assert |io.events| > 0 by { assert io.events.Keys != {}; }
    } else {
      AwaitingIsSeen(io.sys, t);
    }
  }

  // ---- Main results ----

  /** In every interleaving, whatever is submitted and however early events fire: if a snapshot of
      IOManager::isStoped is true although a registration made on one of the manager's own threads has
      fired and its callback or fiber was not entered since, then it was a fiber, this very
      registration was handed over while a worker that had entered the fiber had not let go of it or
      after it had finished, and its body has ended. */
  lemma MissedOnlyIfLate(skip: PinTest, io0: Io, steps: seq<IoStep>, r: nat)
    requires IoStart(io0) && IoRun(skip, io0, steps)
    requires var io := IoAfter(skip, io0, steps); r in io.awaited && io.awaited[r].own
    ensures
      var io := IoAfter(skip, io0, steps);
      IoIsStoped(io) ==>
        HandedLate(skip, io0, steps, r, false) && io.awaited[r].isFiber && io.awaited[r].t in io.ended
  {
    var io := IoAfter(skip, io0, steps);
    StartKeepsIo(io0);
    IoRunKeeps(skip, io0, steps);
    IoRunFits(skip, io0, steps, r, false);
    if Covered(io, r, io.awaited[r].t) {
      CoveredIsSeen(io, r, io.awaited[r].t);
    }
  }

  /** A callback is never missed. */
  lemma CallbackNeverMissed(skip: PinTest, io0: Io, steps: seq<IoStep>, r: nat)
    requires IoStart(io0) && IoRun(skip, io0, steps)
    requires var io := IoAfter(skip, io0, steps); r in io.awaited && io.awaited[r].own && !io.awaited[r].isFiber
    ensures !IoIsStoped(IoAfter(skip, io0, steps))
  {
    MissedOnlyIfLate(skip, io0, steps, r);
  }

  /** Nor is any registration that was handed over as the scheduler's rule allows, whatever other
      submissions of the run did. */
  lemma NeverStoppedWhileAwaited(skip: PinTest, io0: Io, steps: seq<IoStep>, r: nat)
    requires IoStart(io0) && IoRun(skip, io0, steps) && RuleKept(skip, io0, steps, r)
    requires var io := IoAfter(skip, io0, steps); r in io.awaited && io.awaited[r].own
    ensures !IoIsStoped(IoAfter(skip, io0, steps))
  {
    StartKeepsIo(io0);
    KeptIsNotLate(skip, io0, steps, r);
    MissedOnlyIfLate(skip, io0, steps, r);
  }

  /** The hand-over is never blocked: whenever a bit is cleared, its callback or fiber can be
      scheduled, and for a callback the scheduler's rule is respected. */
  lemma CallbackCanBeHanded(skip: PinTest, io0: Io, steps: seq<IoStep>, r: nat)
    requires IoStart(io0) && IoRun(skip, io0, steps) && AtStage(IoAfter(skip, io0, steps), r, Cleared)
    ensures
      var io := IoAfter(skip, io0, steps);
      IoEnabled(io, Hand(r)) && (!io.events[r].isFiber ==> HandAllowed(io, r))
  {
    StartKeepsIo(io0);
    IoRunKeeps(skip, io0, steps);
  }

  /** No registration is ever stuck: each stage can go on, an armed one can also be deleted, and a fiber
      that runs can register itself, and a callback under a name that nothing else has. */
  lemma RegistrationsProceed(io: Io, r: nat, t: Task, own: bool)
    ensures AtStage(io, r, Counting) ==> IoEnabled(io, Fill(r))
    ensures AtStage(io, r, Armed) ==> IoEnabled(io, Clear(r)) && IoEnabled(io, Delete(r))
    ensures AtStage(io, r, Pushed) ==> IoEnabled(io, Uncount(r))
    ensures r !in io.events && r !in io.awaited ==>
      && (StateOf(io.sys.fibers, t) == Exec ==> IoEnabled(io, Count(r, t, true, own)))
      && (Unnamed(io, t) ==> IoEnabled(io, Count(r, t, false, own)))
  {}

  /** What each step makes of its registration and of the counter: it begins counted, is armed, cleared,
      pushed and forgotten in this order, or deleted while it is armed; it is counted until it is
      forgotten or deleted. All others stay as they are. */
  lemma RegistrationSteps(skip: PinTest, io: Io, b: IoStep)
    requires IoEnabled(io, b) && !b.Work?
    ensures
      var io' := IoNext(skip, io, b);
      && io'.events - {b.r} == io.events - {b.r}
      && match b
         case Count(r, t, isFiber, own) =>
           io'.pending == io.pending + 1 && r in io'.events && io'.events[r] == Event(t, Counting, isFiber, own)
         case Fill(r) => io'.pending == io.pending && AtStage(io', r, Armed)
         case Clear(r) => io'.pending == io.pending && AtStage(io', r, Cleared) && r in io'.awaited
         case Hand(r) => io'.pending == io.pending && AtStage(io', r, Pushed)
         case Delete(r) => io'.pending == io.pending - 1 && r !in io'.events && io'.awaited == io.awaited
         case Uncount(r) => io'.pending == io.pending - 1 && r !in io'.events && io'.awaited == io.awaited
  {
    var io' := IoNext(skip, io, b);
    assert io'.events - {b.r} == io.events - {b.r};
  }

  /** A body of task `t` ended in the course of these steps. */
  ghost predicate BodyEnded(skip: PinTest, io: Io, steps: seq<IoStep>, t: Task)
    requires IoRun(skip, io, steps)
    decreases |steps|
  {
    steps != [] &&
    (EndsBody(io, steps[0], t) || BodyEnded(skip, IoNext(skip, io, steps[0]), steps[1..], t))
  }

  predicate EndsBody(io: Io, b: IoStep, t: Task) {
    && b.Work? && b.a.BodyStop? && (b.a.how.Return? || b.a.how.Throw?)
    && b.a.w in io.sys.workers && io.sys.workers[b.a.w].pc.Running? && TaskOf(io.sys.workers[b.a.w].pc.e) == t
  }

  lemma {:induction false} EndedIff(skip: PinTest, io: Io, steps: seq<IoStep>, t: Task)
    requires IoRun(skip, io, steps)
    ensures t in IoAfter(skip, io, steps).ended <==> t in io.ended || BodyEnded(skip, io, steps, t)
    decreases |steps|
  {
    if steps != [] {
      EndedStep(skip, io, steps[0], t);
      EndedIff(skip, IoNext(skip, io, steps[0]), steps[1..], t);
    }
  }

  lemma EndedStep(skip: PinTest, io: Io, b: IoStep, t: Task)
    requires IoEnabled(io, b)
    ensures t in IoNext(skip, io, b).ended <==> t in io.ended || EndsBody(io, b, t)
  {}

  /** The registering thread matters: what another scheduler registered is handed to that
      scheduler, and this manager can report itself stopped before it is entered. */
  lemma ForeignRegistrationIsNotAwaited(skip: PinTest, sys: Sys)
    requires Start(sys) && sys.autoStop && sys.stopping
    ensures
      var io := Io(sys, 0, map[], map[], {});
      var steps := [Count(0, 3, false, false), Fill(0), Clear(0), Hand(0), Uncount(0)];
      && IoStart(io) && IoRun(skip, io, steps)
      && 0 in IoAfter(skip, io, steps).awaited && IoIsStoped(IoAfter(skip, io, steps))
  {
    var io := Io(sys, 0, map[], map[], {});
    var io1 := IoNext(skip, io, Count(0, 3, false, false));
    var io2 := IoNext(skip, io1, Fill(0));
    var io3 := IoNext(skip, io2, Clear(0));
    var io4 := IoNext(skip, io3, Hand(0));
    var io5 := IoNext(skip, io4, Uncount(0));
    assert IoRun(skip, io5, []) && IoAfter(skip, io5, []) == io5;
    IoStepThenRun(skip, io4, Uncount(0), []);
    IoStepThenRun(skip, io3, Hand(0), [Uncount(0)]);
    IoStepThenRun(skip, io2, Clear(0), [Hand(0), Uncount(0)]);
    IoStepThenRun(skip, io1, Fill(0), [Clear(0), Hand(0), Uncount(0)]);
    IoStepThenRun(skip, io, Count(0, 3, false, false), [Fill(0), Clear(0), Hand(0), Uncount(0)]);
  }

  lemma IoStepThenRun(skip: PinTest, io: Io, b: IoStep, rest: seq<IoStep>)
    requires IoEnabled(io, b) && IoRun(skip, IoNext(skip, io, b), rest)
    ensures IoRun(skip, io, [b] + rest) && IoAfter(skip, io, [b] + rest) == IoAfter(skip, IoNext(skip, io, b), rest)
  {
    assert ([b] + rest)[1..] == rest;
  }
}
