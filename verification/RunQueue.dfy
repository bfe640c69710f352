/** The run queue of a scheduler: entries, submission, and the scan that a worker
    performs while it holds the scheduler's lock. */
module RunQueue {
  import opened Fibers

  /** Scheduler::FiberAndThread. */
  datatype Entry = Entry(fiber: Option<Task>, cb: Option<Task>, thread: Thread)

  type States = map<Task, State>

  /** The test that makes a worker pass over a pinned entry: `skip(entry.thread, me)`. */
  type PinTest = (Thread, Thread) -> bool

  /** The pin test as it is coded: pass over the entries pinned to this very thread. */
  function CodedPinTest(): PinTest {
    (thread, me) => thread != 0 && thread == me
  }

  predicate Carries(e: Entry) {
    e.fiber.Some? || e.cb.Some?
  }

  function StateOf(st: States, t: Task): State {
    if t in st then st[t] else Unknow
  }

  function RemoveAt<T>(q: seq<T>, k: nat): seq<T>
    requires k < |q|
  {
    q[..k] + q[k + 1..]
  }

  datatype ScanResult =
    | Took(index: nat, entry: Entry, queue: seq<Entry>, states: States)
    | Nothing(queue: seq<Entry>, states: States)
    | Undefined  // the iterator was moved past the end of the list

  /** The scan from position `i` on, branch for branch. */
  function ScanFrom(skip: PinTest, me: Thread, q: seq<Entry>, i: nat, st: States): ScanResult
    requires i <= |q|
    decreases |q| - i
  {
    if i == |q| then Nothing(q, st)
    else if skip(q[i].thread, me) then ScanFrom(skip, me, q, i + 1, st)
    else if q[i].fiber.None? then Took(i, q[i], RemoveAt(q, i), st)
    else
      var f := q[i].fiber.value;
      match StateOf(st, f)
      case Init => ScanFrom(skip, me, q, i + 1, st[f := Ready])
      case Hold => ScanFrom(skip, me, q, i + 1, st[f := Ready])
      case Exec => ScanFrom(skip, me, q, i + 1, st)
      case Ready => Took(i, q[i], RemoveAt(q, i), st)
      case _ =>
        // erase(it++) and then the loop header steps once more
        if i + 1 == |q| then Undefined else ScanFrom(skip, me, RemoveAt(q, i), i + 1, st)
  }

  predicate Eligible(skip: PinTest, me: Thread, e: Entry, st: States) {
    !skip(e.thread, me) && (e.fiber.None? || StateOf(st, e.fiber.value) == Ready)
  }

  /** The scan promotes this entry's fiber when it passes over it. */
  predicate Waits(skip: PinTest, me: Thread, e: Entry, st: States) {
    && !skip(e.thread, me)
    && e.fiber.Some?
    && (StateOf(st, e.fiber.value).Init? || StateOf(st, e.fiber.value).Hold?)
  }

  /** No entry holds a finished fiber, and no fiber is in two entries. */
  ghost predicate Healthy(q: seq<Entry>, st: States) {
    && (forall i :: 0 <= i < |q| && q[i].fiber.Some? ==>
          q[i].fiber.value in st && st[q[i].fiber.value] in {Init, Hold, Exec, Ready})
    && (forall i, j :: 0 <= i < j < |q| && q[i].fiber.Some? ==> q[i].fiber != q[j].fiber)
  }

  /** `st'` is `st` with exactly the waiting fibers of `q[lo..hi]` promoted to READY. */
  ghost predicate Promoted(skip: PinTest, me: Thread, q: seq<Entry>, lo: nat, hi: nat, st: States, st': States)
    requires hi <= |q|
  {
    && st'.Keys == st.Keys
    && (forall j :: lo <= j < hi && Waits(skip, me, q[j], st) ==> StateOf(st', q[j].fiber.value) == Ready)
    && (forall f :: f in st && st'[f] != st[f] ==>
          exists j :: lo <= j < hi && Waits(skip, me, q[j], st) && q[j].fiber == Some(f))
  }

  /** What a scan of a healthy queue does, without reference to how it walks: it takes the
      first eligible entry if there is one, removes just that entry, and promotes exactly the
      waiting fibers it passed. It never reaches the erase-and-step-twice branch. */
  ghost predicate ScanOutcome(skip: PinTest, me: Thread, q: seq<Entry>, lo: nat, st: States, r: ScanResult)
    requires lo <= |q|
  {
    match r
    case Undefined => false
    case Nothing(q', st') =>
      && q' == q
      && (forall j :: lo <= j < |q| ==> !Eligible(skip, me, q[j], st))
      && Promoted(skip, me, q, lo, |q|, st, st')
    case Took(k, e, q', st') =>
      && lo <= k < |q|
      && e == q[k] && Eligible(skip, me, q[k], st)
      && (forall j :: lo <= j < k ==> !Eligible(skip, me, q[j], st))
      && q' == RemoveAt(q, k)
      && Promoted(skip, me, q, lo, k, st, st')
  }

  lemma {:induction false} ScanIsExact(skip: PinTest, me: Thread, q: seq<Entry>, i: nat, st: States)
    requires i <= |q| && Healthy(q, st)
    ensures ScanOutcome(skip, me, q, i, st, ScanFrom(skip, me, q, i, st))
    decreases |q| - i
  {
    if i < |q| {
      if Waits(skip, me, q[i], st) {
        var f := q[i].fiber.value;
        var st1 := st[f := Ready];
        ScanIsExact(skip, me, q, i + 1, st1);
        PromoteOneMore(skip, me, q, i, st, ScanFrom(skip, me, q, i, st));
      } else if !Eligible(skip, me, q[i], st) {
        ScanIsExact(skip, me, q, i + 1, st);
      }
    }
  }

  lemma PromoteOneMore(skip: PinTest, me: Thread, q: seq<Entry>, i: nat, st: States, r: ScanResult)
    requires i < |q| && Healthy(q, st) && Waits(skip, me, q[i], st)
    requires ScanOutcome(skip, me, q, i + 1, st[q[i].fiber.value := Ready], r)
    ensures ScanOutcome(skip, me, q, i, st, r)
  {
    var f := q[i].fiber.value;
    var st1 := st[f := Ready];
    forall j | i < j < |q|
      ensures Waits(skip, me, q[j], st1) == Waits(skip, me, q[j], st)
      ensures Eligible(skip, me, q[j], st1) == Eligible(skip, me, q[j], st)
    {
      assert q[i].fiber != q[j].fiber;
    }
  }

  /** The shared part of a scheduler that its lock protects, updated in place. */
  class Scheduler {
    var fibers: seq<Entry>   // m_fibers
    var states: States       // the state of every fiber object
    var active: int          // m_activeThreadCount
    var autoStop: bool
    var stopping: bool

    constructor ()
      ensures fibers == [] && states == map[] && active == 0 && !autoStop && stopping
    {
      fibers, states, active, autoStop, stopping := [], map[], 0, false, true;
    }

    /** scheduleNoLock: an entry that carries nothing is not queued. */
    method ScheduleNoLock(e: Entry) returns (needTickle: bool)
      modifies this`fibers
      ensures fibers == if Carries(e) then old(fibers) + [e] else old(fibers)
      ensures needTickle <==> fibers != []
    {
      if e.fiber.Some? || e.cb.Some? {
        fibers := fibers + [e];
      }
      needTickle := fibers != [];
    }

    /** The range form of schedule, for a range of callbacks or of fibers: what each element names is
        swapped out of it and, if it names anything, appended unpinned, in order. */
    method ScheduleRange(range: array<Option<Task>>, callbacks: bool) returns (needTickle: bool)
      modifies this`fibers, range
      ensures fibers == old(fibers) + Carrying(Unpinned(old(range[..]), callbacks))
      ensures forall i :: 0 <= i < range.Length ==> range[i] == None
      ensures needTickle <==> range.Length > 0 && fibers != []
    {
      needTickle := false;
      ghost var all := Unpinned(range[..], callbacks);
      for i := 0 to range.Length
        invariant fibers == old(fibers) + Carrying(all[..i])
        invariant forall j :: 0 <= j < i ==> range[j] == None
        invariant forall j :: i <= j < range.Length ==> range[j] == old(range[j])
        invariant needTickle <==> i > 0 && fibers != []
      {
        var work := range[i];
        range[i] := None;
        var tickle := ScheduleNoLock(if callbacks then Entry(None, work, 0) else Entry(work, None, 0));
        needTickle := tickle || needTickle;
        assert all[..i + 1][..i] == all[..i];
      }
      assert all[..|all|] == all;
    }

    /** The scan of `run` under the lock: finds an entry to run, promotes the fibers it
        passes, and counts itself active when it takes one. */
    method Scan(skip: PinTest, me: Thread) returns (r: ScanResult)
      modifies this
      ensures r == ScanFrom(skip, me, old(fibers), 0, old(states))
      ensures r.Took? ==> fibers == r.queue && states == r.states && active == old(active) + 1
      ensures r.Nothing? ==> fibers == r.queue && states == r.states && active == old(active)
      ensures autoStop == old(autoStop) && stopping == old(stopping)
      ensures Healthy(old(fibers), old(states)) ==> ScanOutcome(skip, me, old(fibers), 0, old(states), r)
    {
      if Healthy(fibers, states) {
        ScanIsExact(skip, me, fibers, 0, states);
      }
      var i := 0;
      while i < |fibers|
        invariant 0 <= i <= |fibers|
        invariant ScanFrom(skip, me, fibers, i, states) == ScanFrom(skip, me, old(fibers), 0, old(states))
        invariant active == old(active) && autoStop == old(autoStop) && stopping == old(stopping)
      {
        var e := fibers[i];
        if skip(e.thread, me) {
          i := i + 1;
          continue;
        }
        if e.fiber.Some? {
          var f := e.fiber.value;
          match StateOf(states, f) {
            case Init => states := states[f := Ready]; i := i + 1; continue;
            case Hold => states := states[f := Ready]; i := i + 1; continue;
            case Exec => i := i + 1; continue;
            case Ready =>
            case _ =>
              if i + 1 == |fibers| {
                return Undefined;
              }
              fibers := RemoveAt(fibers, i);
              i := i + 1;
              continue;
          }
        }
        fibers := RemoveAt(fibers, i);
        active := active + 1;
        return Took(i, e, fibers, states);
      }
      return Nothing(fibers, states);
    }

    method IsStoped() returns (b: bool)
      ensures b <==> autoStop && stopping && fibers == [] && active == 0
    {
      b := autoStop && stopping && fibers == [] && active == 0;
    }
  }

  /** The entries made of a range of callbacks or of fibers. */
  function Unpinned(range: seq<Option<Task>>, callbacks: bool): (es: seq<Entry>)
    ensures |es| == |range|
    ensures forall i :: 0 <= i < |range| ==>
      es[i] == if callbacks then Entry(None, range[i], 0) else Entry(range[i], None, 0)
  {
    seq(|range|, i requires 0 <= i < |range| =>
      if callbacks then Entry(None, range[i], 0) else Entry(range[i], None, 0))
  }

  /** The entries of a range that carry a fiber or a callback. */
  function Carrying(es: seq<Entry>): seq<Entry> {
    if es == [] then []
    else
      var front := Carrying(es[..|es| - 1]);
      if Carries(es[|es| - 1]) then front + [es[|es| - 1]] else front
  }
}
