/** The event registry of IOManager: per-descriptor contexts, event bits, the pending counter and
    the kernel's interest set. Every operation is one atomic step; `epoll_ctl` succeeds or fails
    as the environment decides, and changes nothing when it fails. */
module Registry {
  import opened Fibers

  datatype Event = READ | WRITE

  /** FdContext::events. */
  datatype Bits = Bits(read: bool, write: bool)

  /** What is scheduled when an event fires. */
  datatype Work = Callback(id: nat) | FiberWork(id: nat)

  /** One registration: what to schedule, and on which scheduler. */
  datatype Item = Item(work: Work, scheduler: Option<nat>)

  /** FdContext::EventContext. */
  datatype EventContext = EventContext(scheduler: Option<nat>, fiber: Option<nat>, cb: Option<nat>)

  const EMPTY := EventContext(None, None, None)

  datatype FdContext = FdContext(fd: nat, events: Bits, read: EventContext, write: EventContext)

  /** The flags of an epoll_event: EPOLLET, EPOLLIN (1), EPOLLPRI (2), EPOLLOUT (4), EPOLLHUP (16). */
  datatype Mask = Mask(et: bool, rd: bool, pri: bool, wr: bool, hup: bool)

  datatype Op = ADD | MOD | DEL

  /** The kernel's interest set, and what happened so far: `accepted`, `handed` (with the scheduler
      it was handed to) and `deleted` are histories. `legal`: the kernel was never asked to ADD a
      present descriptor or to MOD or DEL an absent one. `ok`: no assertion failed, no null scheduler
      was used, no slot was missing. */
  datatype Env = Env(
    kernel: map<nat, Mask>,
    accepted: multiset<Item>,
    handed: multiset<Item>,
    deleted: multiset<Item>,
    legal: bool,
    ok: bool)

  /** m_fdContext, m_pendingEventCount and what surrounds them. */
  datatype Reg = Reg(table: seq<FdContext>, pending: int, env: Env)

  predicate Has(b: Bits, e: Event) {
    if e.READ? then b.read else b.write
  }

  function Put(b: Bits, e: Event, on: bool): Bits {
    if e.READ? then b.(read := on) else b.(write := on)
  }

  predicate Any(b: Bits) {
    b.read || b.write
  }

  function GetContext(c: FdContext, e: Event): EventContext {
    if e.READ? then c.read else c.write
  }

  function SetContext(c: FdContext, e: Event, x: EventContext): FdContext {
    if e.READ? then c.(read := x) else c.(write := x)
  }

  /** EPOLLET plus the given bits. */
  function EdgeMask(b: Bits): Mask {
    Mask(true, b.read, false, b.write, false)
  }

  /** An operation code used as a flag word, as cancelEvent and cancelAll do (MOD is 3, DEL is 2). */
  function OpAsMask(op: Op): Mask {
    match op
    case ADD => Mask(false, true, false, false, false)
    case DEL => Mask(false, false, true, false, false)
    case MOD => Mask(false, true, true, false, false)
  }

  predicate LegalRequest(r: Reg, op: Op, fd: nat) {
    if op.ADD? then fd !in r.env.kernel else fd in r.env.kernel
  }

  /** epoll_ctl when it succeeds. The kernel refuses illegal requests, and may refuse others. */
  function EpollCtl(r: Reg, op: Op, fd: nat, mask: Mask): Reg {
    if op.DEL? then r.(env := r.env.(kernel := r.env.kernel - {fd}))
    else r.(env := r.env.(kernel := r.env.kernel[fd := mask]))
  }

  /** epoll_ctl when it fails; a request that could not succeed is noted. */
  function Refused(r: Reg, op: Op, fd: nat): Reg {
    r.(env := r.env.(legal := r.env.legal && LegalRequest(r, op, fd)))
  }

  predicate Succeeds(r: Reg, op: Op, fd: nat, kernelAgrees: bool) {
    LegalRequest(r, op, fd) && kernelAgrees
  }

  /** new FdContext with its fd. */
  function Vacant(fd: nat): FdContext {
    FdContext(fd, Bits(false, false), EMPTY, EMPTY)
  }

  /** contextResize: grows or cuts the table and fills the new slots. */
  function Resize(table: seq<FdContext>, size: nat): seq<FdContext> {
    if size <= |table| then table[..size]
    else Resize(table, size - 1) + [Vacant(size - 1)]
  }

  /** The table that addEvent works on; 1.5 * fd is truncated when it becomes a size. */
  function Reserve(table: seq<FdContext>, fd: nat): seq<FdContext> {
    if |table| > fd then table else Resize(table, fd * 3 / 2)
  }

  function NewWork(cb: Option<nat>, self: nat): Work {
    if cb.Some? then Callback(cb.value) else FiberWork(self)
  }

  /** addEvent(fd, e, cb) called by fiber `self` on a thread whose scheduler is `sched`. */
  function AddEvent(r: Reg, fd: nat, e: Event, cb: Option<nat>, self: nat, sched: Option<nat>, kernelAgrees: bool): Reg
  {
    AddAt(r.(table := Reserve(r.table, fd)), fd, e, cb, self, sched, kernelAgrees)
  }

  /** The part of addEvent after the context was found. */
  function AddAt(r: Reg, fd: nat, e: Event, cb: Option<nat>, self: nat, sched: Option<nat>, kernelAgrees: bool): Reg {
    if fd >= |r.table| then r.(env := r.env.(ok := false))
    else
      var c := r.table[fd];
      var op := if Any(c.events) then MOD else ADD;
      var events := Put(c.events, e, true);
      if !Succeeds(r, op, fd, kernelAgrees) then Refused(r, op, fd)
      else
        var env := EpollCtl(r, op, fd, EdgeMask(events)).env;
        Reg(r.table[fd := SetContext(c.(events := events), e, Filled(cb, self, sched))],
            r.pending + 1,
            env.(accepted := env.accepted + multiset{Item(NewWork(cb, self), sched)},
                 ok := env.ok && GetContext(c, e) == EMPTY))
  }

  function Filled(cb: Option<nat>, self: nat, sched: Option<nat>): EventContext {
    EventContext(sched, if cb.Some? then None else Some(self), cb)
  }

  /** delEvent. */
  function DelEvent(r: Reg, fd: nat, e: Event, kernelAgrees: bool): Reg {
    if fd >= |r.table| || !Has(r.table[fd].events, e) then r
    else
      var c := r.table[fd];
      var left := Put(c.events, e, false);
      var op := if Any(left) then MOD else DEL;
      if !Succeeds(r, op, fd, kernelAgrees) then Refused(r, op, fd)
      else
        var env := EpollCtl(r, op, fd, EdgeMask(left)).env;
        Reg(r.table[fd := SetContext(c.(events := left), e, EMPTY)],
            r.pending - 1,
            env.(deleted := env.deleted + Stored(GetContext(c, e))))
  }

  /** What a context stores. */
  function Stored(x: EventContext): multiset<Item> {
    (if x.cb.Some? then multiset{Item(Callback(x.cb.value), x.scheduler)} else multiset{}) +
    (if x.fiber.Some? then multiset{Item(FiberWork(x.fiber.value), x.scheduler)} else multiset{})
  }

  /** What triggerEvent schedules: the callback if there is one, else the fiber if there is one. */
  function ToSchedule(x: EventContext): multiset<Item> {
    if x.cb.Some? then multiset{Item(Callback(x.cb.value), x.scheduler)}
    else if x.fiber.Some? then multiset{Item(FiberWork(x.fiber.value), x.scheduler)}
    else multiset{}
  }

  /** The context after its work was swapped out and its scheduler forgotten. */
  function SwappedOut(x: EventContext): EventContext {
    if x.cb.Some? then EventContext(None, x.fiber, None) else EventContext(None, None, None)
  }

  /** triggerEvent on slot `fd`, followed by the decrement of the pending counter. */
  function Trigger(r: Reg, fd: nat, e: Event): Reg
    requires fd < |r.table|
  {
    var c := r.table[fd];
    var x := GetContext(c, e);
    if !Has(c.events, e) || x.scheduler.None? then r.(env := r.env.(ok := false))
    else
      Reg(r.table[fd := SetContext(c.(events := Put(c.events, e, false)), e, SwappedOut(x))],
          r.pending - 1,
          r.env.(handed := r.env.handed + ToSchedule(x)))
  }

  /** cancelEvent. */
  function CancelEvent(r: Reg, fd: nat, e: Event, kernelAgrees: bool): Reg {
    if fd >= |r.table| || !Has(r.table[fd].events, e) then r
    else
      var op := if Any(Put(r.table[fd].events, e, false)) then MOD else DEL;
      if !Succeeds(r, op, fd, kernelAgrees) then Refused(r, op, fd)
      else Trigger(EpollCtl(r, op, fd, OpAsMask(op)), fd, e)
  }

  function TriggerIf(r: Reg, fd: nat, e: Event, fire: bool): (r': Reg)
    requires fd < |r.table|
    ensures |r'.table| == |r.table|
  {
    if fire then Trigger(r, fd, e) else r
  }

  /** cancelAll. */
  function CancelAll(r: Reg, fd: nat, kernelAgrees: bool): Reg {
    if fd >= |r.table| || !Any(r.table[fd].events) then r
    else if !Succeeds(r, DEL, fd, kernelAgrees) then Refused(r, DEL, fd)
    else
      var r1 := EpollCtl(r, DEL, fd, OpAsMask(DEL));
      var r2 := TriggerIf(r1, fd, READ, r1.table[fd].events.read);
      TriggerIf(r2, fd, WRITE, r2.table[fd].events.write)
  }

  /** The flags of a report after idle() completed them. */
  function Completed(flags: Mask, events: Bits): Mask {
    if flags.rd || flags.hup then flags.(rd := flags.rd || events.read) else flags
  }

  /** real_events. */
  function Due(flags: Mask): Bits {
    Bits(flags.rd || flags.hup, flags.wr)
  }

  function Minus(a: Bits, b: Bits): Bits {
    Bits(a.read && !b.read, a.write && !b.write)
  }

  predicate Overlap(a: Bits, b: Bits) {
    (a.read && b.read) || (a.write && b.write)
  }

  /** One round of the dispatch loop of idle(), for the context of descriptor `fd`. */
  function Dispatch(r: Reg, fd: nat, report: Mask, kernelAgrees: bool): Reg {
    if fd >= |r.table| then r
    else
      var events := r.table[fd].events;
      var flags := Completed(report, events);
      var due := Due(flags);
      if !Overlap(events, due) then r
      else
        var op := if Any(Minus(events, due)) then MOD else DEL;
        if !Succeeds(r, op, fd, kernelAgrees) then Refused(r, op, fd)
        else
          var r1 := EpollCtl(r, op, fd, flags);
          TriggerIf(TriggerIf(r1, fd, READ, due.read), fd, WRITE, due.write)
  }

  datatype Call =
    | Add(fd: nat, e: Event, cb: Option<nat>, self: nat, sched: Option<nat>, kernelAgrees: bool)
    | Del(fd: nat, e: Event, kernelAgrees: bool)
    | Cancel(fd: nat, e: Event, kernelAgrees: bool)
    | CancelEach(fd: nat, kernelAgrees: bool)
    | Report(fd: nat, flags: Mask, kernelAgrees: bool)

  function Apply(r: Reg, c: Call): Reg {
    match c
    case Add(fd, e, cb, self, sched, k) => AddEvent(r, fd, e, cb, self, sched, k)
    case Del(fd, e, k) => DelEvent(r, fd, e, k)
    case Cancel(fd, e, k) => CancelEvent(r, fd, e, k)
    case CancelEach(fd, k) => CancelAll(r, fd, k)
    case Report(fd, flags, k) => Dispatch(r, fd, flags, k)
  }

  predicate Registered(r: Reg, fd: nat, e: Event) {
    fd < |r.table| && Has(r.table[fd].events, e)
  }

  /** What callers must respect: events are added once, from a scheduler's thread, and the kernel
      reports only what is still registered (or nothing that is). */
  predicate Proper(r: Reg, c: Call) {
    match c
    case Add(fd, e, _, _, sched, _) => !Registered(r, fd, e) && sched.Some?
    case Report(fd, flags, _) => fd < |r.table| ==> ProperReport(r.table[fd].events, flags)
    case _ => true
  }

  predicate ProperReport(events: Bits, flags: Mask) {
    var due := Due(Completed(flags, events));
    !Overlap(events, due) || !Any(Minus(due, events))
  }

  /** The registry the constructor builds. */
  function Created(): Reg {
    Reg(Resize([], 32), 0, Env(map[], multiset{}, multiset{}, multiset{}, true, true))
  }

  ghost predicate Runs(r: Reg, calls: seq<Call>)
    decreases |calls|
  {
    calls == [] || (Proper(r, calls[0]) && Runs(Apply(r, calls[0]), calls[1..]))
  }

  ghost function Outcome(r: Reg, calls: seq<Call>): Reg
    decreases |calls|
  {
    if calls == [] then r else Outcome(Apply(r, calls[0]), calls[1..])
  }

  // ---- Invariant ----

  /** A context belongs to a set bit exactly when it has a scheduler and one piece of work; the
      context of a cleared bit is empty. */
  predicate Fits(x: EventContext, on: bool) {
    if on then x.scheduler.Some? && (x.fiber.Some? != x.cb.Some?) else x == EMPTY
  }

  predicate Consistent(c: FdContext) {
    Fits(c.read, c.events.read) && Fits(c.write, c.events.write)
  }

  function BitCount(b: Bits): nat {
    (if b.read then 1 else 0) + (if b.write then 1 else 0)
  }

  /** The number of set bits in the whole table. */
  function TotalBits(table: seq<FdContext>): nat {
    if table == [] then 0 else TotalBits(table[..|table| - 1]) + BitCount(table[|table| - 1].events)
  }

  /** How often an item is stored in a descriptor's two contexts. */
  function StoredIn(c: FdContext, x: Item): nat {
    Stored(c.read)[x] + Stored(c.write)[x]
  }

  /** How often an item is stored in the whole table. */
  function AllStored(table: seq<FdContext>, x: Item): nat {
    if table == [] then 0 else AllStored(table[..|table| - 1], x) + StoredIn(table[|table| - 1], x)
  }

  ghost predicate TableInv(table: seq<FdContext>) {
    |table| >= 32 && forall i :: 0 <= i < |table| ==> table[i].fd == i && Consistent(table[i])
  }

  /** A descriptor is in the interest set exactly when one of its bits is set. */
  ghost predicate KernelInv(table: seq<FdContext>, kernel: map<nat, Mask>) {
    forall fd: nat :: fd in kernel <==> fd < |table| && Any(table[fd].events)
  }

  /** Every accepted registration is still stored, was handed over, or was deleted. */
  ghost predicate Conserved(r: Reg) {
    && |r.env.accepted| == r.pending + |r.env.handed| + |r.env.deleted|
    && forall x :: r.env.accepted[x] == AllStored(r.table, x) + r.env.handed[x] + r.env.deleted[x]
  }

  ghost predicate RegInv(r: Reg) {
    && r.env.ok && r.env.legal
    && TableInv(r.table)
    && KernelInv(r.table, r.env.kernel)
    && r.pending == TotalBits(r.table)
    && Conserved(r)
  }

  lemma {:induction false} BitsFollow(table: seq<FdContext>, fd: nat, c: FdContext)
    requires fd < |table|
    ensures TotalBits(table[fd := c]) == TotalBits(table) - BitCount(table[fd].events) + BitCount(c.events)
    decreases |table|
  {
    var last := |table| - 1;
    if fd == last {
      assert table[fd := c][..last] == table[..last];
    } else {
      assert table[fd := c][..last] == table[..last][fd := c];
      BitsFollow(table[..last], fd, c);
    }
  }

  lemma {:induction false} StoreFollows(table: seq<FdContext>, fd: nat, c: FdContext, x: Item)
    requires fd < |table|
    ensures AllStored(table[fd := c], x) == AllStored(table, x) - StoredIn(table[fd], x) + StoredIn(c, x)
    decreases |table|
  {
    var last := |table| - 1;
    if fd == last {
      assert table[fd := c][..last] == table[..last];
    } else {
      assert table[fd := c][..last] == table[..last][fd := c];
      StoreFollows(table[..last], fd, c, x);
    }
  }

  /** Growing the table adds empty slots behind the old ones and nothing else. */
  lemma {:induction false} Grown(table: seq<FdContext>, size: nat)
    requires |table| <= size
    ensures |Resize(table, size)| == size
    ensures forall i :: 0 <= i < size ==> Resize(table, size)[i] == if i < |table| then table[i] else Vacant(i)
    decreases size
  {
    if size > |table| {
      Grown(table, size - 1);
    }
  }

  lemma AppendedTotals(table: seq<FdContext>, c: FdContext, x: Item)
    ensures TotalBits(table + [c]) == TotalBits(table) + BitCount(c.events)
    ensures AllStored(table + [c], x) == AllStored(table, x) + StoredIn(c, x)
  {
    assert (table + [c])[..|table|] == table;
  }

  lemma {:induction false} GrownTotals(table: seq<FdContext>, size: nat, x: Item)
    requires |table| <= size
    ensures TotalBits(Resize(table, size)) == TotalBits(table)
    ensures AllStored(Resize(table, size), x) == AllStored(table, x)
    decreases size
  {
    if size == |table| {
      assert table[..size] == table;
    } else {
      GrownTotals(table, size - 1, x);
      AppendedTotals(Resize(table, size - 1), Vacant(size - 1), x);
    }
  }

  /** From 32 slots on, 1.5 * fd is large enough to reach the slot that was asked for. */
  lemma Reserved(table: seq<FdContext>, fd: nat)
    requires TableInv(table)
    ensures
      var t' := Reserve(table, fd);
      && fd < |t'| && |table| <= |t'| && TableInv(t')
      && (forall i :: 0 <= i < |t'| ==> t'[i] == if i < |table| then table[i] else Vacant(i))
      && (if fd < |table| then |t'| == |table| else 2 * |t'| <= 3 * fd < 2 * |t'| + 2)
  {
    if |table| <= fd {
      Grown(table, fd * 3 / 2);
    }
  }

  lemma ReserveKeeps(r: Reg, fd: nat)
    requires RegInv(r)
    ensures RegInv(r.(table := Reserve(r.table, fd)))
  {
    var r' := r.(table := Reserve(r.table, fd));
    Reserved(r.table, fd);
    forall x ensures TotalBits(r'.table) == TotalBits(r.table) && AllStored(r'.table, x) == AllStored(r.table, x) {
      if |r.table| <= fd {
        GrownTotals(r.table, fd * 3 / 2, x);
      }
    }
    assert TotalBits(r'.table) == TotalBits(r.table) by {
      if |r.table| <= fd {
        GrownTotals(r.table, fd * 3 / 2, Item(Callback(0), None));
      }
    }
  }

  lemma CreatedHolds()
    ensures RegInv(Created())
    ensures |Created().table| == 32 && Created().env.kernel == map[]
    ensures forall i :: 0 <= i < 32 ==> Created().table[i] == FdContext(i, Bits(false, false), EMPTY, EMPTY)
  {
    Grown([], 32);
    GrownTotals([], 32, Item(Callback(0), None));
    forall x ensures AllStored(Created().table, x) == 0 { GrownTotals([], 32, x); }
  }

  /** The histories moved by what the slot lost or gained. */
  ghost predicate Balanced(r: Reg, r': Reg, before: FdContext, after: FdContext) {
    && |r'.env.accepted| + r.pending + |r.env.handed| + |r.env.deleted| ==
       |r.env.accepted| + r'.pending + |r'.env.handed| + |r'.env.deleted|
    && forall x :: r'.env.accepted[x] + StoredIn(before, x) + r.env.handed[x] + r.env.deleted[x] ==
                   r.env.accepted[x] + StoredIn(after, x) + r'.env.handed[x] + r'.env.deleted[x]
  }

  lemma KernelFollows(table: seq<FdContext>, kernel: map<nat, Mask>, fd: nat, c: FdContext, kernel': map<nat, Mask>)
    requires KernelInv(table, kernel) && fd < |table|
    requires kernel'.Keys == if Any(c.events) then kernel.Keys + {fd} else kernel.Keys - {fd}
    ensures KernelInv(table[fd := c], kernel')
  {}

  lemma ConservationFollows(r: Reg, r': Reg, fd: nat, c: FdContext)
    requires Conserved(r) && fd < |r.table| && r'.table == r.table[fd := c] && Balanced(r, r', r.table[fd], c)
    ensures Conserved(r')
  {
    forall x ensures r'.env.accepted[x] == AllStored(r'.table, x) + r'.env.handed[x] + r'.env.deleted[x] {
      StoreFollows(r.table, fd, c, x);
    }
  }

  /** One slot changes with the counter, the interest set and the histories. */
  lemma SlotKeeps(r: Reg, r': Reg, fd: nat, c: FdContext)
    requires RegInv(r) && r'.env.ok && r'.env.legal && fd < |r.table|
    requires r'.table == r.table[fd := c] && c.fd == fd && Consistent(c)
    requires r'.pending == r.pending - BitCount(r.table[fd].events) + BitCount(c.events)
    requires Balanced(r, r', r.table[fd], c)
    requires r'.env.kernel.Keys == if Any(c.events) then r.env.kernel.Keys + {fd} else r.env.kernel.Keys - {fd}
    ensures RegInv(r')
  {
    assert r'.pending == TotalBits(r'.table) by { BitsFollow(r.table, fd, c); }
    ConservationFollows(r, r', fd, c);
    KernelFollows(r.table, r.env.kernel, fd, c, r'.env.kernel);
    TableFollows(r.table, fd, c);
  }

  lemma TableFollows(table: seq<FdContext>, fd: nat, c: FdContext)
    requires TableInv(table) && fd < |table| && c.fd == fd && Consistent(c)
    ensures TableInv(table[fd := c])
  {}

  lemma FilledStores(cb: Option<nat>, self: nat, sched: Option<nat>)
    ensures Stored(Filled(cb, self, sched)) == multiset{Item(NewWork(cb, self), sched)}
  {}

  lemma PutStores(c: FdContext, e: Event, x: EventContext, y: Item)
    requires GetContext(c, e) == EMPTY
    ensures StoredIn(SetContext(c.(events := Put(c.events, e, true)), e, x), y) == StoredIn(c, y) + Stored(x)[y]
  {
    EmptyStoresNothing();
  }

  /** What a successful addEvent leaves behind, field by field. */
  lemma AddShape(r: Reg, fd: nat, e: Event, cb: Option<nat>, self: nat, sched: Option<nat>)
    requires fd < |r.table| && (fd in r.env.kernel <==> Any(r.table[fd].events))
    ensures
      var r', c := AddAt(r, fd, e, cb, self, sched, true), r.table[fd];
      && r'.table == r.table[fd := SetContext(c.(events := Put(c.events, e, true)), e, Filled(cb, self, sched))]
      && r'.pending == r.pending + 1 && r'.env.kernel.Keys == r.env.kernel.Keys + {fd}
      && r'.env.accepted == r.env.accepted + multiset{Item(NewWork(cb, self), sched)}
      && r'.env.handed == r.env.handed && r'.env.deleted == r.env.deleted && r'.env.legal == r.env.legal
      && r'.env.ok == (r.env.ok && GetContext(c, e) == EMPTY)
  {}

  lemma AddAtKeeps(r: Reg, fd: nat, e: Event, cb: Option<nat>, self: nat, sched: Option<nat>, k: bool)
    requires RegInv(r) && fd < |r.table| && !Registered(r, fd, e) && sched.Some?
    ensures RegInv(AddAt(r, fd, e, cb, self, sched, k))
  {
    if k {
      AddShape(r, fd, e, cb, self, sched);
      FilledStores(cb, self, sched);
      AddedKeeps(r, AddAt(r, fd, e, cb, self, sched, true), fd, e, Filled(cb, self, sched));
    }
  }

  lemma AddedKeeps(r: Reg, r': Reg, fd: nat, e: Event, x: EventContext)
    requires RegInv(r) && fd < |r.table| && !Registered(r, fd, e) && Fits(x, true)
    requires r'.table == r.table[fd := SetContext(r.table[fd].(events := Put(r.table[fd].events, e, true)), e, x)]
    requires r'.pending == r.pending + 1 && r'.env.kernel.Keys == r.env.kernel.Keys + {fd}
    requires r'.env.accepted == r.env.accepted + Stored(x)
    requires r'.env.handed == r.env.handed && r'.env.deleted == r.env.deleted
    requires r'.env.legal && r'.env.ok
    ensures RegInv(r')
  {
    var c := r.table[fd];
    var c' := SetContext(c.(events := Put(c.events, e, true)), e, x);
    assert Consistent(c);
    SwapsOutAll(x);
    forall y ensures StoredIn(c', y) == StoredIn(c, y) + Stored(x)[y] { PutStores(c, e, x, y); }
    SlotKeeps(r, r', fd, c');
  }

  lemma AddKeeps(r: Reg, fd: nat, e: Event, cb: Option<nat>, self: nat, sched: Option<nat>, k: bool)
    requires RegInv(r) && Proper(r, Add(fd, e, cb, self, sched, k))
    ensures RegInv(AddEvent(r, fd, e, cb, self, sched, k))
  {
    ReserveKeeps(r, fd);
    Reserved(r.table, fd);
    AddAtKeeps(r.(table := Reserve(r.table, fd)), fd, e, cb, self, sched, k);
  }

  lemma DelKeeps(r: Reg, fd: nat, e: Event, k: bool)
    requires RegInv(r)
    ensures RegInv(DelEvent(r, fd, e, k))
  {
    if k && Registered(r, fd, e) {
      var r' := DelEvent(r, fd, e, k);
      assert Consistent(r.table[fd]);
      SwapsOutAll(GetContext(r.table[fd], e));
      EmptyStoresNothing();
      SlotKeeps(r, r', fd, r'.table[fd]);
    }
  }

  function WithKernel(r: Reg, k: map<nat, Mask>): Reg {
    r.(env := r.env.(kernel := k))
  }

  /** The registry with slot `fd` dropped from the interest set or kept in it, as its bits say. */
  ghost predicate Asked(r: Reg, r1: Reg, fd: nat, left: Bits) {
    && r1 == WithKernel(r, r1.env.kernel)
    && r1.env.kernel.Keys == if Any(left) then r.env.kernel.Keys + {fd} else r.env.kernel.Keys - {fd}
  }

  /** The context of a set bit hands over all it stores, one item, and is empty afterwards. */
  lemma SwapsOutAll(x: EventContext)
    requires Fits(x, true)
    ensures ToSchedule(x) == Stored(x) && |Stored(x)| == 1 && SwappedOut(x) == EMPTY
  {}

  lemma EmptyStoresNothing()
    ensures Stored(EMPTY) == multiset{}
  {}

  /** Triggering one event after the kernel was told about the bits that stay. */
  lemma TriggerKeeps(r: Reg, r1: Reg, fd: nat, e: Event)
    requires RegInv(r) && Registered(r, fd, e) && Asked(r, r1, fd, Put(r.table[fd].events, e, false))
    ensures RegInv(Trigger(r1, fd, e))
  {
    var c := r.table[fd];
    var x := GetContext(c, e);
    assert Consistent(c);
    SwapsOutAll(x);
    EmptyStoresNothing();
    var c' := SetContext(c.(events := Put(c.events, e, false)), e, EMPTY);
    var r' := Trigger(r1, fd, e);
    assert forall y :: StoredIn(c, y) == StoredIn(c', y) + Stored(x)[y];
    SlotKeeps(r, r', fd, c');
  }

  lemma CancelKeeps(r: Reg, fd: nat, e: Event, k: bool)
    requires RegInv(r)
    ensures RegInv(CancelEvent(r, fd, e, k))
  {
    if k && Registered(r, fd, e) {
      var op := if Any(Put(r.table[fd].events, e, false)) then MOD else DEL;
      TriggerKeeps(r, EpollCtl(r, op, fd, OpAsMask(op)), fd, e);
    }
  }

  /** Triggering a set of registered events after the kernel was told about the bits that stay. */
  lemma TriggerBothKeeps(r: Reg, r1: Reg, fd: nat, due: Bits)
    requires RegInv(r) && fd < |r.table| && Any(due) && !Any(Minus(due, r.table[fd].events))
    requires Asked(r, r1, fd, Minus(r.table[fd].events, due))
    ensures RegInv(TriggerIf(TriggerIf(r1, fd, READ, due.read), fd, WRITE, due.write))
  {
    if !due.write {
      TriggerKeeps(r, r1, fd, READ);
    } else if !due.read {
      TriggerKeeps(r, r1, fd, WRITE);
    } else {
      TriggerEachKeeps(r, r1, fd);
    }
  }

  lemma TriggerIgnoresKernel(r: Reg, k: map<nat, Mask>, fd: nat, e: Event)
    requires fd < |r.table|
    ensures Trigger(WithKernel(r, k), fd, e) == WithKernel(Trigger(r, fd, e), k)
  {}

  /** Both events: as if the kernel had been told after each of the two. */
  lemma TriggerEachKeeps(r: Reg, r1: Reg, fd: nat)
    requires RegInv(r) && Registered(r, fd, READ) && Registered(r, fd, WRITE)
    requires Asked(r, r1, fd, Bits(false, false))
    ensures RegInv(Trigger(Trigger(r1, fd, READ), fd, WRITE))
  {
    assert Asked(r, r, fd, Bits(false, true)) by { assert r.env.kernel.Keys + {fd} == r.env.kernel.Keys; }
    TriggerKeeps(r, r, fd, READ);
    TriggerIgnoresKernel(r, r1.env.kernel, fd, READ);
    TriggerKeeps(Trigger(r, fd, READ), Trigger(r1, fd, READ), fd, WRITE);
  }

  lemma CancelAllKeeps(r: Reg, fd: nat, k: bool)
    requires RegInv(r)
    ensures RegInv(CancelAll(r, fd, k))
  {
    if k && fd < |r.table| && Any(r.table[fd].events) {
      var r1 := EpollCtl(r, DEL, fd, OpAsMask(DEL));
      TriggerBothKeeps(r, r1, fd, r.table[fd].events);
    }
  }

  lemma DispatchKeeps(r: Reg, fd: nat, report: Mask, k: bool)
    requires RegInv(r) && Proper(r, Report(fd, report, k))
    ensures RegInv(Dispatch(r, fd, report, k))
  {
    if k && fd < |r.table| {
      var events := r.table[fd].events;
      var flags := Completed(report, events);
      var due := Due(flags);
      if Overlap(events, due) {
        var op := if Any(Minus(events, due)) then MOD else DEL;
        TriggerBothKeeps(r, EpollCtl(r, op, fd, flags), fd, due);
      }
    }
  }

  lemma CallKeeps(r: Reg, c: Call)
    requires RegInv(r) && Proper(r, c)
    ensures RegInv(Apply(r, c))
  {
    match c
    case Add(fd, e, cb, self, sched, k) => AddKeeps(r, fd, e, cb, self, sched, k);
    case Del(fd, e, k) => DelKeeps(r, fd, e, k);
    case Cancel(fd, e, k) => CancelKeeps(r, fd, e, k);
    case CancelEach(fd, k) => CancelAllKeeps(r, fd, k);
    case Report(fd, flags, k) => DispatchKeeps(r, fd, flags, k);
  }

  /** In every reachable registry: the pending counter is the number of set bits; a bit is set iff
      its context has a scheduler and exactly one of callback and fiber; slot i owns descriptor i;
      the kernel watches exactly the descriptors with a set bit and was never asked for an
      impossible change; no assertion failed; and the accepted registrations are exactly the
      stored, the handed-over and the deleted ones. */
  lemma {:induction false} RegistryInvariant(r: Reg, calls: seq<Call>)
    requires RegInv(r) && Runs(r, calls)
    ensures RegInv(Outcome(r, calls))
    decreases |calls|
  {
    if calls != [] {
      CallKeeps(r, calls[0]);
      RegistryInvariant(Apply(r, calls[0]), calls[1..]);
    }
  }
}
