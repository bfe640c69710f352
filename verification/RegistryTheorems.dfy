/** What callers of the event registry can rely on, and what exactly they must respect. */
module RegistryTheorems {
  import opened Fibers
  import opened Registry

  /** Registrations are conserved: every accepted one is still stored, was handed over, or was
      deleted, item by item and in total. */
  lemma RegistrationsAreConserved(calls: seq<Call>, x: Item)
    requires Runs(Created(), calls)
    ensures
      var r := Outcome(Created(), calls);
      && r.env.accepted[x] == AllStored(r.table, x) + r.env.handed[x] + r.env.deleted[x]
      && |r.env.accepted| == r.pending + |r.env.handed| + |r.env.deleted|
  {
    CreatedHolds();
    RegistryInvariant(Created(), calls);
  }

  /** The counter, the contexts, the slots and the interest set agree in every reachable state. */
  lemma CounterBitsAndKernelAgree(calls: seq<Call>)
    requires Runs(Created(), calls)
    ensures
      var r := Outcome(Created(), calls);
      && r.env.ok && r.env.legal && r.pending == TotalBits(r.table) && |r.table| >= 32
      && (forall i :: 0 <= i < |r.table| ==> r.table[i].fd == i && Consistent(r.table[i]))
      && (forall fd: nat :: fd in r.env.kernel <==> fd < |r.table| && Any(r.table[fd].events))
  {
    CreatedHolds();
    RegistryInvariant(Created(), calls);
  }

  /** The table never shrinks. */
  lemma TableOnlyGrows(r: Reg, c: Call)
    requires RegInv(r)
    ensures |Apply(r, c).table| >= |r.table|
  {
    match c
    case Add(fd, _, _, _, _, _) => Reserved(r.table, fd);
    case Del(_, _, _) =>
    case Cancel(_, _, _) =>
    case CancelEach(_, _) =>
    case Report(_, _, _) =>
  }

  /** The condition on addEvent is exact. */
  lemma AddIff(r: Reg, fd: nat, e: Event, cb: Option<nat>, self: nat, sched: Option<nat>)
    requires RegInv(r)
    ensures RegInv(AddEvent(r, fd, e, cb, self, sched, true)) <==> !Registered(r, fd, e) && sched.Some?
  {
    Reserved(r.table, fd);
    ReserveKeeps(r, fd);
    var r' := AddEvent(r, fd, e, cb, self, sched, true);
    if !Registered(r, fd, e) && sched.Some? {
      AddKeeps(r, fd, e, cb, self, sched, true);
    } else if Registered(r, fd, e) {
      assert Consistent(r.table[fd]);
      assert !r'.env.ok;
    } else {
      assert !Consistent(r'.table[fd]);
    }
  }

  /** The dispatch loop meets no assertion if and only if the report names only registered events
      (or none of them), or the kernel refuses. */
  lemma DispatchIff(r: Reg, fd: nat, report: Mask, kernelAgrees: bool)
    requires RegInv(r) && fd < |r.table|
    ensures Dispatch(r, fd, report, kernelAgrees).env.ok <==> ProperReport(r.table[fd].events, report) || !kernelAgrees
  {
    if ProperReport(r.table[fd].events, report) {
      DispatchKeeps(r, fd, report, kernelAgrees);
    }
  }

  /** An input on which it fails: only WRITE is registered and the peer hangs up, which the kernel
      reports unasked. READ is then triggered although nobody registered it. */
  lemma HangupFailsAssertion(r: Reg, fd: nat)
    requires RegInv(r) && fd < |r.table| && r.table[fd].events == Bits(false, true)
    ensures !Dispatch(r, fd, Mask(false, false, false, true, true), true).env.ok
  {
    DispatchIff(r, fd, Mask(false, false, false, true, true), true);
  }

  // ---- The flags the kernel watches ----

  /** The kernel watches every descriptor edge-triggered for exactly its registered events. */
  ghost predicate MasksAgree(r: Reg) {
    forall fd: nat :: fd in r.env.kernel ==> fd < |r.table| && r.env.kernel[fd] == EdgeMask(r.table[fd].events)
  }

  predicate KeepsMasks(c: Call) {
    c.Add? || c.Del? || c.CancelEach?
  }

  lemma AddMasks(r: Reg, fd: nat, e: Event, cb: Option<nat>, self: nat, sched: Option<nat>, k: bool)
    requires RegInv(r) && MasksAgree(r)
    ensures MasksAgree(AddEvent(r, fd, e, cb, self, sched, k))
  {
    Reserved(r.table, fd);
  }

  lemma DelMasks(r: Reg, fd: nat, e: Event, k: bool)
    requires RegInv(r) && MasksAgree(r)
    ensures MasksAgree(DelEvent(r, fd, e, k))
  {}

  /** triggerEvent changes the slot it fires and nothing of the interest set. */
  lemma TriggerFrame(r: Reg, fd: nat, e: Event, fire: bool)
    requires fd < |r.table|
    ensures
      var r' := TriggerIf(r, fd, e, fire);
      && r'.env.kernel == r.env.kernel
      && (forall i :: 0 <= i < |r.table| && i != fd ==> r'.table[i] == r.table[i])
      && (r'.env.ok && fire ==> r'.table[fd].events == Put(r.table[fd].events, e, false))
      && (!fire ==> r' == r)
      && (r'.env.ok ==> r.env.ok)
  {}

  lemma CancelAllFrame(r: Reg, fd: nat)
    requires fd < |r.table| && fd in r.env.kernel && Any(r.table[fd].events)
    ensures
      var r' := CancelAll(r, fd, true);
      && |r'.table| == |r.table| && r'.env.kernel == r.env.kernel - {fd}
      && (forall i :: 0 <= i < |r.table| && i != fd ==> r'.table[i] == r.table[i])
  {
    var r1 := EpollCtl(r, DEL, fd, OpAsMask(DEL));
    TriggerFrame(r1, fd, READ, r1.table[fd].events.read);
    var r2 := TriggerIf(r1, fd, READ, r1.table[fd].events.read);
    TriggerFrame(r2, fd, WRITE, r2.table[fd].events.write);
  }

  lemma CancelAllMasks(r: Reg, fd: nat, k: bool)
    requires RegInv(r) && MasksAgree(r)
    ensures MasksAgree(CancelAll(r, fd, k))
  {
    if k && fd < |r.table| && Any(r.table[fd].events) {
      CancelAllFrame(r, fd);
    }
  }

  lemma MasksFollow(r: Reg, c: Call)
    requires RegInv(r) && MasksAgree(r) && KeepsMasks(c)
    ensures MasksAgree(Apply(r, c))
  {
    match c
    case Add(fd, e, cb, self, sched, k) => AddMasks(r, fd, e, cb, self, sched, k);
    case Del(fd, e, k) => DelMasks(r, fd, e, k);
    case CancelEach(fd, k) => CancelAllMasks(r, fd, k);
  }

  /** Over runs of addEvent, delEvent and cancelAll the stored flags are EPOLLET plus the bits. */
  lemma {:induction false} MasksAlwaysAgree(r: Reg, calls: seq<Call>)
    requires RegInv(r) && MasksAgree(r) && Runs(r, calls)
    requires forall i :: 0 <= i < |calls| ==> KeepsMasks(calls[i])
    ensures MasksAgree(Outcome(r, calls))
    decreases |calls|
  {
    if calls != [] {
      CallKeeps(r, calls[0]);
      MasksFollow(r, calls[0]);
      MasksAlwaysAgree(Apply(r, calls[0]), calls[1..]);
    }
  }

  /** cancelEvent passes the operation code as the flags: the kernel's flags are right afterwards
      if and only if no other event of the descriptor remains. */
  lemma CancelMasksIff(r: Reg, fd: nat, e: Event)
    requires RegInv(r) && MasksAgree(r) && Registered(r, fd, e)
    ensures MasksAgree(CancelEvent(r, fd, e, true)) <==> !Any(Put(r.table[fd].events, e, false))
  {
    var left := Put(r.table[fd].events, e, false);
    var op := if Any(left) then MOD else DEL;
    var r1 := EpollCtl(r, op, fd, OpAsMask(op));
    CancelKeeps(r, fd, e, true);
    TriggerFrame(r1, fd, e, true);
    OneSlotMasks(r, CancelEvent(r, fd, e, true), fd, left, OpAsMask(op));
  }

  /** Slot `fd` changed and its flags were set to `flags`, or dropped with its last event. */
  lemma OneSlotMasks(r: Reg, r': Reg, fd: nat, left: Bits, flags: Mask)
    requires MasksAgree(r) && fd < |r.table| == |r'.table| && r'.table[fd].events == left
    requires forall i :: 0 <= i < |r.table| && i != fd ==> r'.table[i] == r.table[i]
    requires r'.env.kernel == if Any(left) then r.env.kernel[fd := flags] else r.env.kernel - {fd}
    ensures MasksAgree(r') <==> (Any(left) ==> flags == EdgeMask(left))
  {
    if Any(left) {
      assert r'.env.kernel[fd] == flags;
    }
  }

  /** A consequence: cancelling READ while WRITE stays registered makes the kernel stop watching
      for WRITE. */
  lemma CancelReadForgetsWrite(r: Reg, fd: nat)
    requires RegInv(r) && Registered(r, fd, READ) && Registered(r, fd, WRITE)
    ensures
      var r' := CancelEvent(r, fd, READ, true);
      Registered(r', fd, WRITE) && fd in r'.env.kernel && !r'.env.kernel[fd].wr
  {}

  /** idle() passes the reported flags: the kernel's flags are right afterwards if and only if
      nothing was dispatched or no event of the descriptor remains. */
  lemma DispatchMasksIff(r: Reg, fd: nat, report: Mask)
    requires RegInv(r) && MasksAgree(r) && fd < |r.table| && ProperReport(r.table[fd].events, report)
    ensures
      var events := r.table[fd].events;
      var due := Due(Completed(report, events));
      MasksAgree(Dispatch(r, fd, report, true)) <==> !Overlap(events, due) || !Any(Minus(events, due))
  {
    var events := r.table[fd].events;
    var flags := Completed(report, events);
    var due := Due(flags);
    var r' := Dispatch(r, fd, report, true);
    if Overlap(events, due) {
      DispatchSlots(r, fd, report);
      OneSlotMasks(r, r', fd, Minus(events, due), flags);
    }
  }

  /** An input on which they are wrong: READ and WRITE are registered and a plain EPOLLIN is reported.
      WRITE stays registered, and the kernel no longer watches for it. */
  lemma ReadReportForgetsWrite(r: Reg, fd: nat)
    requires RegInv(r) && MasksAgree(r) && fd < |r.table| && r.table[fd].events == Bits(true, true)
    ensures
      var r' := Dispatch(r, fd, Mask(false, true, false, false, false), true);
      !MasksAgree(r') && Registered(r', fd, WRITE) && fd in r'.env.kernel && !r'.env.kernel[fd].wr
  {
    DispatchMasksIff(r, fd, Mask(false, true, false, false, false));
    DispatchSlots(r, fd, Mask(false, true, false, false, false));
  }

  lemma DispatchSlots(r: Reg, fd: nat, report: Mask)
    requires RegInv(r) && fd < |r.table| && ProperReport(r.table[fd].events, report)
    requires Overlap(r.table[fd].events, Due(Completed(report, r.table[fd].events)))
    ensures
      var events := r.table[fd].events;
      var left := Minus(events, Due(Completed(report, events)));
      var r' := Dispatch(r, fd, report, true);
      && |r'.table| == |r.table| && r'.table[fd].events == left
      && (forall i :: 0 <= i < |r.table| && i != fd ==> r'.table[i] == r.table[i])
      && r'.env.kernel == if Any(left) then r.env.kernel[fd := Completed(report, events)] else r.env.kernel - {fd}
  {
    var events := r.table[fd].events;
    var flags := Completed(report, events);
    var due := Due(flags);
    assert Dispatch(r, fd, report, true).env.ok by { DispatchKeeps(r, fd, report, true); }
    TriggerBothFrame(EpollCtl(r, if Any(Minus(events, due)) then MOD else DEL, fd, flags), fd, due);
  }

  lemma TriggerBothFrame(r: Reg, fd: nat, due: Bits)
    requires fd < |r.table|
    ensures
      var r' := TriggerIf(TriggerIf(r, fd, READ, due.read), fd, WRITE, due.write);
      && r'.env.kernel == r.env.kernel
      && (forall i :: 0 <= i < |r.table| && i != fd ==> r'.table[i] == r.table[i])
      && (r'.env.ok ==> r'.table[fd].events == Minus(r.table[fd].events, due))
  {
    TriggerFrame(r, fd, READ, due.read);
    TriggerFrame(TriggerIf(r, fd, READ, due.read), fd, WRITE, due.write);
  }

  // ---- The flag words themselves ----

  /** The word of an epoll_event: EPOLLIN is 1, EPOLLPRI 2, EPOLLOUT 4, EPOLLHUP 16, EPOLLET 2^31. */
  function Word(m: Mask): nat {
    (if m.rd then 1 else 0) + (if m.pri then 2 else 0) + (if m.wr then 4 else 0) + (if m.hup then 16 else 0)
    + (if m.et then 0x8000_0000 else 0)
  }

  /** After any run of addEvent, delEvent and cancelAll the kernel watches a descriptor edge-triggered,
      for EPOLLIN iff READ is registered and for EPOLLOUT iff WRITE is, and for nothing else. */
  lemma FlagsAreTheBits(calls: seq<Call>, fd: nat)
    requires Runs(Created(), calls) && forall i :: 0 <= i < |calls| ==> KeepsMasks(calls[i])
    requires fd in Outcome(Created(), calls).env.kernel
    ensures
      var r := Outcome(Created(), calls);
      var m := r.env.kernel[fd];
      && m.et && !m.pri && !m.hup
      && (m.rd <==> Registered(r, fd, READ)) && (m.wr <==> Registered(r, fd, WRITE))
      && Word(m) == 0x8000_0000 + (if Registered(r, fd, READ) then 1 else 0)
                                + (if Registered(r, fd, WRITE) then 4 else 0)
  {
    CreatedHolds();
    MasksAlwaysAgree(Created(), calls);
  }

  /** The request of a successful addEvent: EPOLLET, what was registered, and the new event. */
  lemma AddRequest(r: Reg, fd: nat, e: Event, cb: Option<nat>, self: nat, sched: Option<nat>)
    requires RegInv(r)
    ensures
      var kernel := AddEvent(r, fd, e, cb, self, sched, true).env.kernel;
      && fd in kernel
      && Word(kernel[fd]) == 0x8000_0000 + (if e.READ? || Registered(r, fd, READ) then 1 else 0)
                                         + (if e.WRITE? || Registered(r, fd, WRITE) then 4 else 0)
  {
    Reserved(r.table, fd);
    ReserveKeeps(r, fd);
  }

  /** cancelEvent asks for the word 3, EPOLL_CTL_MOD, where something stays registered. */
  lemma CancelRequest(r: Reg, fd: nat, e: Event)
    requires RegInv(r) && Registered(r, fd, READ) && Registered(r, fd, WRITE)
    ensures
      var kernel := CancelEvent(r, fd, e, true).env.kernel;
      fd in kernel && Word(kernel[fd]) == 3
  {
    TriggerFrame(EpollCtl(r, MOD, fd, OpAsMask(MOD)), fd, e, true);
  }

  lemma OperationWords()
    ensures Word(OpAsMask(ADD)) == 1 && Word(OpAsMask(DEL)) == 2 && Word(OpAsMask(MOD)) == 3
  {}

  /** The dispatch loop asks for the flags that were reported, with EPOLLIN added after a hang-up if READ
      was registered. */
  lemma DispatchRequest(r: Reg, fd: nat, report: Mask)
    requires RegInv(r) && fd < |r.table| && ProperReport(r.table[fd].events, report)
    requires (Registered(r, fd, READ) && (report.rd || report.hup)) || (Registered(r, fd, WRITE) && report.wr)
    ensures
      var r' := Dispatch(r, fd, report, true);
      && (fd in r'.env.kernel <==> Registered(r', fd, READ) || Registered(r', fd, WRITE))
      && (fd in r'.env.kernel ==>
            var m := r'.env.kernel[fd];
            && m.et == report.et && m.pri == report.pri && m.wr == report.wr && m.hup == report.hup
            && (m.rd <==> report.rd || (report.hup && Registered(r, fd, READ))))
  {
    DispatchSlots(r, fd, report);
    DispatchKeeps(r, fd, report, true);
  }

  /** Had the interest set been wrong, a request would fail and nothing would change but this note. */
  lemma WrongInterestIsNoted(r: Reg, fd: nat, e: Event, cb: Option<nat>, self: nat, sched: Option<nat>)
    requires fd < |r.table|
    ensures fd in r.env.kernel && !Any(r.table[fd].events) ==>
      AddAt(r, fd, e, cb, self, sched, true) == r.(env := r.env.(legal := false))
    ensures fd !in r.env.kernel && Any(r.table[fd].events) ==>
      AddAt(r, fd, e, cb, self, sched, true) == r.(env := r.env.(legal := false))
      && CancelAll(r, fd, true) == r.(env := r.env.(legal := false))
    ensures fd !in r.env.kernel && Has(r.table[fd].events, e) ==>
      DelEvent(r, fd, e, true) == r.(env := r.env.(legal := false))
      && CancelEvent(r, fd, e, true) == r.(env := r.env.(legal := false))
  {}
}
