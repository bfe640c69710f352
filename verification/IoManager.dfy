/** IOManager's registry operations on context objects that are updated in place. */
module IoManager {
  import opened Fibers
  import opened Registry

  /** IOManager::FdContext, an object the table points to. */
  class Slot {
    var fd: nat
    var events: Bits
    var read: EventContext
    var write: EventContext

    constructor (fd: nat)
      ensures View() == Vacant(fd)
    {
      this.fd, events, read, write := fd, Bits(false, false), EMPTY, EMPTY;
    }

    ghost function View(): FdContext
      reads this
    {
      FdContext(fd, events, read, write)
    }

    function Get(e: Event): EventContext
      reads this
    {
      if e.READ? then read else write
    }

    method Set(e: Event, x: EventContext)
      modifies this`read, this`write
      ensures View() == SetContext(old(View()), e, x)
    {
      if e.READ? {
        read := x;
      } else {
        write := x;
      }
    }
  }

  ghost function Views(s: seq<Slot>): (v: seq<FdContext>)
    reads s
    ensures |v| == |s| && forall i :: 0 <= i < |s| ==> v[i] == s[i].View()
  {
    seq(|s|, i requires 0 <= i < |s| reads s => s[i].View())
  }

  class Manager {
    var slots: seq<Slot>           // m_fdContext
    var pending: int               // m_pendingEventCount
    var env: Env                   // the interest set behind m_epfd, and the histories

    /** Every slot of the table owns a context of its own. */
    ghost predicate Valid()
      reads this
    {
      forall i, j :: 0 <= i < j < |slots| ==> slots[i] != slots[j]
    }

    ghost function Table(): seq<FdContext>
      reads this`slots, slots
    {
      Views(slots)
    }

    ghost function Abs(): Reg
      reads this, slots
    {
      Reg(Table(), pending, env)
    }

    constructor ()
      ensures Valid() && Abs() == Created()
    {
      slots, pending := [], 0;
      env := Env(map[], multiset{}, multiset{}, multiset{}, true, true);
      new;
      assert Table() == [];
      ContextResize(32);
    }

    /** contextResize: the old contexts stay where they are, new slots get new contexts. */
    method ContextResize(size: nat)
      requires Valid()
      modifies this`slots
      ensures Valid() && Abs() == old(Abs()).(table := Resize(old(Table()), size))
      ensures |slots| == size
      ensures forall i :: 0 <= i < size && i < old(|slots|) ==> slots[i] == old(slots)[i]
      ensures forall i :: old(|slots|) <= i < size ==> fresh(slots[i])
    {
      if size <= |slots| {
        slots := slots[..size];
        assert Table() == old(Table())[..size];
        return;
      }
      assert Table() == old(Table())[..|slots|];
      while |slots| < size
        invariant old(|slots|) <= |slots| <= size && slots[..old(|slots|)] == old(slots)
        invariant forall i, j :: 0 <= i < j < |slots| ==> slots[i] != slots[j]
        invariant forall i :: old(|slots|) <= i < |slots| ==> fresh(slots[i])
        invariant Table() == Resize(old(Table()), |slots|)
      {
        ghost var before := Table();
        var slot := new Slot(|slots|);
        slots := slots + [slot];
        assert Table() == before + [slot.View()];
      }
    }

    /** epoll_ctl; the environment may let a legal request fail. */
    method EpollCtl(op: Op, fd: nat, mask: Mask, kernelAgrees: bool) returns (ret: int)
      modifies this`env
      ensures ret == 0 <==> Succeeds(old(Abs()), op, fd, kernelAgrees)
      ensures Abs() == if ret == 0 then Registry.EpollCtl(old(Abs()), op, fd, mask)
                       else Refused(old(Abs()), op, fd)
    {
      if op.ADD? == (fd in env.kernel) {
        env := env.(legal := false);
        return -1;
      }
      if !kernelAgrees {
        return -1;
      }
      if op.DEL? {
        env := env.(kernel := env.kernel - {fd});
      } else {
        env := env.(kernel := env.kernel[fd := mask]);
      }
      return 0;
    }

    /** Writes the bits and one event context of a slot; every other slot keeps its context. */
    method Write(fd: nat, events: Bits, e: Event, x: EventContext)
      requires Valid() && fd < |slots|
      modifies slots[fd]
      ensures Table() == old(Table())[fd := SetContext(old(Table())[fd].(events := events), e, x)]
    {
      var slot := slots[fd];
      slot.events := events;
      slot.Set(e, x);
      assert Table() == old(Table())[fd := slot.View()];
    }

    /** The counter, the slot and the histories of one accepted, deleted or fired registration. */
    method Commit(fd: nat, events: Bits, e: Event, x: EventContext, delta: int, env': Env)
      requires Valid() && fd < |slots|
      modifies this`pending, this`env, slots[fd]
      ensures Abs() == Reg(old(Table())[fd := SetContext(old(Table())[fd].(events := events), e, x)],
                           old(pending) + delta, env')
    {
      pending := pending + delta;
      env := env';
      Write(fd, events, e, x);
    }

    method AddEvent(fd: nat, e: Event, cb: Option<nat>, self: nat, sched: Option<nat>, kernelAgrees: bool)
      returns (ret: int)
      requires Valid()
      modifies this, slots
      ensures Valid() && Abs() == Registry.AddEvent(old(Abs()), fd, e, cb, self, sched, kernelAgrees)
      ensures ret == 0 <==> pending == old(pending) + 1
      ensures old(|slots|) <= |slots| ==> old(slots) <= slots
    {
      if |slots| <= fd {
        ContextResize(fd * 3 / 2);
      }
      ghost var r := Abs();
      if |slots| <= fd {
        env := env.(ok := false);
        return -1;
      }
      ret := AddAt(fd, e, cb, self, sched, kernelAgrees);
    }

    /** addEvent after the context was found. */
    method AddAt(fd: nat, e: Event, cb: Option<nat>, self: nat, sched: Option<nat>, kernelAgrees: bool)
      returns (ret: int)
      requires Valid() && fd < |slots|
      modifies this, slots[fd]
      ensures ret == 0 <==> pending == old(pending) + 1
      ensures slots == old(slots) && Abs() == Registry.AddAt(old(Abs()), fd, e, cb, self, sched, kernelAgrees)
    {
      var slot := slots[fd];
      assert Table()[fd] == slot.View();
      var op := if Any(slot.events) then MOD else ADD;
      ret := EpollCtl(op, fd, EdgeMask(Put(slot.events, e, true)), kernelAgrees);
      if ret != 0 {
        return -1;
      }
      var work := if cb.Some? then Callback(cb.value) else FiberWork(self);
      var x := EventContext(sched, if cb.Some? then None else Some(self), cb);
      Commit(fd, Put(slot.events, e, true), e, x, 1,
             env.(accepted := env.accepted + multiset{Item(work, sched)}, ok := env.ok && slot.Get(e) == EMPTY));
    }

    method DelEvent(fd: nat, e: Event, kernelAgrees: bool) returns (done: bool)
      requires Valid()
      modifies this, slots
      ensures Valid() && slots == old(slots) && Abs() == Registry.DelEvent(old(Abs()), fd, e, kernelAgrees)
      ensures done <==> pending == old(pending) - 1
    {
      if fd >= |slots| {
        return false;
      }
      var slot := slots[fd];
      assert Table()[fd] == slot.View();
      if !Has(slot.events, e) {
        return false;
      }
      var left := Put(slot.events, e, false);
      var op := if Any(left) then MOD else DEL;
      var ret := EpollCtl(op, fd, EdgeMask(left), kernelAgrees);
      if ret != 0 {
        return false;
      }
      Commit(fd, left, e, EMPTY, -1, env.(deleted := env.deleted + Stored(slot.Get(e))));
      return true;
    }

    /** triggerEvent and the decrement that follows it. */
    method Trigger(fd: nat, e: Event)
      requires Valid() && fd < |slots|
      modifies this, slots[fd]
      ensures slots == old(slots) && Abs() == Registry.Trigger(old(Abs()), fd, e)
    {
      var slot := slots[fd];
      assert Table()[fd] == slot.View();
      var x := slot.Get(e);
      if !Has(slot.events, e) || x.scheduler.None? {
        env := env.(ok := false);
        return;
      }
      var sent := multiset{};
      if x.cb.Some? {
        sent := multiset{Item(Callback(x.cb.value), x.scheduler)};
        x := x.(cb := None);
      } else {
        if x.fiber.Some? {
          sent := multiset{Item(FiberWork(x.fiber.value), x.scheduler)};
        }
        x := x.(fiber := None);
      }
      Commit(fd, Put(slot.events, e, false), e, x.(scheduler := None), -1, env.(handed := env.handed + sent));
    }

    method CancelEvent(fd: nat, e: Event, kernelAgrees: bool) returns (done: bool)
      requires Valid()
      modifies this, slots
      ensures Valid() && slots == old(slots) && Abs() == Registry.CancelEvent(old(Abs()), fd, e, kernelAgrees)
      ensures env.ok ==> (done <==> pending == old(pending) - 1)
    {
      if fd >= |slots| {
        return false;
      }
      var slot := slots[fd];
      assert Table()[fd] == slot.View();
      if !Has(slot.events, e) {
        return false;
      }
      var op := if Any(Put(slot.events, e, false)) then MOD else DEL;
      var ret := EpollCtl(op, fd, OpAsMask(op), kernelAgrees);
      if ret != 0 {
        return false;
      }
      Trigger(fd, e);
      return true;
    }

    method CancelAll(fd: nat, kernelAgrees: bool) returns (done: bool)
      requires Valid()
      modifies this, slots
      ensures Valid() && slots == old(slots) && Abs() == Registry.CancelAll(old(Abs()), fd, kernelAgrees)
      ensures env.ok ==> (done <==> pending < old(pending))
    {
      if fd >= |slots| {
        return false;
      }
      var slot := slots[fd];
      assert Table()[fd] == slot.View();
      if !Any(slot.events) {
        return false;
      }
      var ret := EpollCtl(DEL, fd, OpAsMask(DEL), kernelAgrees);
      if ret != 0 {
        return false;
      }
      if slot.events.read {
        Trigger(fd, READ);
      }
      assert Table()[fd] == slot.View();
      if slot.events.write {
        Trigger(fd, WRITE);
      }
      return true;
    }

    /** One round of the dispatch loop. */
    method DispatchOne(fd: nat, report: Mask, kernelAgrees: bool)
      requires Valid()
      modifies this, slots
      ensures Valid() && slots == old(slots) && Abs() == Registry.Dispatch(old(Abs()), fd, report, kernelAgrees)
    {
      if fd >= |slots| {
        return;
      }
      var slot := slots[fd];
      assert Table()[fd] == slot.View();
      var flags := report;
      if flags.rd || flags.hup {
        flags := flags.(rd := flags.rd || slot.events.read);
      }
      var due := Bits(flags.rd || flags.hup, flags.wr);
      if !Overlap(slot.events, due) {
        return;
      }
      var op := if Any(Minus(slot.events, due)) then MOD else DEL;
      var ret := EpollCtl(op, fd, flags, kernelAgrees);
      if ret == 0 {
        TriggerDue(fd, due);
      }
    }

    method TriggerDue(fd: nat, due: Bits)
      requires Valid() && fd < |slots|
      modifies this, slots[fd]
      ensures slots == old(slots)
      ensures Abs() == TriggerIf(TriggerIf(old(Abs()), fd, READ, due.read), fd, WRITE, due.write)
    {
      if due.read {
        Trigger(fd, READ);
      }
      if due.write {
        Trigger(fd, WRITE);
      }
    }

    /** The dispatch loop of idle() over the reported events; a report of the tickle pipe only drains
        the pipe. */
    method DispatchLoop(reports: seq<Reported>)
      requires Valid()
      modifies this, slots
      ensures Valid() && slots == old(slots)
      ensures Abs() == Outcome(old(Abs()), Reports(reports))
    {
      for i := 0 to |reports|
        invariant Valid() && slots == old(slots)
        invariant Abs() == Outcome(old(Abs()), Reports(reports[..i]))
      {
        assert reports[..i + 1][..i] == reports[..i];
        if reports[i].Tickle? {
          continue;
        }
        var fd, flags, kernelAgrees := reports[i].fd, reports[i].flags, reports[i].kernelAgrees;
        OutcomeSnoc(old(Abs()), Reports(reports[..i]), Report(fd, flags, kernelAgrees));
        DispatchOne(fd, flags, kernelAgrees);
      }
      assert reports[..|reports|] == reports;
    }
  }

  /** One entry of what epoll_wait fills in, with the answer epoll_ctl will give. */
  datatype Reported = Tickle | Ready(fd: nat, flags: Mask, kernelAgrees: bool)

  /** The calls that a sequence of reports amounts to. */
  function Reports(reports: seq<Reported>): seq<Call> {
    if reports == [] then []
    else
      var front := Reports(reports[..|reports| - 1]);
      match reports[|reports| - 1]
      case Tickle => front
      case Ready(fd, flags, kernelAgrees) => front + [Report(fd, flags, kernelAgrees)]
  }

  lemma {:induction false} OutcomeSnoc(r: Reg, calls: seq<Call>, c: Call)
    ensures Outcome(r, calls + [c]) == Apply(Outcome(r, calls), c)
    decreases |calls|
  {
    if calls == [] {
      assert [] + [c] == [c];
    } else {
      assert (calls + [c])[1..] == calls[1..] + [c];
      OutcomeSnoc(Apply(r, calls[0]), calls[1..], c);
    }
  }
}
