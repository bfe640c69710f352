/** The life of every single registration: which call ends it, and what that call moves. */
module Registrations {
  import opened Fibers
  import opened Registry

  // ---- What calls are for, told from the caller's side ----

  /** The call registers event `e` of descriptor `fd`. */
  predicate Accepts(c: Call, fd: nat, e: Event) {
    c.Add? && c.fd == fd && c.e == e && c.kernelAgrees
  }

  /** What the call registers. */
  function NewItem(c: Call): Item
    requires c.Add?
  {
    Item(NewWork(c.cb, c.self), c.sched)
  }

  /** The call is a cancel, a cancel-all or a report that concerns a registered event. */
  predicate Fires(r: Reg, c: Call, fd: nat, e: Event) {
    && Registered(r, fd, e) && c.fd == fd && c.kernelAgrees
    && match c
       case Cancel(_, e', _) => e' == e
       case CancelEach(_, _) => true
       case Report(_, flags, _) => if e.READ? then flags.rd || flags.hup else flags.wr
       case _ => false
  }

  /** The call deletes a registered event. */
  predicate Deletes(r: Reg, c: Call, fd: nat, e: Event) {
    Registered(r, fd, e) && c.Del? && c.fd == fd && c.e == e && c.kernelAgrees
  }

  /** The history of event `e` of descriptor `fd`: the item of the last call that registered it, as
      long as no later call has fired or deleted it. */
  ghost function Open(r: Reg, calls: seq<Call>, fd: nat, e: Event, known: Option<Item>): Option<Item>
    decreases |calls|
  {
    if calls == [] then known
    else
      var c := calls[0];
      Open(Apply(r, c), calls[1..], fd, e,
           if Accepts(c, fd, e) then Some(NewItem(c))
           else if Fires(r, c, fd, e) || Deletes(r, c, fd, e) then None
           else known)
  }

  function If(on: bool, item: Option<Item>): multiset<Item> {
    if on && item.Some? then multiset{item.value} else multiset{}
  }

  // ---- What each call does to contexts and histories ----

  function ContextOf(r: Reg, fd: nat, e: Event): EventContext {
    if fd < |r.table| then GetContext(r.table[fd], e) else EMPTY
  }

  function FiredBits(r: Reg, c: Call): Bits {
    Bits(Fires(r, c, c.fd, READ), Fires(r, c, c.fd, WRITE))
  }

  /** A slot after some of its events have been handed over. */
  function Ended(c: FdContext, gone: Bits): FdContext {
    FdContext(c.fd, Minus(c.events, gone), if gone.read then EMPTY else c.read, if gone.write then EMPTY else c.write)
  }

  function Taken(c: FdContext, gone: Bits): multiset<Item> {
    (if gone.read then Stored(c.read) else multiset{}) + (if gone.write then Stored(c.write) else multiset{})
  }

  lemma TriggerEffect(r: Reg, fd: nat, e: Event)
    requires fd < |r.table| && Has(r.table[fd].events, e) && Fits(GetContext(r.table[fd], e), true)
    ensures
      var r', gone := Trigger(r, fd, e), Bits(e.READ?, e.WRITE?);
      && r'.table == r.table[fd := Ended(r.table[fd], gone)]
      && r'.env == r.env.(handed := r.env.handed + Taken(r.table[fd], gone))
  {
    SwapsOutAll(GetContext(r.table[fd], e));
  }

  /** The two triggers at the end of cancelAll and of the dispatch loop. */
  lemma TriggersEffect(r: Reg, fd: nat, due: Bits)
    requires fd < |r.table| && Consistent(r.table[fd]) && !Any(Minus(due, r.table[fd].events))
    ensures
      var r' := TriggerIf(TriggerIf(r, fd, READ, due.read), fd, WRITE, due.write);
      && r'.table == r.table[fd := Ended(r.table[fd], due)]
      && r'.env == r.env.(handed := r.env.handed + Taken(r.table[fd], due))
  {
    if due.read { TriggerEffect(r, fd, READ); }
    if due.write { TriggerEffect(TriggerIf(r, fd, READ, due.read), fd, WRITE); }
    assert r.table[fd := r.table[fd]] == r.table;
  }

  /** What the invariant says about one slot. */
  ghost predicate SlotFits(r: Reg, fd: nat) {
    fd < |r.table| && Consistent(r.table[fd]) && (fd in r.env.kernel <==> Any(r.table[fd].events))
  }

  lemma FitsFrom(r: Reg, fd: nat)
    requires RegInv(r) && fd < |r.table|
    ensures SlotFits(r, fd)
  {}

  /** Slot `fd` lost the events `gone`; `handed` and `deleted` were added to the histories. */
  ghost predicate Moved(r: Reg, r': Reg, fd: nat, gone: Bits, handed: multiset<Item>, deleted: multiset<Item>)
    requires fd < |r.table|
  {
    && r'.table == r.table[fd := Ended(r.table[fd], gone)]
    && r'.env.handed == r.env.handed + handed && r'.env.deleted == r.env.deleted + deleted
    && r'.env.accepted == r.env.accepted
  }

  const NOTHING := Bits(false, false)

  lemma NothingMoved(r: Reg, r': Reg, fd: nat)
    requires fd < |r.table| && r'.table == r.table && r'.env.handed == r.env.handed
    requires r'.env.deleted == r.env.deleted && r'.env.accepted == r.env.accepted
    ensures Moved(r, r', fd, NOTHING, Taken(r.table[fd], NOTHING), multiset{})
    ensures Moved(r, r', fd, NOTHING, multiset{}, Taken(r.table[fd], NOTHING))
  {
    assert r.table[fd := r.table[fd]] == r.table;
  }

  lemma CancelEffect(r: Reg, fd: nat, e: Event)
    requires SlotFits(r, fd) && Registered(r, fd, e)
    ensures
      var gone := Bits(e.READ?, e.WRITE?);
      Moved(r, CancelEvent(r, fd, e, true), fd, gone, Taken(r.table[fd], gone), multiset{})
  {
    var op := if Any(Put(r.table[fd].events, e, false)) then MOD else DEL;
    TriggerEffect(EpollCtl(r, op, fd, OpAsMask(op)), fd, e);
  }

  lemma CancelAllEffect(r: Reg, fd: nat)
    requires SlotFits(r, fd)
    ensures Moved(r, CancelAll(r, fd, true), fd, r.table[fd].events, Taken(r.table[fd], r.table[fd].events), multiset{})
  {
    if Any(r.table[fd].events) {
      TriggersEffect(EpollCtl(r, DEL, fd, OpAsMask(DEL)), fd, r.table[fd].events);
    } else {
      NothingMoved(r, r, fd);
    }
  }

  function Both(a: Bits, b: Bits): Bits {
    Bits(a.read && b.read, a.write && b.write)
  }

  lemma ReportEffect(r: Reg, fd: nat, report: Mask)
    requires SlotFits(r, fd) && ProperReport(r.table[fd].events, report)
    ensures
      var gone := Both(r.table[fd].events, Due(report));
      Moved(r, Dispatch(r, fd, report, true), fd, gone, Taken(r.table[fd], gone), multiset{})
  {
    var events := r.table[fd].events;
    var flags := Completed(report, events);
    assert Due(flags) == Due(report);
    if Overlap(events, Due(flags)) {
      TriggersEffect(EpollCtl(r, if Any(Minus(events, Due(flags))) then MOD else DEL, fd, flags), fd, Due(flags));
    } else {
      NothingMoved(r, r, fd);
    }
  }

  lemma DelEffect(r: Reg, fd: nat, e: Event)
    requires SlotFits(r, fd) && Registered(r, fd, e)
    ensures
      var gone := Bits(e.READ?, e.WRITE?);
      Moved(r, DelEvent(r, fd, e, true), fd, gone, multiset{}, Taken(r.table[fd], gone))
  {}

  function DeletedBits(r: Reg, c: Call): Bits {
    Bits(Deletes(r, c, c.fd, READ), Deletes(r, c, c.fd, WRITE))
  }

  /** The call fires or deletes the events `gone` of its slot, and does what it should with them. */
  ghost predicate EndsExactly(r: Reg, c: Call)
    requires c.fd < |r.table|
  {
    if c.Del? then Moved(r, Apply(r, c), c.fd, DeletedBits(r, c), multiset{}, Taken(r.table[c.fd], DeletedBits(r, c)))
    else Moved(r, Apply(r, c), c.fd, FiredBits(r, c), Taken(r.table[c.fd], FiredBits(r, c)), multiset{})
  }

  lemma RefusedEnds(r: Reg, c: Call)
    requires SlotFits(r, c.fd) && !c.Add? && !c.kernelAgrees
    ensures EndsExactly(r, c)
  {
    NothingMoved(r, Apply(r, c), c.fd);
  }

  lemma CancelEnds(r: Reg, c: Call)
    requires SlotFits(r, c.fd) && c.Cancel? && c.kernelAgrees
    ensures EndsExactly(r, c)
  {
    if Registered(r, c.fd, c.e) {
      CancelEffect(r, c.fd, c.e);
    } else {
      NothingMoved(r, r, c.fd);
    }
  }

  lemma DelEnds(r: Reg, c: Call)
    requires SlotFits(r, c.fd) && c.Del? && c.kernelAgrees
    ensures EndsExactly(r, c)
  {
    if Registered(r, c.fd, c.e) {
      DelEffect(r, c.fd, c.e);
    } else {
      NothingMoved(r, r, c.fd);
    }
  }

  lemma CancelAllEnds(r: Reg, c: Call)
    requires SlotFits(r, c.fd) && c.CancelEach? && c.kernelAgrees
    ensures EndsExactly(r, c)
  {
    CancelAllEffect(r, c.fd);
  }

  lemma ReportEnds(r: Reg, c: Call)
    requires SlotFits(r, c.fd) && c.Report? && c.kernelAgrees && ProperReport(r.table[c.fd].events, c.flags)
    ensures EndsExactly(r, c)
  {
    ReportEffect(r, c.fd, c.flags);
  }

  /** Every call but a registration takes from its descriptor exactly what it fires or deletes. */
  lemma CallEnds(r: Reg, c: Call)
    requires RegInv(r) && Proper(r, c) && !c.Add? && c.fd < |r.table|
    ensures EndsExactly(r, c)
  {
    FitsFrom(r, c.fd);
    if !c.kernelAgrees {
      RefusedEnds(r, c);
    } else {
      match c
      case Cancel(_, _, _) => CancelEnds(r, c);
      case Del(_, _, _) => DelEnds(r, c);
      case CancelEach(_, _) => CancelAllEnds(r, c);
      case Report(_, _, _) => ReportEnds(r, c);
    }
  }

  lemma OutsideMovesNothing(r: Reg, c: Call)
    requires !c.Add? && c.fd >= |r.table|
    ensures Apply(r, c) == r
  {}

  lemma AddEffect(r: Reg, c: Call)
    requires RegInv(r) && Proper(r, c) && c.Add?
    ensures
      var r', t := Apply(r, c), Reserve(r.table, c.fd);
      && c.fd < |t|
      && r'.table == (if c.kernelAgrees
                      then t[c.fd := SetContext(t[c.fd].(events := Put(t[c.fd].events, c.e, true)), c.e,
                                                Filled(c.cb, c.self, c.sched))]
                      else t)
      && r'.env.accepted == r.env.accepted + (if c.kernelAgrees then multiset{NewItem(c)} else multiset{})
      && r'.env.handed == r.env.handed && r'.env.deleted == r.env.deleted
  {
    Reserved(r.table, c.fd);
    ReserveKeeps(r, c.fd);
    var r1 := r.(table := Reserve(r.table, c.fd));
    FitsFrom(r1, c.fd);
    if c.kernelAgrees {
      AddShape(r1, c.fd, c.e, c.cb, c.self, c.sched);
    }
  }

  lemma AddConcerns(r: Reg, c: Call, fd: nat, e: Event)
    requires RegInv(r) && Proper(r, c) && c.Add?
    ensures
      var r' := Apply(r, c);
      && ContextOf(r', fd, e) == (if Accepts(c, fd, e) then Filled(c.cb, c.self, c.sched) else ContextOf(r, fd, e))
      && (Registered(r', fd, e) <==> Accepts(c, fd, e) || Registered(r, fd, e))
  {
    AddEffect(r, c);
    Reserved(r.table, c.fd);
  }

  lemma EndConcerns(r: Reg, r': Reg, fd: nat, e: Event, at: nat, gone: Bits, h: multiset<Item>, d: multiset<Item>)
    requires at < |r.table| && Moved(r, r', at, gone, h, d)
    ensures
      if fd == at && Has(gone, e) then !Registered(r', fd, e)
      else ContextOf(r', fd, e) == ContextOf(r, fd, e) && (Registered(r', fd, e) <==> Registered(r, fd, e))
  {}

  /** What a call makes of one event: registered, ended, or left as it was with its context. */
  lemma CallConcerns(r: Reg, c: Call, fd: nat, e: Event)
    requires RegInv(r) && Proper(r, c)
    ensures
      var r' := Apply(r, c);
      if Accepts(c, fd, e) then Registered(r', fd, e) && Stored(ContextOf(r', fd, e)) == multiset{NewItem(c)}
      else if Fires(r, c, fd, e) || Deletes(r, c, fd, e) then !Registered(r', fd, e)
      else ContextOf(r', fd, e) == ContextOf(r, fd, e) && (Registered(r', fd, e) <==> Registered(r, fd, e))
  {
    if c.Add? {
      AddConcerns(r, c, fd, e);
      FilledStores(c.cb, c.self, c.sched);
    } else if c.fd < |r.table| {
      CallEnds(r, c);
      if c.Del? {
        var gone := DeletedBits(r, c);
        EndConcerns(r, Apply(r, c), fd, e, c.fd, gone, multiset{}, Taken(r.table[c.fd], gone));
      } else {
        var gone := FiredBits(r, c);
        EndConcerns(r, Apply(r, c), fd, e, c.fd, gone, Taken(r.table[c.fd], gone), multiset{});
      }
    } else {
      OutsideMovesNothing(r, c);
    }
  }

  // ---- Over whole runs ----

  /** An event is registered exactly when its history is open, and its context then stores exactly
      the item of the call that registered it. */
  ghost predicate Follows(r: Reg, fd: nat, e: Event, known: Option<Item>) {
    && (Registered(r, fd, e) <==> known.Some?)
    && (known.Some? ==> Stored(ContextOf(r, fd, e)) == multiset{known.value})
  }

  lemma {:induction false} OpenFollows(r: Reg, calls: seq<Call>, fd: nat, e: Event, known: Option<Item>)
    requires RegInv(r) && Runs(r, calls) && Follows(r, fd, e, known)
    ensures Follows(Outcome(r, calls), fd, e, Open(r, calls, fd, e, known))
    decreases |calls|
  {
    if calls != [] {
      var c := calls[0];
      CallKeeps(r, c);
      CallConcerns(r, c, fd, e);
      OpenFollows(Apply(r, c), calls[1..], fd, e,
                  if Accepts(c, fd, e) then Some(NewItem(c))
                  else if Fires(r, c, fd, e) || Deletes(r, c, fd, e) then None
                  else known);
    }
  }

  lemma StartsClosed(fd: nat, e: Event)
    ensures Follows(Created(), fd, e, None)
  {
    Grown([], 32);
    assert fd < |Created().table| ==> Created().table[fd] == Vacant(fd);
  }

  /** After any run an event is registered iff some call registered it and none has fired or deleted
      it since, and then its context stores exactly what that call brought. */
  lemma RegisteredIffOpen(calls: seq<Call>, fd: nat, e: Event)
    requires Runs(Created(), calls)
    ensures Follows(Outcome(Created(), calls), fd, e, Open(Created(), calls, fd, e, None))
  {
    CreatedHolds();
    StartsClosed(fd, e);
    OpenFollows(Created(), calls, fd, e, None);
  }

  lemma TakenItems(r: Reg, fd: nat, gone: Bits, read: Option<Item>, write: Option<Item>)
    requires fd < |r.table| && Follows(r, fd, READ, read) && Follows(r, fd, WRITE, write)
    requires !Any(Minus(gone, r.table[fd].events))
    ensures Taken(r.table[fd], gone) == Items(gone, read, write)
  {
    assert ContextOf(r, fd, READ) == r.table[fd].read && ContextOf(r, fd, WRITE) == r.table[fd].write;
  }

  /** The items of the events `gone`. */
  function Items(gone: Bits, read: Option<Item>, write: Option<Item>): multiset<Item> {
    If(gone.read, read) + If(gone.write, write)
  }

  /** What a call moves when the two events of its descriptor were registered with these items. */
  ghost predicate MovesExactly(r: Reg, c: Call, read: Option<Item>, write: Option<Item>) {
    var r' := Apply(r, c);
    && r'.env.handed == r.env.handed + Items(FiredBits(r, c), read, write)
    && r'.env.deleted == r.env.deleted + Items(DeletedBits(r, c), read, write)
    && r'.env.accepted == r.env.accepted + (if c.Add? && c.kernelAgrees then multiset{NewItem(c)} else multiset{})
  }

  lemma NoItems(read: Option<Item>, write: Option<Item>)
    ensures Items(NOTHING, read, write) == multiset{}
  {}

  lemma EachToItsHistory(r: Reg, c: Call)
    ensures c.Add? || c.Del? ==> FiredBits(r, c) == NOTHING
    ensures !c.Del? ==> DeletedBits(r, c) == NOTHING
  {}

  lemma CallMovesExactly(r: Reg, c: Call, read: Option<Item>, write: Option<Item>)
    requires RegInv(r) && Proper(r, c) && Follows(r, c.fd, READ, read) && Follows(r, c.fd, WRITE, write)
    ensures MovesExactly(r, c, read, write)
  {
    NoItems(read, write);
    EachToItsHistory(r, c);
    if c.Add? {
      AddEffect(r, c);
    } else if c.fd >= |r.table| {
      OutsideMovesNothing(r, c);
      assert FiredBits(r, c) == NOTHING && DeletedBits(r, c) == NOTHING;
    } else {
      CallEnds(r, c);
      EndMovesExactly(r, c, read, write);
    }
  }

  lemma EndMovesExactly(r: Reg, c: Call, read: Option<Item>, write: Option<Item>)
    requires !c.Add? && c.fd < |r.table| && EndsExactly(r, c)
    requires Follows(r, c.fd, READ, read) && Follows(r, c.fd, WRITE, write)
    ensures MovesExactly(r, c, read, write)
  {
    NoItems(read, write);
    EachToItsHistory(r, c);
    if c.Del? {
      TakenItems(r, c.fd, DeletedBits(r, c), read, write);
    } else {
      TakenItems(r, c.fd, FiredBits(r, c), read, write);
    }
  }

  /** How many calls of a run register the event, and how many fire or delete it. */
  ghost function Begun(r: Reg, calls: seq<Call>, fd: nat, e: Event): nat
    decreases |calls|
  {
    if calls == [] then 0
    else (if Accepts(calls[0], fd, e) then 1 else 0) + Begun(Apply(r, calls[0]), calls[1..], fd, e)
  }

  ghost function EndedIn(r: Reg, calls: seq<Call>, fd: nat, e: Event): nat
    decreases |calls|
  {
    if calls == [] then 0
    else
      (if Fires(r, calls[0], fd, e) || Deletes(r, calls[0], fd, e) then 1 else 0)
      + EndedIn(Apply(r, calls[0]), calls[1..], fd, e)
  }

  lemma {:induction false} EndsMatchBegins(r: Reg, calls: seq<Call>, fd: nat, e: Event)
    requires RegInv(r) && Runs(r, calls)
    ensures Begun(r, calls, fd, e) + (if Registered(r, fd, e) then 1 else 0) ==
            EndedIn(r, calls, fd, e) + (if Registered(Outcome(r, calls), fd, e) then 1 else 0)
    decreases |calls|
  {
    if calls != [] {
      CallKeeps(r, calls[0]);
      CallConcerns(r, calls[0], fd, e);
      EndsMatchBegins(Apply(r, calls[0]), calls[1..], fd, e);
    }
  }

  /** In any run every registration of an event is fired or deleted exactly once, except for one that
      is still stored; and the call that fires or deletes it moves exactly the item which the call
      that registered it brought, to the one history and not the other. */
  lemma HandedOverExactlyOnce(calls: seq<Call>, c: Call, fd: nat, e: Event)
    requires Runs(Created(), calls) && Proper(Outcome(Created(), calls), c)
    ensures Begun(Created(), calls, fd, e) ==
            EndedIn(Created(), calls, fd, e) + (if Registered(Outcome(Created(), calls), fd, e) then 1 else 0)
    ensures Follows(Outcome(Created(), calls), fd, e, Open(Created(), calls, fd, e, None))
    ensures MovesExactly(Outcome(Created(), calls), c,
                         Open(Created(), calls, c.fd, READ, None), Open(Created(), calls, c.fd, WRITE, None))
  {
    CreatedHolds();
    StartsClosed(fd, e);
    EndsMatchBegins(Created(), calls, fd, e);
    RegistryInvariant(Created(), calls);
    RegisteredIffOpen(calls, fd, e);
    RegisteredIffOpen(calls, c.fd, READ);
    RegisteredIffOpen(calls, c.fd, WRITE);
    CallMovesExactly(Outcome(Created(), calls), c,
                     Open(Created(), calls, c.fd, READ, None), Open(Created(), calls, c.fd, WRITE, None));
  }
}
