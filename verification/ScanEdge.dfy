/** When the scan of `run` moves its iterator past the end of the list: the branch that erases an entry
    steps once more before the end is tested. */
module ScanEdge {
  import opened Fibers
  import opened RunQueue
  import opened AnySubmission

  /** The scan erases this entry when it reaches it. */
  predicate Drops(skip: PinTest, me: Thread, e: Entry, st: States) {
    !skip(e.thread, me) && Erasable(e, st)
  }

  /** How many entries directly before position `k` the scan would erase. After an odd number of them
      it passes over entry `k` without looking at it. */
  ghost function Trail(skip: PinTest, me: Thread, q: seq<Entry>, st: States, k: nat): nat
    requires k <= |q|
  {
    if k == 0 || !Drops(skip, me, q[k - 1], st) then 0 else Trail(skip, me, q, st, k - 1) + 1
  }

  predicate Odd(n: nat) {
    n % 2 == 1
  }

  /** Entry `j` is one for this fiber, and the scan looks at it. */
  ghost predicate LooksAt(skip: PinTest, me: Thread, q: seq<Entry>, st: States, j: nat, fiber: Option<Task>) {
    j < |q| && q[j].fiber == fiber && !skip(q[j].thread, me) && !Odd(Trail(skip, me, q, st, j))
  }

  /** The scan would end at entry `k`, if it looked at it: a callback, a READY fiber, or a fiber that
      an earlier entry the scan looked at has made READY. */
  ghost predicate Stops(skip: PinTest, me: Thread, q: seq<Entry>, st: States, k: nat)
    requires k < |q|
  {
    && !skip(q[k].thread, me)
    && (q[k].fiber.None? || StateOf(st, q[k].fiber.value) == Ready
        || (Waits(skip, me, q[k], st)
            && exists j :: 0 <= j < k && LooksAt(skip, me, q, st, j, q[k].fiber)))
  }

  /** The list ends with an odd number of entries to be erased, and the scan looks at no entry that
      would end it. */
  ghost predicate FallsOff(skip: PinTest, me: Thread, q: seq<Entry>, st: States) {
    && Odd(Trail(skip, me, q, st, |q|))
    && forall k :: 0 <= k < |q| && Stops(skip, me, q, st, k) ==> Odd(Trail(skip, me, q, st, k))
  }

  /** The walk over what is left of the list. */
  ghost predicate Walks(skip: PinTest, me: Thread, s: seq<Entry>, st: States)
    decreases |s|
  {
    if s == [] then false
    else if skip(s[0].thread, me) then Walks(skip, me, s[1..], st)
    else if s[0].fiber.None? || StateOf(st, s[0].fiber.value) == Ready then false
    else if Waits(skip, me, s[0], st) then Walks(skip, me, s[1..], st[s[0].fiber.value := Ready])
    else if !Drops(skip, me, s[0], st) then Walks(skip, me, s[1..], st)
    else |s| == 1 || Walks(skip, me, s[2..], st)
  }

  lemma {:induction false} ScanWalks(skip: PinTest, me: Thread, q: seq<Entry>, i: nat, st: States)
    requires i <= |q|
    ensures ScanFrom(skip, me, q, i, st).Undefined? <==> Walks(skip, me, q[i..], st)
    decreases |q| - i
  {
    if i < |q| {
      assert q[i..][1..] == q[i + 1..];
      if skip(q[i].thread, me) {
        ScanWalks(skip, me, q, i + 1, st);
      } else if Waits(skip, me, q[i], st) {
        ScanWalks(skip, me, q, i + 1, st[q[i].fiber.value := Ready]);
      } else if Drops(skip, me, q[i], st) {
        if i + 1 < |q| {
          assert RemoveAt(q, i)[i + 1..] == q[i..][2..];
          ScanWalks(skip, me, RemoveAt(q, i), i + 1, st);
        }
      } else if q[i].fiber.Some? && StateOf(st, q[i].fiber.value) == Exec {
        ScanWalks(skip, me, q, i + 1, st);
      }
    }
  }

  /** An entry in front that is not erased changes no trail behind it. */
  lemma {:induction false} TrailBehindOne(skip: PinTest, me: Thread, s: seq<Entry>, st: States, k: nat)
    requires 1 <= k <= |s| && !Drops(skip, me, s[0], st)
    ensures Trail(skip, me, s, st, k) == Trail(skip, me, s[1..], st, k - 1)
  {
    if k > 1 {
      TrailBehindOne(skip, me, s, st, k - 1);
    }
  }

  /** An erased entry and the one after it change no trail behind them but by an even number. */
  lemma {:induction false} TrailBehindTwo(skip: PinTest, me: Thread, s: seq<Entry>, st: States, k: nat)
    requires 2 <= k <= |s| && Drops(skip, me, s[0], st)
    ensures Odd(Trail(skip, me, s, st, k)) <==> Odd(Trail(skip, me, s[2..], st, k - 2))
  {
    if k == 2 {
      assert Trail(skip, me, s, st, 1) == Trail(skip, me, s, st, 0) + 1;
    } else {
      TrailBehindTwo(skip, me, s, st, k - 1);
    }
  }

  /** Promoting a waiting fiber changes no trail. */
  lemma {:induction false} TrailAfterPromotion(skip: PinTest, me: Thread, s: seq<Entry>, st: States, f: Task, k: nat)
    requires k <= |s| && StateOf(st, f) in {Init, Hold}
    ensures Trail(skip, me, s, st[f := Ready], k) == Trail(skip, me, s, st, k)
  {
    if k > 0 {
      TrailAfterPromotion(skip, me, s, st, f, k - 1);
    }
  }

  lemma PassedOver(skip: PinTest, me: Thread, s: seq<Entry>, st: States)
    requires s != [] && !Drops(skip, me, s[0], st) && !Waits(skip, me, s[0], st) && !Stops(skip, me, s, st, 0)
    ensures FallsOff(skip, me, s, st) <==> FallsOff(skip, me, s[1..], st)
  {
    var rest := s[1..];
    forall k | 1 <= k <= |s| ensures Trail(skip, me, s, st, k) == Trail(skip, me, rest, st, k - 1) {
      TrailBehindOne(skip, me, s, st, k);
    }
    forall k | 1 <= k < |s| ensures Stops(skip, me, s, st, k) <==> Stops(skip, me, rest, st, k - 1) {
      PassedStops(skip, me, s, st, k);
    }
    SameFalls(skip, me, s, st, rest, st, 1);
  }

  lemma PassedStops(skip: PinTest, me: Thread, s: seq<Entry>, st: States, k: nat)
    requires 1 <= k < |s| && !Drops(skip, me, s[0], st) && !Waits(skip, me, s[0], st) && !Stops(skip, me, s, st, 0)
    ensures Stops(skip, me, s, st, k) <==> Stops(skip, me, s[1..], st, k - 1)
  {
    var rest, f := s[1..], s[k].fiber;
    forall j | 1 <= j < k ensures LooksAt(skip, me, s, st, j, f) <==> LooksAt(skip, me, rest, st, j - 1, f) {
      TrailBehindOne(skip, me, s, st, j);
    }
    forall j | 0 <= j < k - 1 ensures LooksAt(skip, me, rest, st, j, f) <==> LooksAt(skip, me, s, st, j + 1, f) {}
  }

  /** Two lists of which the second is what is behind the first `d` entries of the first. */
  lemma SameFalls(skip: PinTest, me: Thread, s: seq<Entry>, st: States, rest: seq<Entry>, st': States, d: nat)
    requires d <= |s| && |rest| == |s| - d
    requires forall k :: d <= k <= |s| ==> (Odd(Trail(skip, me, s, st, k)) <==> Odd(Trail(skip, me, rest, st', k - d)))
    requires forall k :: d <= k < |s| ==> (Stops(skip, me, s, st, k) <==> Stops(skip, me, rest, st', k - d))
    requires forall k :: 0 <= k < d && k < |s| && Stops(skip, me, s, st, k) ==> Odd(Trail(skip, me, s, st, k))
    ensures FallsOff(skip, me, s, st) <==> FallsOff(skip, me, rest, st')
  {
    if FallsOff(skip, me, s, st) {
      forall k | 0 <= k < |rest| && Stops(skip, me, rest, st', k) ensures Odd(Trail(skip, me, rest, st', k)) {
        assert Stops(skip, me, s, st, k + d);
      }
    }
    if FallsOff(skip, me, rest, st') {
      forall k | 0 <= k < |s| && Stops(skip, me, s, st, k) ensures Odd(Trail(skip, me, s, st, k)) {
        if k >= d { assert Stops(skip, me, rest, st', k - d); }
      }
    }
  }

  /** A waiting fiber in front: the scan makes it READY and goes on behind it. */
  lemma Promoted(skip: PinTest, me: Thread, s: seq<Entry>, st: States)
    requires s != [] && Waits(skip, me, s[0], st)
    ensures FallsOff(skip, me, s, st) <==> FallsOff(skip, me, s[1..], st[s[0].fiber.value := Ready])
  {
    var rest, f := s[1..], s[0].fiber.value;
    forall k | 1 <= k <= |s| ensures Trail(skip, me, s, st, k) == Trail(skip, me, rest, st[f := Ready], k - 1) {
      TrailBehindOne(skip, me, s, st, k);
      TrailAfterPromotion(skip, me, rest, st, f, k - 1);
    }
    forall k | 1 <= k < |s| ensures Stops(skip, me, s, st, k) <==> Stops(skip, me, rest, st[f := Ready], k - 1) {
      PromotedStops(skip, me, s, st, k);
    }
    SameFalls(skip, me, s, st, rest, st[f := Ready], 1);
  }

  lemma PromotedStops(skip: PinTest, me: Thread, s: seq<Entry>, st: States, k: nat)
    requires 1 <= k < |s| && Waits(skip, me, s[0], st)
    ensures Stops(skip, me, s, st, k) <==> Stops(skip, me, s[1..], st[s[0].fiber.value := Ready], k - 1)
  {
    var rest, f := s[1..], s[k].fiber;
    var st' := st[s[0].fiber.value := Ready];
    forall j | 1 <= j < k ensures LooksAt(skip, me, s, st, j, f) <==> LooksAt(skip, me, rest, st', j - 1, f) {
      TrailBehindOne(skip, me, s, st, j);
      TrailAfterPromotion(skip, me, rest, st, s[0].fiber.value, j - 1);
    }
    forall j | 0 <= j < k - 1 ensures LooksAt(skip, me, rest, st', j, f) <==> LooksAt(skip, me, s, st, j + 1, f) {}
    assert LooksAt(skip, me, s, st, 0, s[0].fiber);
  }

  /** A finished fiber in front: the scan erases it and passes over the entry behind it. */
  lemma Dropped(skip: PinTest, me: Thread, s: seq<Entry>, st: States)
    requires |s| >= 2 && Drops(skip, me, s[0], st)
    ensures FallsOff(skip, me, s, st) <==> FallsOff(skip, me, s[2..], st)
  {
    var rest := s[2..];
    assert Trail(skip, me, s, st, 1) == Trail(skip, me, s, st, 0) + 1;
    forall k | 2 <= k <= |s| ensures Odd(Trail(skip, me, s, st, k)) <==> Odd(Trail(skip, me, rest, st, k - 2)) {
      TrailBehindTwo(skip, me, s, st, k);
    }
    forall k | 2 <= k < |s| ensures Stops(skip, me, s, st, k) <==> Stops(skip, me, rest, st, k - 2) {
      DroppedStops(skip, me, s, st, k);
    }
    SameFalls(skip, me, s, st, rest, st, 2);
  }

  lemma DroppedStops(skip: PinTest, me: Thread, s: seq<Entry>, st: States, k: nat)
    requires 2 <= k < |s| && Drops(skip, me, s[0], st)
    ensures Stops(skip, me, s, st, k) <==> Stops(skip, me, s[2..], st, k - 2)
  {
    var rest, f := s[2..], s[k].fiber;
    assert Trail(skip, me, s, st, 1) == Trail(skip, me, s, st, 0) + 1;
    forall j | 2 <= j < k ensures LooksAt(skip, me, s, st, j, f) <==> LooksAt(skip, me, rest, st, j - 2, f) {
      TrailBehindTwo(skip, me, s, st, j);
    }
    forall j | 0 <= j < k - 2 ensures LooksAt(skip, me, rest, st, j, f) <==> LooksAt(skip, me, s, st, j + 2, f) {}
  }

  lemma {:induction false} WalksIff(skip: PinTest, me: Thread, s: seq<Entry>, st: States)
    ensures Walks(skip, me, s, st) <==> FallsOff(skip, me, s, st)
    decreases |s|
  {
    if s != [] {
      if Waits(skip, me, s[0], st) {
        Promoted(skip, me, s, st);
        WalksIff(skip, me, s[1..], st[s[0].fiber.value := Ready]);
      } else if Drops(skip, me, s[0], st) {
        if |s| == 1 {
          assert Trail(skip, me, s, st, 1) == Trail(skip, me, s, st, 0) + 1;
        } else {
          Dropped(skip, me, s, st);
          WalksIff(skip, me, s[2..], st);
        }
      } else if !Stops(skip, me, s, st, 0) {
        PassedOver(skip, me, s, st);
        WalksIff(skip, me, s[1..], st);
      } else {
        assert !Odd(Trail(skip, me, s, st, 0));
      }
    }
  }

  /** The scan of any queue moves its iterator past the end if and only if the queue ends with an odd
      number of entries to be erased and the scan looks at no entry that would end it. */
  lemma ScanFallsOffIff(skip: PinTest, me: Thread, q: seq<Entry>, st: States)
    ensures ScanFrom(skip, me, q, 0, st).Undefined? <==> FallsOff(skip, me, q, st)
  {
    assert q[0..] == q;
    ScanWalks(skip, me, q, 0, st);
    WalksIff(skip, me, q, st);
  }

  /** The smallest such queue: one finished fiber. */
  lemma FinishedAloneFallsOff(skip: PinTest, me: Thread, f: Task, st: States)
    requires !skip(0, me) && f in st && Terminal(st[f])
    ensures ScanFrom(skip, me, [Entry(Some(f), None, 0)], 0, st).Undefined?
  {}
}
