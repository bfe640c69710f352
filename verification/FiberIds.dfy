/** Fiber::safeFiberIdIncr over a sequential run. */
module FiberIds {
  import opened Fibers

  /** kMaxFiberId, UINT64_MAX - 1. */
  const MAX: nat := 0xFFFF_FFFF_FFFF_FFFE

  ghost predicate Distinct(ids: seq<nat>) {
    forall i, j :: 0 <= i < j < |ids| ==> ids[i] != ids[j]
  }

  ghost function Members(ids: seq<nat>): set<nat> {
    set id | id in ids
  }

  lemma {:induction false} DistinctCount(ids: seq<nat>)
    requires Distinct(ids)
    ensures |Members(ids)| == |ids|
    decreases |ids|
  {
    if ids != [] {
      var n := |ids| - 1;
      DistinctCount(ids[..n]);
      assert ids == ids[..n] + [ids[n]];
      assert Members(ids) == Members(ids[..n]) + {ids[n]};
    }
  }

  /** The numbers below n. */
  ghost function Below(n: nat): set<nat> {
    if n == 0 then {} else Below(n - 1) + {n - 1}
  }

  lemma {:induction false} BelowCounts(n: nat)
    ensures |Below(n)| == n && forall id: nat :: id in Below(n) <==> id < n
  {
    if n > 0 {
      BelowCounts(n - 1);
    }
  }

  lemma SubsetCount(a: set<nat>, b: set<nat>)
    requires a <= b
    ensures |a| <= |b|
    ensures |a| == |b| <==> a == b
  {
    assert b == a + (b - a);
    assert a == b <==> b - a == {};
  }

  class Ids {
    var last: nat              // s_fiber_id
    var used: set<nat>         // s_fiber_id_set
    ghost var given: seq<nat>  // the ids given out so far, in order

    /** The ids given out are pairwise distinct and at most kMaxFiberId, the set holds exactly them,
        and until the counter is exhausted they are what it has counted. */
    ghost predicate Valid()
      reads this
    {
      && Distinct(given)
      && (forall k :: 0 <= k < |given| ==> given[k] <= MAX)
      && used == Members(given)
      && last <= MAX && (forall id :: 1 <= id <= last ==> id in used)
      && (last < MAX ==> forall id :: id in used ==> 1 <= id <= last)
    }

    constructor ()
      ensures Valid() && given == []
    {
      last, used, given := 0, {}, [];
    }

    /** Gives out the next id; None stands for the failing assertion. It fails exactly when
        kMaxFiberId + 1 ids were given out, and the fallback counter stays below 2^64. */
    method SafeFiberIdIncr() returns (id: Option<nat>)
      requires Valid()
      modifies this
      ensures Valid()
      ensures id.None? <==> |old(given)| == MAX + 1
      ensures id.None? <==> forall j :: 0 <= j <= MAX ==> j in old(used)
      ensures id.Some? ==> id.value !in old(given) && given == old(given) + [id.value]
      ensures id.Some? ==> id.value == if |old(given)| < MAX then |old(given)| + 1 else 0
      ensures id.None? ==> given == old(given)
    {
      IdsAreCounted(this);
      TakenIffGiven(this, 0);
      if last <= MAX - 1 {
        Count();
        return Some(last);
      }
      AllCounted(used, MAX);
      id := Search();
    }

    /** The counter's next value. */
    method Count()
      requires Valid() && last < MAX
      modifies this
      ensures Valid()
      ensures last == old(last) + 1 && last !in old(used) && given == old(given) + [last]
    {
      last := last + 1;
      Give(last);
    }

    /** The fallback: the smallest value not in the set. */
    method Search() returns (id: Option<nat>)
      requires Valid() && last == MAX
      modifies this`used, this`given
      ensures Valid()
      ensures id.None? <==> forall j :: 0 <= j <= MAX ==> j in old(used)
      ensures id.Some? ==> id.value !in old(given) && given == old(given) + [id.value]
      ensures id.Some? ==> forall j :: 0 <= j < id.value ==> j in old(used)
      ensures id.None? ==> given == old(given)
    {
      var i := 0;
      while i <= MAX
        invariant 0 <= i <= MAX + 1 < 0x1_0000_0000_0000_0000
        invariant forall j :: 0 <= j < i ==> j in used
        invariant unchanged(this)
        decreases MAX + 1 - i
      {
        if i !in used {
          Give(i);
          return Some(i);
        }
        i := i + 1;
      }
      return None;
    }

    /** Inserts a new id into the set and gives it out. */
    method Give(id: nat)
      requires Distinct(given) && used == Members(given) && id !in used
      modifies this`used, this`given
      ensures Distinct(given) && used == Members(given)
      ensures used == old(used) + {id} && given == old(given) + [id]
    {
      used := used + {id};
      given := given + [id];
    }
  }

  /** The ids of `n` callback fibers made one after the other: pairwise distinct, none of them given out
      before, and at most kMaxFiberId. There are fewer than `n` only if no value is left. */
  method IdsOfFibers(ids: Ids, n: nat) returns (got: seq<nat>)
    requires ids.Valid()
    modifies ids
    ensures ids.Valid() && ids.given == old(ids.given) + got
    ensures Distinct(got) && forall k :: 0 <= k < |got| ==> got[k] <= MAX && got[k] !in old(ids.given)
    ensures |got| == if n <= MAX + 1 - |old(ids.given)| then n else MAX + 1 - |old(ids.given)|
  {
    got := [];
    IdsAreCounted(ids);
    for i := 0 to n
      invariant ids.Valid() && ids.given == old(ids.given) + got && |got| == i && |ids.given| <= MAX + 1
    {
      var id := ids.SafeFiberIdIncr();
      IdsAreCounted(ids);
      if id.None? {
        break;
      }
      got := got + [id.value];
    }
    LastOnes(old(ids.given), got);
  }

  lemma LastOnes(a: seq<nat>, b: seq<nat>)
    requires Distinct(a + b) && forall k :: 0 <= k < |a + b| ==> (a + b)[k] <= MAX
    ensures Distinct(b) && forall k :: 0 <= k < |b| ==> b[k] <= MAX && b[k] !in a
  {
    forall k | 0 <= k < |b| ensures b[k] == (a + b)[|a| + k] && b[k] !in a {
      assert forall i :: 0 <= i < |a| ==> a[i] == (a + b)[i];
    }
    forall i, j | 0 <= i < j < |b| ensures b[i] != b[j] {
      assert b[i] == (a + b)[|a| + i] && b[j] == (a + b)[|a| + j];
    }
  }

  /** In a run there are as many ids as the set has members; all values are in the set exactly when
      kMaxFiberId + 1 ids were given out. */
  lemma IdsAreCounted(ids: Ids)
    requires ids.Valid()
    ensures MAX + 2 == 0x1_0000_0000_0000_0000
    ensures |ids.used| == |ids.given| <= MAX + 1
    ensures |ids.given| == MAX + 1 <==> forall id :: 0 <= id <= MAX ==> id in ids.used
  {
    DistinctCount(ids.given);
    BelowCounts(MAX + 1);
    SubsetCount(ids.used, Below(MAX + 1));
  }

  /** An id is in the set iff it was given out; until the counter is exhausted, iff the counter has
      passed it, and the counter is then the number of ids given out. */
  lemma TakenIffGiven(ids: Ids, id: nat)
    requires ids.Valid()
    ensures id in ids.used <==> exists k :: 0 <= k < |ids.given| && ids.given[k] == id
    ensures ids.last < MAX ==> (id in ids.used <==> 1 <= id <= ids.last) && ids.last == |ids.given|
  {
    if ids.last < MAX {
      DistinctCount(ids.given);
      CountedUp(ids.used, ids.last);
    }
  }

  /** A set that holds the values from 1 to n has at least n members. */
  lemma AllCounted(used: set<nat>, n: nat)
    requires forall id :: 1 <= id <= n ==> id in used
    ensures |used| >= n
  {
    BelowCounts(n + 1);
    var ids := Below(n + 1) - {0};
    assert Below(n + 1) == ids + {0};
    SubsetCount(ids, used);
  }

  lemma CountedUp(used: set<nat>, last: nat)
    requires forall id :: id in used <==> 1 <= id <= last
    ensures |used| == last
  {
    BelowCounts(last + 1);
    assert Below(last + 1) == used + {0};
  }
}
