/** The listener table of a ConfigVar and the growth of its id counter. */
module ListenerIds {
  const TWO_64: nat := 0x1_0000_0000_0000_0000

  /** A sum in 64-bit unsigned arithmetic. */
  function Wrap(x: nat): nat {
    x % TWO_64
  }

  /** funcIdGrowthValid. */
  predicate GrowthValid(funcId: nat, id: nat) {
    if funcId < 256 then id < funcId * 2
    else id < Wrap(Wrap(funcId + 3 * 256) / 4 + funcId)
  }

  /** An accepted explicit key is below twice the counter, so it at most doubles the counter, and
      cannot raise it from 0 or 1. */
  lemma AcceptedKeyBelowDouble(funcId: nat, id: nat)
    requires GrowthValid(funcId, id)
    ensures id < 2 * funcId
    ensures funcId <= 1 ==> id <= funcId
  {}

  /** What is accepted, without division: while no sum leaves 64 bits, everything below twice a counter
      under 256, and above that what exceeds the counter by less than a quarter of it and 192. */
  lemma AcceptedIff(funcId: nat, id: nat)
    requires funcId < TWO_64 / 4
    ensures GrowthValid(funcId, id) <==>
            if funcId <= 255 then id < 2 * funcId else 4 * id < 5 * funcId + 768 - funcId % 4
  {}

  /** Some of the borders. */
  lemma AcceptedBorders()
    ensures !GrowthValid(0, 0) && GrowthValid(1, 1) && !GrowthValid(1, 2)
    ensures GrowthValid(255, 509) && !GrowthValid(255, 510)
    ensures GrowthValid(256, 511) && !GrowthValid(256, 512)
    ensures GrowthValid(1000, 1441) && !GrowthValid(1000, 1442)
    ensures GrowthValid(0xFFFF_FFFF_FFFF_FFFF, 189) && !GrowthValid(0xFFFF_FFFF_FFFF_FFFF, 190)
  {}

  class ConfigVar<Cb> {
    var funcId: nat         // s_func_id
    var cbs: map<nat, Cb>   // m_cbs

    ghost predicate Valid()
      reads this
    {
      forall k :: k in cbs ==> k <= funcId
    }

    ghost function View(): Keys
      reads this
    {
      Keys(funcId, cbs.Keys)
    }

    constructor ()
      ensures Valid() && funcId == 0 && cbs == map[]
    {
      funcId, cbs := 0, map[];
    }

    /** addListener without a key: takes the smallest id that is not in use and replaces nothing. */
    method AddListener(cb: Cb) returns (id: nat)
      requires Valid() && funcId < TWO_64 - 1
      modifies this
      ensures Valid()
      ensures id !in old(cbs) && forall j :: 0 <= j < id ==> j in old(cbs)
      ensures cbs == old(cbs)[id := cb]
      ensures funcId == if id <= old(funcId) then old(funcId) else id
      ensures id <= old(funcId) + 1 && View() == Apply(old(View()), Auto)
    {
      SmallestIsUnique(cbs.Keys);
      var i := 0;
      while i <= funcId
        invariant 0 <= i <= funcId + 1 && unchanged(this)
        invariant forall j :: 0 <= j < i ==> j in cbs
      {
        if i !in cbs {
          cbs := cbs[i := cb];
          return i;
        }
        i := i + 1;
      }
      funcId := funcId + 1;
      cbs := cbs[funcId := cb];
      return funcId;
    }

    /** addListener with a key: refused when the key grows too fast; a listener that already has
        the key stays. */
    method AddListenerAt(key: nat, cb: Cb) returns (ok: bool)
      requires Valid()
      modifies this
      ensures Valid()
      ensures ok <==> GrowthValid(old(funcId), key)
      ensures cbs == if ok && key !in old(cbs) then old(cbs)[key := cb] else old(cbs)
      ensures funcId == if ok && key > old(funcId) then key else old(funcId)
      ensures View() == Apply(old(View()), At(key))
    {
      if !GrowthValid(funcId, key) {
        return false;
      }
      if key > funcId {
        funcId := key;
      }
      if key !in cbs {
        cbs := cbs[key := cb];
      }
      return true;
    }

    method ClearListener()
      modifies this
      ensures Valid() && cbs == map[] && View() == Apply(old(View()), Clear)
    {
      cbs := map[];
    }
  }

  // ---- Any run of calls ----

  /** What one call does to the counter and the keys; the methods above do this. */
  datatype Call = Auto | At(key: nat) | Clear

  datatype Keys = Keys(funcId: nat, used: set<nat>)

  function Smallest(used: set<nat>, from: nat): (id: nat)
    ensures id >= from && id !in used && forall j :: from <= j < id ==> j in used
    decreases |set j | j in used && j >= from|
  {
    if from !in used then from
    else
      SmallerSet((set j | j in used && j >= from + 1), (set j | j in used && j >= from), from);
      Smallest(used, from + 1)
  }

  lemma SmallestIsUnique(used: set<nat>)
    ensures forall id: nat :: id !in used && (forall j :: 0 <= j < id ==> j in used) ==> id == Smallest(used, 0)
  {}

  lemma SmallerSet(a: set<nat>, b: set<nat>, x: nat)
    requires a <= b && x in b && x !in a
    ensures |a| < |b|
  {
    assert b - {x} == a + (b - {x} - a);
  }

  function Apply(s: Keys, c: Call): Keys {
    match c
    case Auto =>
      var id := Smallest(s.used, 0);
      Keys(if id <= s.funcId then s.funcId else id, s.used + {id})
    case At(key) =>
      if GrowthValid(s.funcId, key) then Keys(if key > s.funcId then key else s.funcId, s.used + {key}) else s
    case Clear => s.(used := {})
  }

  function Run(calls: seq<Call>): Keys {
    if calls == [] then Keys(0, {}) else Apply(Run(calls[..|calls| - 1]), calls[|calls| - 1])
  }

  /** In every run all listener keys stay at most the counter. */
  lemma {:induction false} KeysStayBelowCounter(calls: seq<Call>)
    ensures forall k :: k in Run(calls).used ==> k <= Run(calls).funcId
    decreases |calls|
  {
    if calls != [] {
      KeysStayBelowCounter(calls[..|calls| - 1]);
    }
  }

  /** After any run that leaves the counter below 2^63, some call with a key is accepted if and
      only if the counter is at least 1. */
  lemma KeyAcceptedIff(calls: seq<Call>)
    requires Run(calls).funcId < TWO_64 / 2
    ensures (exists key :: GrowthValid(Run(calls).funcId, key)) <==> Run(calls).funcId >= 1
  {
    if Run(calls).funcId >= 1 {
      assert GrowthValid(Run(calls).funcId, 1);
    }
  }

  /** On a variable that no call without a key has touched, every call with a key is refused. */
  lemma {:induction false} KeysNeedAnAutomaticId(calls: seq<Call>)
    requires forall i :: 0 <= i < |calls| ==> !calls[i].Auto?
    ensures Run(calls) == Keys(0, {})
    decreases |calls|
  {
    if calls != [] {
      KeysNeedAnAutomaticId(calls[..|calls| - 1]);
    }
  }

  /** While the counter fits its 64 bits, after any run: a call without a key raises the counter by at most one, a call
      with a key at most doubles it and leaves 0 and 1 alone. */
  lemma OneCallGrowth(calls: seq<Call>, c: Call)
    requires Run(calls).funcId < TWO_64 - 1
    ensures
      var s := Run(calls);
      var s' := Apply(s, c);
      && (c.Auto? ==> s.funcId <= s'.funcId <= s.funcId + 1)
      && (c.At? ==> s.funcId <= s'.funcId <= 2 * s.funcId && (s.funcId <= 1 ==> s'.funcId == s.funcId))
  {
    var s := Run(calls);
    KeysStayBelowCounter(calls);
    if c.Auto? {
      assert s.funcId + 1 !in s.used;
    } else if c.At? && GrowthValid(s.funcId, c.key) {
      AcceptedKeyBelowDouble(s.funcId, c.key);
    }
  }
}
