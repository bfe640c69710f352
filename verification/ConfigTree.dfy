/** Loading a YAML tree into the configuration variables. */
module ConfigTree {
  import opened Fibers

  /** A YAML tree; `text` of any other node than a scalar is what emitting it gives. */
  datatype Tree =
    | Leaf(text: string)
    | Other(text: string)
    | Branch(text: string, children: Children)

  /** The entries of a map, in order. */
  datatype Children = Nil | Cons(key: string, node: Tree, rest: Children)

  type Listing = seq<(string, Tree)>

  /** Config::kValidSet. */
  predicate ValidChar(c: char) {
    'a' <= c <= 'z' || c == '.' || c == '_' || '0' <= c <= '9'
  }

  predicate ValidName(s: string) {
    forall i :: 0 <= i < |s| ==> ValidChar(s[i])
  }

  function Lower(c: char): char {
    if 'A' <= c <= 'Z' then c - 'A' + 'a' else c
  }

  function ToLower(s: string): (r: string)
    ensures |r| == |s| && forall i :: 0 <= i < |s| ==> r[i] == Lower(s[i])
  {
    seq(|s|, i requires 0 <= i < |s| => Lower(s[i]))
  }

  function Child(prefix: string, key: string): string {
    if prefix == "" then key else prefix + "." + key
  }

  // ---- The pruned walk of ListAllMember, and the full walk ----

  function Pruned(prefix: string, t: Tree): Listing
    decreases t, 0
  {
    if !ValidName(prefix) then []
    else [(prefix, t)] + (if t.Branch? then PrunedEach(prefix, t.children) else [])
  }

  function PrunedEach(prefix: string, cs: Children): Listing
    decreases cs, 1
  {
    match cs
    case Nil => []
    case Cons(key, node, rest) => Pruned(Child(prefix, key), node) + PrunedEach(prefix, rest)
  }

  /** The preorder listing of all paths, valid or not. */
  function Full(prefix: string, t: Tree): Listing
    decreases t, 0
  {
    [(prefix, t)] + (if t.Branch? then FullEach(prefix, t.children) else [])
  }

  function FullEach(prefix: string, cs: Children): Listing
    decreases cs, 1
  {
    match cs
    case Nil => []
    case Cons(key, node, rest) => Full(Child(prefix, key), node) + FullEach(prefix, rest)
  }

  function OnlyValid(l: Listing): Listing {
    if l == [] then [] else (if ValidName(l[0].0) then [l[0]] else []) + OnlyValid(l[1..])
  }

  lemma {:induction false} OnlyValidCat(a: Listing, b: Listing)
    ensures OnlyValid(a + b) == OnlyValid(a) + OnlyValid(b)
  {
    if a == [] {
      assert a + b == b;
    } else {
      assert (a + b)[1..] == a[1..] + b;
      OnlyValidCat(a[1..], b);
      Regroup(if ValidName(a[0].0) then [a[0]] else [], OnlyValid(a[1..]), OnlyValid(b));
    }
  }

  lemma Regroup(a: Listing, b: Listing, c: Listing)
    ensures a + (b + c) == (a + b) + c
  {}

  /** A path below an invalid path is invalid: pruning drops nothing that is valid. */
  lemma {:induction false} BelowInvalid(prefix: string, t: Tree)
    requires !ValidName(prefix)
    ensures OnlyValid(Full(prefix, t)) == []
    decreases t, 0
  {
    var below := if t.Branch? then FullEach(prefix, t.children) else [];
    if t.Branch? {
      EachBelowInvalid(prefix, t.children);
    }
    assert ([(prefix, t)] + below)[1..] == below;
  }

  lemma {:induction false} EachBelowInvalid(prefix: string, cs: Children)
    requires !ValidName(prefix)
    ensures OnlyValid(FullEach(prefix, cs)) == []
    decreases cs, 1
  {
    match cs
    case Nil =>
    case Cons(key, node, rest) =>
      var i :| 0 <= i < |prefix| && !ValidChar(prefix[i]);
      assert Child(prefix, key)[i] == prefix[i];
      BelowInvalid(Child(prefix, key), node);
      EachBelowInvalid(prefix, rest);
      OnlyValidCat(Full(Child(prefix, key), node), FullEach(prefix, rest));
  }

  /** The pruned walk lists exactly the valid paths of the full walk, in the same order. */
  lemma {:induction false} PruningIsFiltering(prefix: string, t: Tree)
    ensures Pruned(prefix, t) == OnlyValid(Full(prefix, t))
    decreases t, 0
  {
    if !ValidName(prefix) {
      BelowInvalid(prefix, t);
    } else {
      var below := if t.Branch? then FullEach(prefix, t.children) else [];
      if t.Branch? {
        EachPruned(prefix, t.children);
      }
      assert ([(prefix, t)] + below)[1..] == below;
    }
  }

  lemma {:induction false} EachPruned(prefix: string, cs: Children)
    ensures PrunedEach(prefix, cs) == OnlyValid(FullEach(prefix, cs))
    decreases cs, 1
  {
    match cs
    case Nil =>
    case Cons(key, node, rest) =>
      PruningIsFiltering(Child(prefix, key), node);
      EachPruned(prefix, rest);
      OnlyValidCat(Full(Child(prefix, key), node), FullEach(prefix, rest));
  }

  /** ListAllMember appends its listing to what the output list holds. */
  method ListAllMember(prefix: string, node: Tree, output: Listing) returns (out: Listing)
    ensures out == output + Pruned(prefix, node)
    decreases node
  {
    if !ValidName(prefix) {
      return output;
    }
    out := output + [(prefix, node)];
    if node.Branch? {
      Regroup(output, [(prefix, node)], PrunedEach(prefix, node.children));
      var it := node.children;
      while it.Cons?
        invariant it < node
        invariant out + PrunedEach(prefix, it) == output + Pruned(prefix, node)
        decreases it
      {
        Regroup(out, Pruned(Child(prefix, it.key), it.node), PrunedEach(prefix, it.rest));
        out := ListAllMember(Child(prefix, it.key), it.node, out);
        it := it.rest;
      }
      assert out + [] == out;
    } else {
      assert [(prefix, node)] + [] == [(prefix, node)];
    }
  }

  // ---- Loading ----

  /** FromStr of a variable: the value a text converts to, or None where the conversion throws. */
  type Convert<!V> = (string, string) -> Option<V>

  /** The equality of a variable's value type, with which setValue decides whether to do anything. */
  type Same<!V> = (string, V, V) -> bool

  function Assigned<V>(same: Same<V>, name: string, present: V, v: V): V {
    if same(name, present, v) then present else v
  }

  predicate Converts<V>(conv: Convert<V>, entry: (string, Tree), name: string) {
    entry.0 == name && conv(name, entry.1.text).Some?
  }

  /** fromString for every listed value of the name, one after the other. */
  function Folded<V>(conv: Convert<V>, same: Same<V>, l: Listing, name: string, old': V): V {
    if l == [] then old'
    else
      var last := l[|l| - 1];
      var present := Folded(conv, same, l[..|l| - 1], name, old');
      if Converts(conv, last, name) then Assigned(same, name, present, conv(name, last.1.text).value) else present
  }

  lemma FoldedSnoc<V>(conv: Convert<V>, same: Same<V>, l: Listing, entry: (string, Tree), name: string, old': V)
    ensures
      var present := Folded(conv, same, l, name, old');
      Folded(conv, same, l + [entry], name, old') ==
        if Converts(conv, entry, name) then Assigned(same, name, present, conv(name, entry.1.text).value) else present
  {
    assert (l + [entry])[..|l|] == l;
  }

  /** The last listed value for a name that converts, else the old value. */
  function LastConverted<V>(conv: Convert<V>, l: Listing, name: string, old': V): V {
    if l == [] then old'
    else
      var last := l[|l| - 1];
      if Converts(conv, last, name) then conv(name, last.1.text).value
      else LastConverted(conv, l[..|l| - 1], name, old')
  }

  /** The listed values only count up to the variable's own equality. */
  lemma {:induction false} FoldedIsLast<V>(conv: Convert<V>, same: Same<V>, l: Listing, name: string, old': V)
    requires forall v :: same(name, v, v)
    ensures same(name, Folded(conv, same, l, name, old'), LastConverted(conv, l, name, old'))
    decreases |l|
  {
    if l != [] && !Converts(conv, l[|l| - 1], name) {
      FoldedIsLast(conv, same, l[..|l| - 1], name, old');
    }
  }

  /** Entry `k` is the last one that converts for the name. */
  ghost predicate LastAt<V>(conv: Convert<V>, l: Listing, name: string, k: nat) {
    k < |l| && Converts(conv, l[k], name) && forall j :: k < j < |l| ==> !Converts(conv, l[j], name)
  }

  /** The value itself is taken over if and only if the variable did not hold a different one that
      compares equal to it. */
  lemma {:induction false} FoldedExactIff<V>(conv: Convert<V>, same: Same<V>, l: Listing, name: string, old': V, k: nat)
    requires LastAt(conv, l, name, k)
    ensures
      var present, v := Folded(conv, same, l[..k], name, old'), conv(name, l[k].1.text).value;
      && LastConverted(conv, l, name, old') == v
      && (Folded(conv, same, l, name, old') == v <==> present == v || !same(name, present, v))
    decreases |l|
  {
    if k < |l| - 1 {
      var front := l[..|l| - 1];
      assert front[..k] == l[..k];
      assert forall j :: k < j < |front| ==> front[j] == l[j];
      FoldedExactIff(conv, same, front, name, old', k);
    }
  }

  /** Every variable ends as if fromString had been applied to it with every value that a valid,
      non-empty path of the whole tree gives it, in order. */
  ghost predicate Loaded<V>(conv: Convert<V>, same: Same<V>, root: Tree,
                            before: map<string, V>, after: map<string, V>) {
    && after.Keys == before.Keys
    && forall name :: name in before ==>
         after[name] == if name == "" then before[name]
                        else Folded(conv, same, OnlyValid(Full("", root)), name, before[name])
  }

  /** So every variable ends with the last value that converts, up to its own equality. */
  lemma LoadedIsLast<V>(conv: Convert<V>, same: Same<V>, root: Tree, before: map<string, V>, after: map<string, V>,
                        name: string)
    requires Loaded(conv, same, root, before, after) && name in before && name != ""
    requires forall v :: same(name, v, v)
    ensures same(name, after[name], LastConverted(conv, OnlyValid(Full("", root)), name, before[name]))
  {
    FoldedIsLast(conv, same, OnlyValid(Full("", root)), name, before[name]);
  }

  lemma {:induction false} PrunedNamesAreValid(l: Listing, i: nat)
    requires i < |OnlyValid(l)|
    ensures ValidName(OnlyValid(l)[i].0)
    decreases |l|
  {
    if l != [] {
      if ValidName(l[0].0) {
        if i > 0 { PrunedNamesAreValid(l[1..], i - 1); }
      } else {
        PrunedNamesAreValid(l[1..], i);
      }
    }
  }

  /** Lower-casing changes no valid name. */
  lemma ValidIsLower(s: string)
    requires ValidName(s)
    ensures ToLower(s) == s
  {}

  /** The entries before `i` are loaded. */
  ghost predicate LoadedSoFar<V>(conv: Convert<V>, same: Same<V>, l: Listing, i: nat,
                                 before: map<string, V>, after: map<string, V>) {
    && i <= |l| && after.Keys == before.Keys
    && forall name :: name in before ==>
         after[name] == if name == "" then before[name] else Folded(conv, same, l[..i], name, before[name])
  }

  /** What one entry does. */
  function Loading<V>(conv: Convert<V>, same: Same<V>, entry: (string, Tree), vars: map<string, V>): map<string, V> {
    if entry.0 != "" && entry.0 in vars && Converts(conv, entry, entry.0)
    then vars[entry.0 := Assigned(same, entry.0, vars[entry.0], conv(entry.0, entry.1.text).value)]
    else vars
  }

  lemma LoadStep<V>(conv: Convert<V>, same: Same<V>, l: Listing, i: nat, before: map<string, V>, after: map<string, V>)
    requires LoadedSoFar(conv, same, l, i, before, after) && i < |l|
    ensures LoadedSoFar(conv, same, l, i + 1, before, Loading(conv, same, l[i], after))
  {
    assert l[..i + 1][..i] == l[..i];
  }

  /** The variables registered with Config. Listeners are assumed not to throw. */
  class Config<V> {
    var vars: map<string, V>

    /** ConfigVar::fromString: sets the value if the text converts and the variable does not
        already hold one that compares equal. */
    method FromString(conv: Convert<V>, same: Same<V>, name: string, text: string) returns (done: bool)
      requires name in vars
      modifies this
      ensures done <==> conv(name, text).Some?
      ensures vars == if done && !same(name, old(vars)[name], conv(name, text).value)
                      then old(vars)[name := conv(name, text).value] else old(vars)
    {
      var v := conv(name, text);
      if v.None? {
        return false;
      }
      if !same(name, vars[name], v.value) {
        vars := vars[name := v.value];
      }
      return true;
    }

    /** LoadFromYaml. */
    method LoadFromYaml(conv: Convert<V>, same: Same<V>, root: Tree)
      modifies this
      ensures Loaded(conv, same, root, old(vars), vars)
    {
      var all := ListAllMember("", root, []);
      PruningIsFiltering("", root);
      assert all == OnlyValid(Full("", root));
      for i := 0 to |all|
        invariant LoadedSoFar(conv, same, all, i, old(vars), vars)
      {
        var key := all[i].0;
        PrunedNamesAreValid(Full("", root), i);
        ValidIsLower(key);
        LoadStep(conv, same, all, i, old(vars), vars);
        if key == "" {
          continue;
        }
        key := ToLower(key);
        if key in vars {
          assert vars[key := vars[key]] == vars;
          var done := FromString(conv, same, key, all[i].1.text);
        }
      }
      assert all[..|all|] == all;
    }
  }
}
