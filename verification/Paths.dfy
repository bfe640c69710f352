/** What the names of a configuration tree are, apart from the walk that makes them up. */
module Paths {
  import opened Fibers
  import opened ConfigTree

  // ---- The characters of a name ----

  /** kValidSet by character codes: lower-case letters, digits, the dot and the underscore. */
  lemma ValidCharacters(c: char)
    ensures ValidChar(c) <==> 97 <= c as int <= 122 || 48 <= c as int <= 57 || c as int == 46 || c as int == 95
  {}

  /** Lower-casing by character codes. */
  lemma LowerByCode(s: string, i: nat)
    requires i < |s|
    ensures |ToLower(s)| == |s|
    ensures ToLower(s)[i] as int == if 65 <= s[i] as int <= 90 then s[i] as int + 32 else s[i] as int
  {}

  // ---- Lists of keys ----

  /** The keys joined with dots. */
  function Join(keys: seq<string>): string {
    if keys == [] then "" else if |keys| == 1 then keys[0] else keys[0] + "." + Join(keys[1..])
  }

  /** Empty keys in front leave no trace, since nothing is put before an empty prefix. */
  function Strip(keys: seq<string>): seq<string> {
    if keys != [] && keys[0] == "" then Strip(keys[1..]) else keys
  }

  function Name(keys: seq<string>): string {
    Join(Strip(keys))
  }

  /** A list of keys leads to a node. */
  predicate LeadsTo(t: Tree, keys: seq<string>, node: Tree)
    decreases t, 0
  {
    if keys == [] then node == t else t.Branch? && OneLeadsTo(t.children, keys, node)
  }

  predicate OneLeadsTo(cs: Children, keys: seq<string>, node: Tree)
    requires keys != []
    decreases cs, 1
  {
    cs.Cons? && ((cs.key == keys[0] && LeadsTo(cs.node, keys[1..], node)) || OneLeadsTo(cs.rest, keys, node))
  }

  type KeyListing = seq<(seq<string>, Tree)>

  /** All lists of keys of a tree with their nodes, a node before its children and these in order. */
  function Preorder(t: Tree): KeyListing
    decreases t, 0
  {
    [([], t)] + (if t.Branch? then PreorderEach(t.children) else [])
  }

  function PreorderEach(cs: Children): KeyListing
    decreases cs, 1
  {
    match cs
    case Nil => []
    case Cons(key, node, rest) => Under(key, Preorder(node)) + PreorderEach(rest)
  }

  function Under(key: string, l: KeyListing): (r: KeyListing)
    ensures |r| == |l| && forall i :: 0 <= i < |l| ==> r[i] == ([key] + l[i].0, l[i].1)
  {
    seq(|l|, i requires 0 <= i < |l| => ([key] + l[i].0, l[i].1))
  }

  // ---- The preorder lists exactly the lists of keys that lead somewhere ----

  lemma {:induction false} PreorderIsExact(t: Tree, keys: seq<string>, node: Tree)
    ensures (keys, node) in Preorder(t) <==> LeadsTo(t, keys, node)
    decreases t, 0
  {
    if t.Branch? {
      EachIsExact(t.children, keys, node);
    }
  }

  lemma {:induction false} EachIsExact(cs: Children, keys: seq<string>, node: Tree)
    ensures (keys, node) in PreorderEach(cs) <==> keys != [] && OneLeadsTo(cs, keys, node)
    decreases cs, 1
  {
    match cs
    case Nil =>
    case Cons(key, child, rest) =>
      UnderIff(key, Preorder(child), keys, node);
      EachIsExact(rest, keys, node);
      if keys != [] {
        PreorderIsExact(child, keys[1..], node);
      }
  }

  lemma UnderIff(key: string, l: KeyListing, keys: seq<string>, node: Tree)
    ensures (keys, node) in Under(key, l) <==> keys != [] && keys[0] == key && (keys[1..], node) in l
  {
    var r := Under(key, l);
    if (keys, node) in r {
      var i :| 0 <= i < |r| && r[i] == (keys, node);
      assert l[i] == (keys[1..], node);
    }
    if keys != [] && keys[0] == key && (keys[1..], node) in l {
      var i :| 0 <= i < |l| && l[i] == (keys[1..], node);
      assert keys == [key] + keys[1..];
      assert r[i] == (keys, node);
    }
  }

  // ---- The full walk lists the names of that preorder ----

  /** The names of a listing of keys below the keys `above`. */
  function Named(above: seq<string>, l: KeyListing): (r: Listing)
    ensures |r| == |l| && forall i :: 0 <= i < |l| ==> r[i] == (Name(above + l[i].0), l[i].1)
  {
    seq(|l|, i requires 0 <= i < |l| => (Name(above + l[i].0), l[i].1))
  }

  lemma {:induction false} JoinSnoc(keys: seq<string>, key: string)
    requires keys != []
    ensures Join(keys + [key]) == Join(keys) + "." + key
    decreases |keys|
  {
    assert (keys + [key])[1..] == keys[1..] + [key];
    if |keys| == 1 {
      assert keys[1..] + [key] == [key];
    } else {
      JoinSnoc(keys[1..], key);
    }
  }

  lemma {:induction false} StripSnoc(keys: seq<string>, key: string)
    ensures Strip(keys + [key]) == if Strip(keys) == [] then Strip([key]) else Strip(keys) + [key]
    decreases |keys|
  {
    if keys == [] {
      assert keys + [key] == [key];
    } else if keys[0] == "" {
      assert (keys + [key])[1..] == keys[1..] + [key];
      StripSnoc(keys[1..], key);
    }
  }

  lemma {:induction false} StripFirst(keys: seq<string>)
    ensures Strip(keys) != [] ==> Strip(keys)[0] != ""
    decreases |keys|
  {
    if keys != [] && keys[0] == "" {
      StripFirst(keys[1..]);
    }
  }

  lemma ChildIsNamed(keys: seq<string>, key: string)
    ensures Child(Name(keys), key) == Name(keys + [key])
  {
    StripSnoc(keys, key);
    StripFirst(keys);
    var s := Strip(keys);
    if s != [] {
      JoinSnoc(s, key);
      assert |Join(s)| >= |s[0]| > 0;
    } else {
      assert [key][1..] == [];
    }
  }

  lemma NamedCat(above: seq<string>, a: KeyListing, b: KeyListing)
    ensures Named(above, a + b) == Named(above, a) + Named(above, b)
  {}

  lemma NamedUnder(above: seq<string>, key: string, l: KeyListing)
    ensures Named(above, Under(key, l)) == Named(above + [key], l)
  {
    forall i | 0 <= i < |l| ensures above + ([key] + l[i].0) == above + [key] + l[i].0 {}
  }

  lemma {:induction false} FullIsNamed(above: seq<string>, t: Tree)
    ensures Full(Name(above), t) == Named(above, Preorder(t))
    decreases t, 0
  {
    var below := if t.Branch? then PreorderEach(t.children) else [];
    if t.Branch? {
      FullEachIsNamed(above, t.children);
    }
    NamedCat(above, [([], t)], below);
    assert above + [] == above;
    assert Named(above, [([], t)]) == [(Name(above), t)];
  }

  lemma {:induction false} FullEachIsNamed(above: seq<string>, cs: Children)
    ensures FullEach(Name(above), cs) == Named(above, PreorderEach(cs))
    decreases cs, 1
  {
    match cs
    case Nil =>
    case Cons(key, node, rest) =>
      ChildIsNamed(above, key);
      FullIsNamed(above + [key], node);
      FullEachIsNamed(above, rest);
      NamedUnder(above, key, Preorder(node));
      NamedCat(above, Under(key, Preorder(node)), PreorderEach(rest));
  }

  /** The full walk of a tree lists, a node before its children and these in order, exactly the lists
      of keys that lead to a node, each as its keys joined with dots, empty keys in front left out. */
  lemma NamesAreJoinedKeys(root: Tree, keys: seq<string>, node: Tree)
    ensures Full("", root) == Named([], Preorder(root))
    ensures LeadsTo(root, keys, node) <==> (keys, node) in Preorder(root)
    ensures keys != [] && keys[0] != "" ==> Name(keys) == Join(keys)
  {
    FullIsNamed([], root);
    PreorderIsExact(root, keys, node);
  }

  // ---- Nested settings ----

  function Setting(text: string, inner: string, a: string, b: string): Tree {
    Branch(text, Cons(a, Branch(inner, Cons(b, Leaf(text), Nil)), Nil))
  }

  /** What is listed for one setting in one section. */
  lemma NestedListing(text: string, inner: string, a: string, b: string)
    requires a != "" && ValidName(a + "." + b)
    ensures OnlyValid(Full("", Setting(text, inner, a, b))) ==
            [("", Setting(text, inner, a, b)), (a, Branch(inner, Cons(b, Leaf(text), Nil))), (a + "." + b, Leaf(text))]
  {
    var leaf := Leaf(text);
    var section := Branch(inner, Cons(b, leaf, Nil));
    assert forall i :: 0 <= i < |a| ==> (a + "." + b)[i] == a[i];
    PruningIsFiltering("", Setting(text, inner, a, b));
    ChildIsNamed([a], b);
    assert Name([a]) == a && Name([a] + [b]) == a + "." + b by {
      JoinSnoc([a], b);
      StripSnoc([a], b);
    }
    assert Pruned(a + "." + b, leaf) == [(a + "." + b, leaf)];
    assert PrunedEach(a, Cons(b, leaf, Nil)) == [(a + "." + b, leaf)];
    assert Pruned(a, section) == [(a, section), (a + "." + b, leaf)];
    assert PrunedEach("", Cons(a, section, Nil)) == [(a, section), (a + "." + b, leaf)];
  }

  /** Loading a tree with a setting `b` in a section `a` sets the variable "a.b", unless it holds a
      value that compares equal. */
  lemma NestedSettingIsLoaded<V>(conv: Convert<V>, same: Same<V>, text: string, inner: string, a: string, b: string,
                                 before: map<string, V>, after: map<string, V>)
    requires a != "" && ValidName(a + "." + b) && a + "." + b in before && conv(a + "." + b, text).Some?
    requires Loaded(conv, same, Setting(text, inner, a, b), before, after)
    ensures
      var name, v := a + "." + b, conv(a + "." + b, text).value;
      after[name] == if same(name, before[name], v) then before[name] else v
  {
    var name := a + "." + b;
    NestedListing(text, inner, a, b);
    assert |a| < |name|;
    FoldOfThree(conv, same, ("", Setting(text, inner, a, b)), (a, Branch(inner, Cons(b, Leaf(text), Nil))),
                (name, Leaf(text)), name, before[name]);
  }

  lemma FoldOfThree<V>(conv: Convert<V>, same: Same<V>, x: (string, Tree), y: (string, Tree), z: (string, Tree),
                       name: string, old': V)
    requires x.0 != name && y.0 != name && Converts(conv, z, name)
    ensures
      var v := conv(name, z.1.text).value;
      Folded(conv, same, [x, y, z], name, old') == if same(name, old', v) then old' else v
  {
    FoldedSnoc(conv, same, [], x, name, old');
    FoldedSnoc(conv, same, [x], y, name, old');
    FoldedSnoc(conv, same, [x, y], z, name, old');
    assert [] + [x] == [x] && [x] + [y] == [x, y] && [x, y] + [z] == [x, y, z];
  }

  /** The stack size of fibers is set by its section and key. */
  lemma StackSizeIsLoaded(conv: Convert<nat>, inner: string, after: map<string, nat>)
    requires conv("fiber.stack_size", "65536") == Some(65536)
    requires Loaded(conv, (name, x, y) => x == y, Setting("65536", inner, "fiber", "stack_size"),
                    map["fiber.stack_size" := 131072], after)
    ensures after == map["fiber.stack_size" := 65536]
  {
    assert "fiber" + "." + "stack_size" == "fiber.stack_size";
    assert ValidName("fiber.stack_size");
    NestedSettingIsLoaded(conv, (name, x, y) => x == y, "65536", inner, "fiber", "stack_size",
                          map["fiber.stack_size" := 131072], after);
  }
}
