/** The variable "logs" among the configuration variables: loading and the listener use one equality. */
module LogsVariable {
  import opened Fibers
  import opened LogDefines
  import opened Loggers
  import opened ConfigTree

  /** std::set<LogDefine>::operator== for "logs". */
  function LogsSame(): Same<Defines> {
    (name, a, b) => SameDefines(a, b)
  }

  lemma LogsSameIsReflexive(v: Defines)
    ensures LogsSame()("logs", v, v)
  {}

  /** Loading leaves in "logs" the last set that converts, in everything but the files. */
  lemma LogsLoadedUpToFiles(conv: Convert<Defines>, root: Tree,
                            before: map<string, Defines>, after: map<string, Defines>)
    requires Loaded(conv, LogsSame(), root, before, after) && "logs" in before
    ensures SameDefines(after["logs"], LastConverted(conv, OnlyValid(Full("", root)), "logs", before["logs"]))
  {
    forall v ensures LogsSame()("logs", v, v) { LogsSameIsReflexive(v); }
    LoadedIsLast(conv, LogsSame(), root, before, after, "logs");
  }

  /** What is listed for a tree that only sets "logs". */
  lemma ListingOfOne(text: string)
    ensures
      var root := Branch("", Cons("logs", Leaf(text), Nil));
      OnlyValid(Full("", root)) == [("", root), ("logs", Leaf(text))]
  {
    var root := Branch("", Cons("logs", Leaf(text), Nil));
    PruningIsFiltering("", root);
    assert PrunedEach("", Nil) == [] && Pruned("logs", Leaf(text)) == [("logs", Leaf(text))];
  }

  lemma FoldedOverOne(conv: Convert<Defines>, root: Tree, text: string, old': Defines)
    requires conv("logs", text).Some? && SameDefines(old', conv("logs", text).value)
    ensures Folded(conv, LogsSame(), [("", root), ("logs", Leaf(text))], "logs", old') == old'
  {
    FoldedSnoc(conv, LogsSame(), [], ("", root), "logs", old');
    FoldedSnoc(conv, LogsSame(), [("", root)], ("logs", Leaf(text)), "logs", old');
    assert [] + [("", root)] == [("", root)];
    assert [("", root)] + [("logs", Leaf(text))] == [("", root), ("logs", Leaf(text))];
  }

  /** The set with one logger "A" that writes to a file. */
  function OnlyA(file: string): Defines {
    map["A" := WritesTo(file)]
  }

  /** An input on which the file is lost: "logs" says x, the tree says y, and loading keeps x. */
  lemma LoadingKeepsOldFile(conv: Convert<Defines>, text: string, x: string, y: string, after: map<string, Defines>)
    requires x != y && conv("logs", text) == Some(OnlyA(y))
    requires Loaded(conv, LogsSame(), Branch("", Cons("logs", Leaf(text), Nil)), map["logs" := OnlyA(x)], after)
    ensures after["logs"] == OnlyA(x) && after["logs"] != OnlyA(y)
  {
    ListingOfOne(text);
    FoldedOverOne(conv, Branch("", Cons("logs", Leaf(text), Nil)), text, OnlyA(x));
    assert OnlyA(x)["A"].appenders[0].file == x && OnlyA(y)["A"].appenders[0].file == y;
  }
}
