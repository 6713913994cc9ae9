/** What filters look like when they are stored: the names of operations and of their entries. */
module StoredLayout {
  import opened Objects
  import opened ByteOrder
  import opened LazyRefs
  import opened FilterTerms
  import opened Persist

  lemma OneEntry(a: string, x: Obj)
    ensures SortedTree([Pair(a, x)]) == Node([a], [x])
  {
    var ps := [Pair(a, x)];
    assert Init(ps) == [] && Last(ps) == ps[0] && Sort(Init(ps)) == [];
    assert Sort(ps) == ps;
  }

  /** Entries are stored in the order of their names, whichever is given first. */
  lemma TwoEntries(a: string, x: Obj, b: string, y: Obj)
    requires Less(a, b)
    ensures SortedTree([Pair(a, x), Pair(b, y)]) == Node([a, b], [x, y])
    ensures SortedTree([Pair(b, y), Pair(a, x)]) == Node([a, b], [x, y])
  {
    LessTotal(a, b);
    var p, q := Pair(a, x), Pair(b, y);
    assert Init([p, q]) == [p] && Init([q, p]) == [q];
    assert Init([p]) == [] && Init([q]) == [];
    assert Sort([p]) == [p] && Sort([q]) == [q];
    assert [p][1..] == [];
    assert Sort([p, q]) == [p, q] && Sort([q, p]) == [p, q];
  }

  lemma ListOfOne(x: Obj)
    ensures ListParams([x]) == Node(["0"], [x])
  {
    assert Indexed([x]) == [Pair("0", x)];
    OneEntry("0", x);
  }

  lemma ListOfTwo(x: Obj, y: Obj)
    ensures ListParams([x, y]) == Node(["0", "1"], [x, y])
  {
    assert Indexed([x, y]) == [Pair("0", x), Pair("1", y)];
    assert "0"[0] < "1"[0];
    TwoEntries("0", x, "1", y);
  }

  lemma TextsOf(a: string, b: string)
    ensures TextParams([a]) == Node(["0"], [Leaf(a)])
    ensures TextParams([a, b]) == Node(["0", "1"], [Leaf(a), Leaf(b)])
  {
    assert Blobs([a]) == [Leaf(a)] && Blobs([a, b]) == [Leaf(a), Leaf(b)];
    ListOfOne(Leaf(a));
    ListOfTwo(Leaf(a), Leaf(b));
  }

  lemma KeyedIs(key: string, kid: Obj)
    ensures KeyedTree(key, kid) == Node(["f", "o"], [kid, Leaf(key)])
  {
    assert "f"[0] < "o"[0];
    TwoEntries("f", kid, "o", Leaf(key));
  }

  /** Operations without filters below them: a blob, or their texts by index. */
  lemma FlagsStored(form: Form)
    ensures Build(Nop, Nothing, [], form) == Node(["nop"], [Leaf("")])
    ensures Build(Empty, Nothing, [], form) == Node(["empty"], [Leaf("")])
    ensures Build(Prune, Nothing, [], form) == Node(["prune"], [Leaf("trivial-merge")])
  {
  }

  lemma TextStored(a: string, form: Form)
    ensures Build(Subdir, Strings([a]), [], form) == Node(["subdir"], [Node(["0"], [Leaf(a)])])
    ensures Build(Prefix, Strings([a]), [], form) == Node(["prefix"], [Node(["0"], [Leaf(a)])])
  {
    hide TextParams;
    TextsOf(a, a);
  }

  lemma TwoTextsStored(a: string, b: string, form: Form)
    ensures Build(File, Strings([a, b]), [], form) == Node(["file"], [Node(["0", "1"], [Leaf(a), Leaf(b)])])
    ensures Build(Message, Strings([a, b]), [], form) == Node(["message"], [Node(["0", "1"], [Leaf(a), Leaf(b)])])
  {
    hide TextParams;
    TextsOf(a, b);
  }

  /** Operations on filters: the filters by index, in their order. */
  lemma ListsStored(x: Obj, y: Obj, form: Form)
    ensures Build(Compose, Nothing, [x, y], form) == Node(["compose"], [Node(["0", "1"], [x, y])])
    ensures Build(Chain, Nothing, [x, y], form) == Node(["chain"], [Node(["0", "1"], [x, y])])
  {
    hide ListParams;
    ListOfTwo(x, y);
  }

  lemma SubtractStored(x: Obj, y: Obj, form: Form)
    ensures Build(Subtract, Nothing, [x, y], form) == Node(["subtract"], [Node(["0", "1"], [x, y])])
  {
    hide ListParams;
    ListOfTwo(x, y);
  }

  lemma OneStored(x: Obj, form: Form)
    ensures Build(Exclude, Nothing, [x], form) == Node(["exclude"], [Node(["0"], [x])])
    ensures Build(Pin, Nothing, [x], form) == Node(["pin"], [Node(["0"], [x])])
  {
    hide ListParams;
    ListOfOne(x);
  }

  lemma KeyedList(key: string, x: Obj)
    ensures ListParams(KeyedTrees([key], [x])) == Node(["0"], [Node(["f", "o"], [x, Leaf(key)])])
  {
    hide ListParams, KeyedTree;
    KeyedIs(key, x);
    assert KeyedTrees([key], [x]) == [KeyedTree(key, x)];
    ListOfOne(KeyedTree(key, x));
  }

  /** A filter under a reference: the filter and the printed reference. */
  lemma UnapplyStored(x: Obj, ref: LazyRef, form: Form)
    requires Proper(ref)
    ensures Build(Unapply, Ref(ref), [x], form)
      == Node(["unapply"], [Node(["0"], [Node(["f", "o"], [x, Leaf(Print(ref))])])])
  {
    hide ListParams, KeyedTrees, Print;
    KeyedList(Print(ref), x);
  }

  /** A match arm: a sign for the kind of the match comes before the reference. */
  lemma ArmStored(x: Obj, ref: LazyRef, rule: RevMatch, form: Form)
    requires Proper(ref)
    ensures var key :=
        match rule
        case AncestorStrict => "<" + Print(ref)
        case AncestorInclusive => "<=" + Print(ref)
        case Equal => "==" + Print(ref)
        case Default => "_";
      Build(Rev, Arms([Arm(rule, ref)]), [x], form)
      == Node(["rev"], [Node(["0"], [Node(["f", "o"], [x, Leaf(key)])])])
  {
    hide ListParams, KeyedTrees, Print;
    var key := ArmKey(Arm(rule, ref));
    assert ArmKeys([Arm(rule, ref)]) == [key];
    KeyedList(key, x);
  }

  /** An inserted object is an entry of the stored filter. */
  lemma InsertStored(path: string, obj: Obj)
    ensures Build(Insert, Content(path, ById(obj)), [], ForStore)
      == Node(["insert"], [Node(["0", "o"], [Leaf(path), obj])])
  {
    assert "0"[0] < "o"[0];
    TwoEntries("0", Leaf(path), "o", obj);
  }

  /** A filter with one attribute, whose name comes after `0` in byte order. */
  lemma MetaStored(x: Obj, name: string, text: string, form: Form)
    requires Less("0", name)
    ensures Build(Meta, Attributes([Pair(name, text)]), [x], form)
      == Node(["meta"], [Node(["0", name], [x, Leaf(text)])])
  {
    hide SortedTree;
    assert AttributeEntries([Pair(name, text)]) == [Pair(name, Leaf(text))];
    assert [Pair(name, Leaf(text))] + [Pair("0", x)] == [Pair(name, Leaf(text)), Pair("0", x)];
    TwoEntries("0", x, name, Leaf(text));
  }
}
