/** Storing a filter and reading it back. */
module PersistRoundTrip {
  import opened Objects
  import opened ByteOrder
  import opened LazyRefs
  import opened FilterTerms
  import opened Persist

  // ------------------------------------------------------------------ what comes back

  predicate HasKey(m: seq<Pair<string>>, key: string) {
    exists p :: p in m && p.key == key
  }

  /** What an operation comes back as once its filters came back as `kids`. */
  function NormalOp(tag: Tag, data: Data, kids: seq<Term>): Result<Term>
    requires Fits(tag, data, |kids|)
  {
    if tag == RegexReplace then Ok(Op(tag, Rules(Shuffled(data.rules)), kids))
    else if tag == Downstack then
      var ref := Parse(Print(data.ref));
      if ref.Err? then Err else Ok(Op(tag, Ref(ref.value), kids))
    else if tag == Unapply then KeyedOp(tag, [Print(data.ref)], kids)
    else if tag == Rev then KeyedOp(tag, ArmKeys(data.arms), kids)
    else if tag == Squash && data.Refs? then SquashBack(data.refs, kids)
    else if tag == Compose then Ok(Op(tag, data, Shuffled(kids)))
    else if tag == Chain && kids == [] then Err
    else if tag in {Starlark, TreeId} then Err
    else if tag == Meta && HasKey(data.attributes, "0") then Err
    else Ok(Op(tag, data, kids))
  }

  function SquashBack(refs: seq<LazyRef>, kids: seq<Term>): Result<Term>
    requires |refs| == |kids|
  {
    ShuffledIs(RefKeys(refs));
    ShuffledIs(kids);
    KeyedOp(Squash, Shuffled(RefKeys(refs)), Shuffled(kids))
  }

  /** What a filter comes back as. */
  function Normal(t: Term): Result<Term>
    requires WellFormed(t)
    decreases t, 0
  {
    var kids := NormalAll(t.kids, |t.kids|);
    if kids.Err? then Err else NormalOp(t.tag, t.data, kids.value)
  }

  function NormalAll(ts: seq<Term>, n: nat): (r: Result<seq<Term>>)
    requires n <= |ts| && forall i :: 0 <= i < |ts| ==> WellFormed(ts[i])
    ensures r.Ok? ==> |r.value| == n
    decreases ts, n
  {
    if n == 0 then Ok([])
    else
      var rest, last := NormalAll(ts, n - 1), Normal(ts[n - 1]);
      if rest.Err? || last.Err? then Err else Ok(rest.value + [last.value])
  }

  lemma {:induction false} NormalAllIs(ts: seq<Term>, n: nat)
    requires n <= |ts| && forall i :: 0 <= i < |ts| ==> WellFormed(ts[i])
    ensures NormalAll(ts, n).Ok? <==> forall i :: 0 <= i < n ==> Normal(ts[i]).Ok?
    ensures NormalAll(ts, n).Ok? ==> forall i :: 0 <= i < n ==> NormalAll(ts, n).value[i] == Normal(ts[i]).value
  {
    hide Normal, WellFormed;
    if n == 0 {
    } else {
      NormalAllIs(ts, n - 1);
    }
  }

  lemma AllSame(ts: seq<Term>)
    requires forall i :: 0 <= i < |ts| ==> WellFormed(ts[i])
    requires forall i :: 0 <= i < |ts| ==> Normal(ts[i]) == Ok(ts[i])
    ensures NormalAll(ts, |ts|) == Ok(ts)
  {
    hide Normal, WellFormed, NormalAll;
    NormalAllIs(ts, |ts|);
    assert NormalAll(ts, |ts|).value == ts;
  }

  // ------------------------------------------------------------------ looking into stored trees

  lemma StoredEntries(ps: seq<Pair<Obj>>)
    ensures Entries(SortedTree(ps)) == Sort(ps) && |Entries(SortedTree(ps))| == |ps|
  {
    SortKeeps(ps);
  }

  lemma StoredAt(ps: seq<Pair<Obj>>, p: Pair<Obj>)
    requires DistinctKeys(ps) && p in ps
    ensures At(SortedTree(ps), p.key) == Some(p.value)
  {
    StoredEntries(ps);
    FindSorted(ps, p);
  }

  lemma NotStoredAt(ps: seq<Pair<Obj>>, name: string)
    requires forall p :: p in ps ==> p.key != name
    ensures At(SortedTree(ps), name) == None
  {
    StoredEntries(ps);
    SortKeeps(ps);
    FindNothing(Sort(ps), name);
  }

  lemma ListedAt(vs: seq<Obj>, i: nat)
    requires i < |vs|
    ensures At(ListParams(vs), Digits(i)) == Some(vs[i])
  {
    IndexedDistinct(vs);
    assert Indexed(vs)[i] in Indexed(vs);
    StoredAt(Indexed(vs), Pair(Digits(i), vs[i]));
  }

  /** Lists are read back in order by name. */
  lemma {:induction false} ListNamed(vs: seq<Obj>, n: nat)
    requires n <= |vs|
    ensures Named(ListParams(vs), n) == Some(vs[..n])
  {
    if n == 0 {
    } else {
      ListNamed(vs, n - 1);
      ListedAt(vs, n - 1);
      assert vs[..n] == vs[..n - 1] + [vs[n - 1]];
    }
  }

  lemma {:induction false} ListTexts(texts: seq<string>, n: nat)
    requires n <= |texts|
    ensures TextsAt(TextParams(texts), n) == Some(texts[..n])
  {
    if n == 0 {
    } else {
      ListTexts(texts, n - 1);
      ListedAt(Blobs(texts), n - 1);
      assert texts[..n] == texts[..n - 1] + [texts[n - 1]];
    }
  }

  lemma ListText(texts: seq<string>, i: nat)
    requires i < |texts|
    ensures TextAt(TextParams(texts), Digits(i)) == Some(texts[i])
  {
    ListedAt(Blobs(texts), i);
  }

  /** Lists are read back shuffled in place. */
  lemma ListInPlace(vs: seq<Obj>)
    ensures |Entries(ListParams(vs))| == |vs| && InPlace(ListParams(vs)) == Shuffled(vs)
  {
    StoredEntries(Indexed(vs));
  }

  // ------------------------------------------------------------------ reading lists of filters

  lemma {:induction false} DecodedAll(os: seq<Obj>, bound: nat)
    requires forall o :: o in os ==> Size(o) < bound
    ensures DecodeAll(os, bound).Ok? <==> forall i :: 0 <= i < |os| ==> Decode(os[i]).Ok?
    ensures DecodeAll(os, bound).Ok? ==>
      forall i :: 0 <= i < |os| ==> DecodeAll(os, bound).value[i] == Decode(os[i]).value
    decreases |os|
  {
    hide Decode, Size;
    if os == [] {
    } else {
      DecodedAll(Init(os), bound);
    }
  }

  lemma DecodedLast(keys: seq<string>, os: seq<Obj>, bound: nat)
    requires |keys| == |os| > 0 && forall o :: o in KeyedTrees(keys, os) ==> Size(o) < bound
    ensures forall o :: o in KeyedTrees(Init(keys), Init(os)) ==> Size(o) < bound
    ensures
      var rest, last := DecodeKeyed(KeyedTrees(Init(keys), Init(os)), bound), Decode(Last(os));
      DecodeKeyed(KeyedTrees(keys, os), bound) ==
      if rest.Err? || last.Err? then Err
      else Ok(Keyed(rest.value.keys + [Last(keys)], rest.value.kids + [last.value]))
  {
    hide Decode, Size, KeyedTree, At, TextAt;
    var all := KeyedTrees(keys, os);
    assert Init(all) == KeyedTrees(Init(keys), Init(os));
    KeyedAt(Last(keys), Last(os));
    assert Last(all) == KeyedTree(Last(keys), Last(os));
  }

  lemma DecodedNone(bound: nat)
    ensures DecodeKeyed([], bound) == Ok(Keyed([], []))
  {
  }

  lemma {:induction false} DecodedKeyed(keys: seq<string>, os: seq<Obj>, bound: nat)
    requires |keys| == |os| && forall o :: o in KeyedTrees(keys, os) ==> Size(o) < bound
    ensures var r := DecodeKeyed(KeyedTrees(keys, os), bound);
            && (r.Ok? <==> forall i :: 0 <= i < |os| ==> Decode(os[i]).Ok?)
            && (r.Ok? ==> r.value.keys == keys && forall i :: 0 <= i < |os| ==> r.value.kids[i] == Decode(os[i]).value)
    decreases |os|
  {
    hide Decode, Size, DecodeKeyed;
    if os == [] {
      assert KeyedTrees(keys, os) == [];
      DecodedNone(bound);
    } else {
      DecodedLast(keys, os, bound);
      DecodedKeyed(Init(keys), Init(os), bound);
      assert keys == Init(keys) + [Last(keys)] && os == Init(os) + [Last(os)];
    }
  }

  lemma KeyedAt(key: string, kid: Obj)
    ensures TextAt(KeyedTree(key, kid), "o") == Some(key) && At(KeyedTree(key, kid), "f") == Some(kid)
  {
    var ps := [Pair("o", Leaf(key)), Pair("f", kid)];
    assert ps[0] in ps && ps[1] in ps;
    assert "o"[0] != "f"[0];
    StoredAt(ps, ps[0]);
    StoredAt(ps, ps[1]);
  }

  /** The filters stored as `os`. */
  function Each(os: seq<Obj>): (r: Result<seq<Term>>)
    ensures r.Ok? ==> |r.value| == |os|
  {
    DecodeAll(os, Sizes(os) + 1)
  }

  lemma EachIs(os: seq<Obj>, bound: nat)
    requires forall o :: o in os ==> Size(o) < bound
    ensures DecodeAll(os, bound) == Each(os)
  {
    hide Decode, Size, DecodeAll;
    DecodedAll(os, bound);
    DecodedAll(os, Sizes(os) + 1);
    if Each(os).Ok? {
      assert DecodeAll(os, bound).value == Each(os).value;
    }
  }

  lemma EachShuffled(os: seq<Obj>)
    ensures |Shuffled(os)| == |os| && (Each(Shuffled(os)).Ok? <==> Each(os).Ok?)
    ensures Each(os).Ok? ==> Each(Shuffled(os)).value == Shuffled(Each(os).value)
  {
    hide Decode, Size, DecodeAll, Shuffled, Order;
    var n, ss := |os|, Shuffled(os);
    ShuffledIs(os);
    DecodedAll(os, Sizes(os) + 1);
    DecodedAll(ss, Sizes(ss) + 1);
    if Each(os).Ok? {
      ShuffledIs(Each(os).value);
    }
    forall i | 0 <= i < n && Each(ss).Ok? ensures Decode(os[i]).Ok? {
      OrderCovers(n, i);
      var j :| 0 <= j < n && Order(n)[j] == i;
      assert ss[j] == os[i];
    }
  }

  // ------------------------------------------------------------------ one operation

  ghost predicate ComesBack(tag: Tag, data: Data, os: seq<Obj>)
    requires Fits(tag, data, |os|)
  {
    DecodeOp(tag, Params(tag, data, os, ForStore)) ==
    if Each(os).Err? then Err else NormalOp(tag, data, Each(os).value)
  }

  lemma FlagComesBack(tag: Tag)
    requires IsFlag(tag)
    ensures ComesBack(tag, Nothing, [])
  {
  }

  lemma TextsComeBack(tag: Tag, data: Data)
    requires TextArity(tag) > 0 && Fits(tag, data, 0)
    ensures ComesBack(tag, data, [])
  {
    hide TextsAt, TextParams, DecodeOp, Each, Params, NormalOp;
    TextsParams(tag, data);
    ListTexts(data.params, |data.params|);
    assert data.params[..|data.params|] == data.params;
    TextIsList(data.params);
    TextsOp(tag, TextParams(data.params), data.params);
    EachNone();
  }

  lemma TextsParams(tag: Tag, data: Data)
    requires TextArity(tag) > 0 && Fits(tag, data, 0)
    ensures Params(tag, data, [], ForStore) == TextParams(data.params)
    ensures NormalOp(tag, data, []) == Ok(Op(tag, data, []))
  {
    hide TextParams;
  }

  lemma TextsOp(tag: Tag, v: Obj, texts: seq<string>)
    requires TextArity(tag) > 0 && v.Node? && TextsAt(v, TextArity(tag)) == Some(texts)
    ensures DecodeOp(tag, v) == Ok(Op(tag, Strings(texts), []))
  {
    hide TextsAt;
  }

  lemma EachNone()
    ensures Each([]) == Ok([])
  {
  }

  lemma TextIsList(texts: seq<string>)
    ensures TextParams(texts) == ListParams(Blobs(texts)) && TextParams(texts).Node?
  {
  }

  lemma LinkComesBack(mode: Option<LinkMode>)
    ensures ComesBack(Link, Mode(mode), [])
  {
    hide TextAt, TextParams;
    TextIsList([ModeText(mode)]);
    ListText([ModeText(mode)], 0);
  }

  lemma DownstackComesBack(ref: LazyRef)
    requires Proper(ref)
    ensures ComesBack(Downstack, Ref(ref), [])
  {
    hide TextAt, TextParams, Parse, Print;
    TextIsList([Print(ref)]);
    ListText([Print(ref)], 0);
  }

  lemma InsertComesBack(data: Data)
    requires data.Content?
    ensures ReadInsert(InsertParams(data.path, data.content, ForStore)) == Ok(data)
  {
    if data.content.Inline? {
      var texts := [data.path, "inline", data.content.text];
      ListText(texts, 0);
      ListText(texts, 1);
      ListText(texts, 2);
      forall p | p in Indexed(Blobs(texts)) ensures p.key != "o" {
        var i :| 0 <= i < 3 && p == Indexed(Blobs(texts))[i];
        DigitsShape(i);
        assert Digits(i)[0] in Digits(i);
      }
      NotStoredAt(Indexed(Blobs(texts)), "o");
    } else {
      var ps := [Pair("0", Leaf(data.path)), Pair("o", data.content.obj)];
      assert ps[0] in ps && ps[1] in ps && "0"[0] != "o"[0];
      StoredAt(ps, ps[0]);
      StoredAt(ps, ps[1]);
    }
  }

  lemma RuleRead(rule: Rule)
    ensures TextAt(RuleTree(rule), "p") == Some(rule.pattern) && TextAt(RuleTree(rule), "r") == Some(rule.replacement)
  {
    var ps := [Pair("p", Leaf(rule.pattern)), Pair("r", Leaf(rule.replacement))];
    assert ps[0] in ps && ps[1] in ps && "p"[0] != "r"[0];
    StoredAt(ps, ps[0]);
    StoredAt(ps, ps[1]);
  }

  lemma {:induction false} RulesRead(rules: seq<Rule>)
    ensures ReadRules(RuleTrees(rules)) == Ok(rules)
  {
    hide TextAt, RuleTree;
    if rules == [] {
    } else {
      var all, rule := RuleTrees(rules), Last(rules);
      assert Init(all) == RuleTrees(Init(rules));
      RulesRead(Init(rules));
      RuleRead(rule);
      assert rules == Init(rules) + [rule];
    }
  }

  lemma RulesComeBack(rules: seq<Rule>)
    ensures ReadRules(InPlace(ListParams(RuleTrees(rules)))) == Ok(Shuffled(rules))
  {
    hide Shuffled, Order;
    var all := RuleTrees(rules);
    ListInPlace(all);
    ShuffledIs(all);
    ShuffledIs(rules);
    assert Shuffled(all) == RuleTrees(Shuffled(rules));
    RulesRead(Shuffled(rules));
  }

  lemma DataComesBack(tag: Tag, data: Data)
    requires (tag == Insert || tag == RegexReplace) && Fits(tag, data, 0)
    ensures ComesBack(tag, data, [])
  {
    hide ReadInsert, InsertParams, ReadRules, InPlace, ListParams, Shuffled;
    if tag == Insert {
      InsertComesBack(data);
      InsertIsTree(data);
    } else {
      RulesComeBack(data.rules);
      ListIsTree(RuleTrees(data.rules));
    }
  }

  lemma InsertIsTree(data: Data)
    requires data.Content?
    ensures InsertParams(data.path, data.content, ForStore).Node?
  {
  }

  lemma ListIsTree(os: seq<Obj>)
    ensures ListParams(os).Node?
  {
  }

  /** What `DecodeKeyed` reads is the keys and what `Each` reads. */
  lemma KeyedEach(keys: seq<string>, os: seq<Obj>, bound: nat)
    requires |keys| == |os| && forall o :: o in KeyedTrees(keys, os) ==> Size(o) < bound
    ensures DecodeKeyed(KeyedTrees(keys, os), bound) ==
      if Each(os).Err? then Err else Ok(Keyed(keys, Each(os).value))
  {
    hide Decode, Size, DecodeAll, DecodeKeyed;
    DecodedKeyed(keys, os, bound);
    DecodedAll(os, Sizes(os) + 1);
    if Each(os).Ok? {
      assert DecodeKeyed(KeyedTrees(keys, os), bound).value.kids == Each(os).value;
    }
  }

  lemma KeyedOpBack(tag: Tag, v: Obj, keys: seq<string>, os: seq<Obj>)
    requires v.Node? && tag in {Unapply, Rev, Squash} && |keys| == |os| && (tag == Unapply ==> |keys| == 1)
    requires KeyedObjects(tag, v) == Some(KeyedTrees(keys, os))
    ensures DecodeOp(tag, v) == if Each(os).Err? then Err else KeyedOp(tag, keys, Each(os).value)
  {
    hide KeyedObjects, KeyedTrees, DecodeKeyed, DecodeAll, KeyedOp, Each, Size;
    KeyedEach(keys, os, Size(v));
  }

  lemma UnapplyObjects(keys: seq<string>, os: seq<Obj>)
    requires |keys| == |os| == 1
    ensures KeyedObjects(Unapply, ListParams(KeyedTrees(keys, os))) == Some(KeyedTrees(keys, os))
  {
    hide KeyedTree, Entries, Shuffled, Sort;
    var all := KeyedTrees(keys, os);
    ListInPlace(all);
    FewStayInOrder(all);
    assert [all[0]] == all;
  }

  lemma RevObjects(keys: seq<string>, os: seq<Obj>)
    requires |keys| == |os|
    ensures KeyedObjects(Rev, ListParams(KeyedTrees(keys, os))) == Some(KeyedTrees(keys, os))
  {
    hide KeyedTree, Entries, Named, Sort;
    var all := KeyedTrees(keys, os);
    ListInPlace(all);
    ListNamed(all, |all|);
    assert all[..|all|] == all;
  }

  lemma SquashObjects(keys: seq<string>, os: seq<Obj>)
    requires |keys| == |os|
    ensures |Shuffled(keys)| == |Shuffled(os)| == |os|
    ensures KeyedObjects(Squash, ListParams(KeyedTrees(keys, os))) == Some(KeyedTrees(Shuffled(keys), Shuffled(os)))
  {
    hide KeyedTree, Entries, Shuffled, Order, Sort;
    var all := KeyedTrees(keys, os);
    ListInPlace(all);
    ShuffledIs(keys);
    ShuffledIs(os);
    ShuffledIs(all);
    assert Shuffled(all) == KeyedTrees(Shuffled(keys), Shuffled(os));
  }

  lemma UnapplyComesBack(ref: LazyRef, os: seq<Obj>)
    requires Proper(ref) && |os| == 1
    ensures ComesBack(Unapply, Ref(ref), os)
  {
    hide Print, ListParams, KeyedTrees, DecodeOp, KeyedOp, KeyedObjects, Each;
    var keys := [Print(ref)];
    ListIsTree(KeyedTrees(keys, os));
    UnapplyObjects(keys, os);
    KeyedOpBack(Unapply, ListParams(KeyedTrees(keys, os)), keys, os);
  }

  lemma RevComesBack(arms: seq<Arm>, os: seq<Obj>)
    requires |arms| == |os| && forall a :: a in arms ==> Proper(a.ref)
    ensures ComesBack(Rev, Arms(arms), os)
  {
    hide ArmKey, ListParams, KeyedTrees, DecodeOp, KeyedOp, KeyedObjects, Each;
    var keys := ArmKeys(arms);
    ListIsTree(KeyedTrees(keys, os));
    RevObjects(keys, os);
    KeyedOpBack(Rev, ListParams(KeyedTrees(keys, os)), keys, os);
  }

  lemma SquashComesBack(data: Data, os: seq<Obj>)
    requires Fits(Squash, data, |os|)
    ensures ComesBack(Squash, data, os)
  {
    hide Print, ListParams, KeyedTrees, KeyedOp, KeyedObjects, Shuffled, Increasing, DecodeKeyedOp;
    if data.Refs? {
      var keys := RefKeys(data.refs);
      ListIsTree(KeyedTrees(keys, os));
      SquashObjects(keys, os);
      KeyedOpBack(Squash, ListParams(KeyedTrees(keys, os)), Shuffled(keys), Shuffled(os));
      EachShuffled(os);
    }
  }

  lemma DecodedList(tag: Tag, v: Obj, os: seq<Obj>)
    requires v.Node? && tag in {Compose, Chain, Subtract, Exclude, Select, Pin}
    requires (if tag == Compose then Some(InPlace(v)) else Named(v, |Entries(v)|)) == Some(os)
    ensures DecodeOp(tag, v) ==
      if !FitsList(tag, |os|) || Each(os).Err? then Err else Ok(Op(tag, Nothing, Each(os).value))
  {
    hide InPlace, Entries, Named, DecodeAll, Size, Each, DecodeOp;
    EachIs(os, Size(v));
    IsList(tag, v);
  }

  lemma IsList(tag: Tag, v: Obj)
    requires v.Node? && tag in {Compose, Chain, Subtract, Exclude, Select, Pin}
    ensures DecodeOp(tag, v) == DecodeList(tag, v)
  {
    hide DecodeList, Size;
  }

  lemma ListStored(tag: Tag, os: seq<Obj>)
    requires tag in {Compose, Chain, Subtract, Exclude, Select, Pin} && Fits(tag, Nothing, |os|)
    ensures Params(tag, Nothing, os, ForStore) == ListParams(os)
  {
    hide ListParams;
  }

  lemma ListNormal(tag: Tag, kids: seq<Term>)
    requires tag in {Compose, Chain, Subtract, Exclude, Select, Pin} && Fits(tag, Nothing, |kids|)
    ensures !FitsList(tag, |kids|) ==> NormalOp(tag, Nothing, kids) == Err
    ensures FitsList(tag, |kids|) ==>
              NormalOp(tag, Nothing, kids) == Ok(Op(tag, Nothing, if tag == Compose then Shuffled(kids) else kids))
  {
    hide Shuffled;
  }

  lemma ListComesBack(tag: Tag, os: seq<Obj>)
    requires tag in {Compose, Chain, Subtract, Exclude, Select, Pin} && Fits(tag, Nothing, |os|)
    ensures ComesBack(tag, Nothing, os)
  {
    hide InPlace, ListParams, Entries, Named, DecodeOp, Shuffled, Each, Params, NormalOp;
    var v := ListParams(os);
    ListIsTree(os);
    ListInPlace(os);
    ListStored(tag, os);
    if Each(os).Ok? {
      ListNormal(tag, Each(os).value);
    }
    if tag == Compose {
      DecodedList(tag, v, Shuffled(os));
      EachShuffled(os);
    } else {
      ListNamed(os, |os|);
      assert os[..|os|] == os;
      DecodedList(tag, v, os);
    }
  }

  /** A list of filters is not a filter. */
  lemma ListIsNoFilter(os: seq<Obj>)
    requires |os| == 1
    ensures Decode(ListParams(os)) == Err
  {
    hide DecodeOp, Title;
    ListInPlace(os);
    StoredEntries(Indexed(os));
    assert Increasing(Indexed(os));
    IncreasingSorted(Indexed(os));
    assert Entries(ListParams(os))[0].key == Digits(0) == "0";
  }

  lemma ScriptFails(tag: Tag, v: Obj, list: Obj)
    requires v.Node? && tag in {Starlark, TreeId} && At(v, "1") == Some(list) && Decode(list) == Err
    ensures DecodeOp(tag, v) == Err
  {
    hide At, Decode, TextAt;
  }

  lemma ScriptComesBack(tag: Tag, data: Data, os: seq<Obj>)
    requires tag in {Starlark, TreeId} && Fits(tag, data, |os|)
    ensures ComesBack(tag, data, os)
  {
    hide TextParams, ListParams, Decode, DecodeOp, At, Each, SortedTree;
    var ps := [Pair("0", TextParams(data.params)), Pair("1", ListParams(os))];
    assert ps[0] in ps && ps[1] in ps && "0"[0] != "1"[0];
    StoredAt(ps, ps[1]);
    ListIsNoFilter(os);
    SortedIsTree(ps);
    ScriptFails(tag, SortedTree(ps), ListParams(os));
  }

  lemma SortedIsTree(ps: seq<Pair<Obj>>)
    ensures SortedTree(ps).Node?
  {
  }

  // ------------------------------------------------------------------ attributes

  lemma EntriesIncrease(m: seq<Pair<string>>)
    requires Increasing(m)
    ensures Sort(AttributeEntries(m)) == AttributeEntries(m) && Increasing(AttributeEntries(m))
  {
    hide Less, Sort, Collect;
    assert Increasing(AttributeEntries(m));
    IncreasingSorted(AttributeEntries(m));
  }

  lemma {:induction false} ReadConcat(a: seq<Pair<Obj>>, b: seq<Pair<Obj>>)
    requires ReadAttributes(a).Ok? && ReadAttributes(b).Ok?
    ensures ReadAttributes(a + b) == Ok(ReadAttributes(a).value + ReadAttributes(b).value)
    decreases |b|
  {
    if b == [] {
      assert a + b == a && ReadAttributes(a).value + [] == ReadAttributes(a).value;
    } else {
      assert Init(a + b) == a + Init(b) && Last(a + b) == Last(b);
      ReadConcat(a, Init(b));
      var x, y, z := ReadAttributes(a).value, ReadAttributes(Init(b)).value, Last(b);
      assert z.key != "0" ==> (x + y) + [Pair(z.key, z.value.data)] == x + (y + [Pair(z.key, z.value.data)]);
    }
  }

  lemma {:induction false} ReadEntries(m: seq<Pair<string>>)
    requires forall p :: p in m ==> p.key != "0"
    ensures ReadAttributes(AttributeEntries(m)) == Ok(m)
  {
    if m == [] {
    } else {
      var ps := AttributeEntries(m);
      assert Init(ps) == AttributeEntries(Init(m));
      ReadEntries(Init(m));
      assert Last(m) in m && Last(ps) == Pair(Last(m).key, Leaf(Last(m).value));
      assert m == Init(m) + [Last(m)];
    }
  }

  lemma AttributesRead(m: seq<Pair<string>>, kid: Obj)
    requires Increasing(m) && !HasKey(m, "0")
    ensures ReadAttributes(Sort(AttributeEntries(m) + [Pair("0", kid)])) == Ok(m)
  {
    hide Less, Increasing, Sort;
    var ps, p := AttributeEntries(m), Pair("0", kid);
    EntriesIncrease(m);
    SortSnoc(ps, p);
    var j := InsertPlace(ps, p);
    assert ps[..j] == AttributeEntries(m[..j]) && ps[j..] == AttributeEntries(m[j..]);
    ReadEntries(m[..j]);
    ReadEntries(m[j..]);
    ReadConcat(ps[..j], [p]);
    ReadConcat(ps[..j] + [p], ps[j..]);
    assert m == m[..j] + [] + m[j..];
  }

  lemma MetaWithoutKey(m: seq<Pair<string>>, kid: Obj)
    requires Increasing(m) && !HasKey(m, "0")
    ensures At(SortedTree(AttributeEntries(m) + [Pair("0", kid)]), "0") == Some(kid)
  {
    var ps, p := AttributeEntries(m), Pair("0", kid);
    IncreasingDistinct(m);
    assert forall i :: 0 <= i < |m| ==> m[i] in m && ps[i].key == m[i].key;
    assert (ps + [p])[|ps|] == p;
    StoredAt(ps + [p], p);
  }

  /** An attribute called `0` hides the filter. */
  lemma MetaWithKey(m: seq<Pair<string>>, kid: Obj)
    requires Increasing(m) && HasKey(m, "0")
    ensures At(SortedTree(AttributeEntries(m) + [Pair("0", kid)]), "0").Some?
    ensures At(SortedTree(AttributeEntries(m) + [Pair("0", kid)]), "0").value.Leaf?
  {
    hide Less;
    var ps, p := AttributeEntries(m), Pair("0", kid);
    EntriesIncrease(m);
    IncreasingDistinct(m);
    var i :| 0 <= i < |m| && m[i].key == "0";
    assert ps[i] in ps;
    FindMember(ps, ps[i]);
    FirstIsFound(ps, p);
    assert Init(ps + [p]) == ps && Last(ps + [p]) == p;
    StoredEntries(ps + [p]);
  }

  lemma MetaOp(v: Obj, kid: Obj, attributes: seq<Pair<string>>)
    requires v.Node? && At(v, "0") == Some(kid) && ReadAttributes(Entries(v)) == Ok(attributes)
    ensures DecodeOp(Meta, v) ==
      if Decode(kid).Err? then Err else Ok(Op(Meta, Attributes(Collect(attributes)), [Decode(kid).value]))
  {
    hide At, Decode, ReadAttributes, Entries, Collect;
  }

  lemma MetaFails(v: Obj)
    requires v.Node? && At(v, "0").Some? && At(v, "0").value.Leaf?
    ensures DecodeOp(Meta, v) == Err
  {
    hide At, ReadAttributes, Entries, Collect;
  }

  lemma MetaParams(m: seq<Pair<string>>, os: seq<Obj>, kids: seq<Term>)
    requires Increasing(m) && |os| == 1 && |kids| == 1
    ensures Params(Meta, Attributes(m), os, ForStore) == SortedTree(AttributeEntries(m) + [Pair("0", os[0])])
    ensures NormalOp(Meta, Attributes(m), kids) == if HasKey(m, "0") then Err else Ok(Op(Meta, Attributes(m), kids))
  {
    hide SortedTree, AttributeEntries, Increasing, HasKey;
  }

  lemma MetaComesBack(m: seq<Pair<string>>, os: seq<Obj>)
    requires Increasing(m) && |os| == 1
    ensures ComesBack(Meta, Attributes(m), os)
  {
    hide SortedTree, AttributeEntries, At, Decode, DecodeOp, ReadAttributes, Entries, Collect, Increasing, HasKey,
         Params, NormalOp, Each;
    var ps := AttributeEntries(m) + [Pair("0", os[0])];
    var v := SortedTree(ps);
    SortedIsTree(ps);
    EachOne(os);
    if Each(os).Ok? {
      MetaParams(m, os, Each(os).value);
    }
    MetaParams(m, os, [Op(Nop, Nothing, [])]);
    if HasKey(m, "0") {
      MetaWithKey(m, os[0]);
      MetaFails(v);
    } else {
      MetaWithoutKey(m, os[0]);
      AttributesRead(m, os[0]);
      StoredEntries(ps);
      IncreasingSorted(m);
      MetaOp(v, os[0], m);
    }
  }

  lemma EachOne(os: seq<Obj>)
    requires |os| == 1
    ensures Each(os) == if Decode(os[0]).Err? then Err else Ok([Decode(os[0]).value])
  {
    hide Decode, Size;
    DecodedAll(os, Sizes(os) + 1);
    if Each(os).Ok? {
      assert Each(os).value == [Decode(os[0]).value];
    }
  }

  // ------------------------------------------------------------------ the whole filter

  lemma LeafComesBack(tag: Tag, data: Data)
    requires Fits(tag, data, 0) && (IsFlag(tag) || TextArity(tag) > 0 || tag in {Link, Insert, RegexReplace, Downstack})
    ensures ComesBack(tag, data, [])
  {
    hide ComesBack, Proper;
    if IsFlag(tag) {
      FlagComesBack(tag);
    } else if TextArity(tag) > 0 {
      TextsComeBack(tag, data);
    } else if tag == Link {
      LinkComesBack(data.mode);
    } else if tag == Downstack {
      DownstackComesBack(data.ref);
    } else {
      DataComesBack(tag, data);
    }
  }

  lemma OpComesBack(tag: Tag, data: Data, os: seq<Obj>)
    requires Fits(tag, data, |os|)
    ensures ComesBack(tag, data, os)
  {
    hide ComesBack, Increasing, Proper;
    if IsFlag(tag) || TextArity(tag) > 0 || tag in {Link, Insert, RegexReplace, Downstack} {
      assert os == [];
      LeafComesBack(tag, data);
    } else if tag == Unapply {
      UnapplyComesBack(data.ref, os);
    } else if tag == Rev {
      RevComesBack(data.arms, os);
    } else if tag == Squash {
      SquashComesBack(data, os);
    } else if tag in {Starlark, TreeId} {
      ScriptComesBack(tag, data, os);
    } else if tag == Meta {
      MetaComesBack(data.attributes, os);
    } else {
      ListComesBack(tag, os);
    }
  }

  lemma {:induction false} WellFormedFits(t: Term)
    requires WellFormed(t)
    ensures FitsThroughout(t)
  {
    forall i | 0 <= i < |t.kids| ensures FitsThroughout(t.kids[i]) {
      WellFormedFits(t.kids[i]);
    }
  }

  lemma DecodedBuild(tag: Tag, data: Data, os: seq<Obj>)
    requires Fits(tag, data, |os|)
    ensures Decode(Build(tag, data, os, ForStore)) == DecodeOp(tag, Params(tag, data, os, ForStore))
  {
    hide DecodeOp, Params, Title, TagOf, Size;
    TitleTells(tag);
    var o := Build(tag, data, os, ForStore);
    assert Entries(o) == [Pair(Title(tag), Params(tag, data, os, ForStore))];
  }

  /** Reading back what was stored gives exactly the normal form, for every filter. */
  lemma {:induction false} StoredComesBack(t: Term)
    requires WellFormed(t)
    ensures FitsThroughout(t) && Decode(Encode(t, ForStore)) == Normal(t)
    decreases t
  {
    hide Decode, NormalOp, Fits, Build, Params, DecodeOp;
    WellFormedFits(t);
    var os := EncodeAll(t.kids, |t.kids|, ForStore);
    forall i | 0 <= i < |os| ensures Decode(os[i]) == Normal(t.kids[i]) {
      StoredComesBack(t.kids[i]);
    }
    DecodedBuild(t.tag, t.data, os);
    OpComesBack(t.tag, t.data, os);
    NormalAllIs(t.kids, |t.kids|);
    DecodedAll(os, Sizes(os) + 1);
    if Each(os).Ok? {
      assert Each(os).value == NormalAll(t.kids, |t.kids|).value;
    }
  }

  // ------------------------------------------------------------------ what comes back unchanged

  /** Scripted filters never come back, and an empty chain does not; an attribute may not be called
      `0`, references must be printable, a default arm has no reference, and a list that is read in
      place must be the same after the shuffle. */
  predicate Keeps(tag: Tag, data: Data, kids: seq<Term>)
    requires Fits(tag, data, |kids|)
  {
    match tag
    case RegexReplace => Shuffled(data.rules) == data.rules
    case Downstack => Printable(data.ref)
    case Unapply => Printable(data.ref)
    case Rev => forall a :: a in data.arms ==> KeepsArm(a)
    case Squash => data.Refs? ==> forall r :: r in data.refs ==> Printable(r)
    case Compose => Shuffled(kids) == kids
    case Chain => kids != []
    case Starlark => false
    case TreeId => false
    case Meta => !HasKey(data.attributes, "0")
    case _ => true
  }

  predicate KeepsArm(a: Arm) {
    if a.rule == Default then a.ref == Resolved(ZERO_ID) else Printable(a.ref)
  }

  predicate Faithful(t: Term)
    requires WellFormed(t)
  {
    Keeps(t.tag, t.data, t.kids) && forall i :: 0 <= i < |t.kids| ==> Faithful(t.kids[i])
  }

  /** Printed arms start with their operator, and no reference starts with one. */
  lemma ArmParses(a: Arm)
    requires Proper(a.ref)
    ensures ParseArm(ArmKey(a)) == Ok(a) <==> KeepsArm(a)
  {
    var s := Print(a.ref);
    if a.ref.Resolved? {
      assert s[0] in s;
    }
    var key := ArmKey(a);
    PrintedParses(a.ref);
    match a.rule {
      case AncestorStrict => assert key[1..] == s && key[0] == '<' && key[1] == s[0];
      case AncestorInclusive => assert key[..2] == "<=" && key[2..] == s;
      case Equal => assert key[..2] == "==" && key[2..] == s;
      case Default =>
    }
  }

  lemma {:induction false} ArmsParse(arms: seq<Arm>)
    requires forall a :: a in arms ==> Proper(a.ref)
    ensures ParseArms(ArmKeys(arms)) == Ok(arms) <==> forall a :: a in arms ==> KeepsArm(a)
  {
    hide ParseArm, ArmKey, KeepsArm;
    if arms == [] {
    } else {
      assert Init(ArmKeys(arms)) == ArmKeys(Init(arms)) && Last(ArmKeys(arms)) == ArmKey(Last(arms));
      assert arms == Init(arms) + [Last(arms)];
      ArmsParse(Init(arms));
      ArmParses(Last(arms));
      var rest, last := ParseArms(ArmKeys(Init(arms))), ParseArm(ArmKey(Last(arms)));
      if rest.Ok? && last.Ok? && rest.value + [last.value] == arms {
        assert Init(arms) == rest.value && Last(arms) == last.value;
      }
    }
  }

  lemma {:induction false} RefsParse(refs: seq<LazyRef>)
    requires forall r :: r in refs ==> Proper(r) && Printable(r)
    ensures ParseRefs(RefKeys(refs)) == Ok(refs)
  {
    hide Parse, Print;
    if refs == [] {
    } else {
      assert Init(RefKeys(refs)) == RefKeys(Init(refs)) && Last(RefKeys(refs)) == Print(Last(refs));
      assert refs == Init(refs) + [Last(refs)];
      RefsParse(Init(refs));
      PrintedParses(Last(refs));
    }
  }

  lemma SlotsIncrease(refs: seq<LazyRef>, kids: seq<Term>)
    requires |refs| == |kids| && Increasing(Slots(refs, refs))
    ensures Increasing(Slots(refs, kids))
  {
    hide Less;
    var ps, qs := Slots(refs, kids), Slots(refs, refs);
    forall i, j | 0 <= i < j < |ps| ensures Less(ps[i].key, ps[j].key) {
      assert Less(qs[i].key, qs[j].key);
    }
  }

  /** A squash map does not depend on the order it is filled in. */
  lemma SquashCollects(refs: seq<LazyRef>, kids: seq<Term>)
    requires |refs| == |kids| && Increasing(Slots(refs, refs))
    ensures |Shuffled(refs)| == |Shuffled(kids)|
    ensures SquashOf(Shuffled(refs), Shuffled(kids)) == Op(Squash, Refs(refs), kids)
  {
    hide Shuffled, Order, Collect, Increasing, OrderKey;
    var n, slots := |refs|, Slots(refs, kids);
    ShuffledIs(refs);
    ShuffledIs(kids);
    OrderDistinct(n);
    SlotsIncrease(refs, kids);
    IncreasingDistinct(slots);
    var ps := Slots(Shuffled(refs), Shuffled(kids));
    assert forall j :: 0 <= j < n ==> ps[j] == slots[Order(n)[j]];
    assert DistinctKeys(ps);
    forall p | p in slots ensures p in ps {
      var i :| 0 <= i < n && slots[i] == p;
      OrderCovers(n, i);
      var j :| 0 <= j < n && Order(n)[j] == i;
      assert ps[j] == p;
    }
    CollectShuffled(ps, slots);
    assert SlotRefs(slots) == refs && SlotValues(slots) == kids;
  }

  lemma SquashKept(refs: seq<LazyRef>, kids: seq<Term>)
    requires Fits(Squash, Refs(refs), |kids|) && forall r :: r in refs ==> Printable(r)
    ensures SquashBack(refs, kids) == Ok(Op(Squash, Refs(refs), kids))
  {
    hide Shuffled, Order, Print, ParseRefs, Increasing, SquashOf;
    ShuffledIs(refs);
    ShuffledIs(kids);
    ShuffledIs(RefKeys(refs));
    assert Shuffled(RefKeys(refs)) == RefKeys(Shuffled(refs));
    RefsParse(Shuffled(refs));
    SquashCollects(refs, kids);
  }

  lemma {:induction false} ParsedRefs(keys: seq<string>)
    requires ParseRefs(keys).Ok?
    ensures forall i :: 0 <= i < |keys| ==> Parse(keys[i]) == Ok(ParseRefs(keys).value[i])
  {
    hide Parse;
    if keys == [] {
    } else {
      ParsedRefs(Init(keys));
    }
  }

  lemma {:induction false} LongestUnprintable(refs: seq<LazyRef>) returns (r: LazyRef)
    requires exists q :: q in refs && !Printable(q)
    ensures r in refs && !Printable(r) && forall q :: q in refs && !Printable(q) ==> |q.name| <= |r.name|
  {
    hide Clean;
    var q, rest := Last(refs), Init(refs);
    assert refs == rest + [q];
    if exists x :: x in rest && !Printable(x) {
      r := LongestUnprintable(rest);
      if !Printable(q) && |q.name| > |r.name| {
        r := q;
      }
    } else {
      r := q;
    }
  }

  /** A squash map keeps its keys only if all of them are printable: an unprintable one would have
      to be what a longer one is read back as. */
  lemma SquashKeepsOnly(refs: seq<LazyRef>, kids: seq<Term>)
    requires Fits(Squash, Refs(refs), |kids|) && SquashBack(refs, kids).Ok?
    requires SquashBack(refs, kids).value.data == Refs(refs)
    ensures forall r :: r in refs ==> Printable(r)
  {
    hide Shuffled, Order, Print, Parse, ParseRefs, Increasing, Collect, Printable, Proper, OrderKey;
    if exists r :: r in refs && !Printable(r) {
      var r := LongestUnprintable(refs);
      var keys := Shuffled(RefKeys(refs));
      ShuffledIs(RefKeys(refs));
      ShuffledIs(kids);
      var back := ParseRefs(keys).value;
      ParsedRefs(keys);
      var slots := Slots(back, Shuffled(kids));
      CollectFrom(slots);
      var i :| 0 <= i < |refs| && SlotRefs(Collect(slots))[i] == r;
      assert Collect(slots)[i] in slots;
      var j :| 0 <= j < |slots| && slots[j] == Collect(slots)[i];
      var q := refs[Order(|refs|)[j]];
      assert Parse(Print(q)) == Ok(r);
      PrintedParses(q);
      ReadBackShrinks(q);
    }
  }

  lemma KeptData(tag: Tag, data: Data, kids: seq<Term>)
    requires tag in {Rev, Unapply, Squash, Downstack, RegexReplace} && Fits(tag, data, |kids|) && Keeps(tag, data, kids)
    ensures NormalOp(tag, data, kids) == Ok(Op(tag, data, kids))
  {
    hide ArmKey, ParseArms, Print, SquashBack, Increasing, KeepsArm, Printable, ParseRefs, Shuffled;
    if tag == Rev {
      ArmsParse(data.arms);
    } else if tag == Downstack {
      PrintedParses(data.ref);
    } else if tag == Unapply {
      RefsParse([data.ref]);
      assert RefKeys([data.ref]) == [Print(data.ref)];
    } else if tag == Squash && data.Refs? {
      SquashKept(data.refs, kids);
    }
  }

  lemma KeptOp(tag: Tag, data: Data, kids: seq<Term>)
    requires Fits(tag, data, |kids|) && Keeps(tag, data, kids)
    ensures NormalOp(tag, data, kids) == Ok(Op(tag, data, kids))
  {
    hide Fits, Shuffled, ArmKey, Print, Parse, SquashBack, KeepsArm, Printable, KeyedOp, HasKey;
    if tag in {Rev, Unapply, Squash, Downstack, RegexReplace} {
      KeptData(tag, data, kids);
    }
  }

  /** No list that is read in place has more than ten members. */
  predicate ShortOp(tag: Tag, data: Data, n: nat) {
    (tag == Compose ==> n <= 10) && (tag == RegexReplace && data.Rules? ==> |data.rules| <= 10)
  }

  lemma OnlyKeptData(tag: Tag, data: Data, kids: seq<Term>, back: seq<Term>)
    requires tag in {Rev, Unapply, Squash, Downstack} && Fits(tag, data, |kids|) && |back| == |kids|
    requires NormalOp(tag, data, back) == Ok(Op(tag, data, kids))
    ensures Keeps(tag, data, kids) && back == kids
  {
    hide ArmKey, ParseArms, Print, Parse, SquashBack, Increasing, KeepsArm, Printable, ParseRefs;
    if tag == Rev {
      ArmsParse(data.arms);
    } else if tag == Squash && data.Refs? {
      SquashKeepsOnly(data.refs, back);
      SquashKept(data.refs, back);
    } else if tag == Unapply {
      ParsedRefs([Print(data.ref)]);
      PrintedParses(data.ref);
    } else if tag == Downstack {
      PrintedParses(data.ref);
    }
  }

  lemma OnlyKeptOp(tag: Tag, data: Data, kids: seq<Term>, back: seq<Term>)
    requires Fits(tag, data, |kids|) && |back| == |kids| && ShortOp(tag, data, |kids|)
    requires NormalOp(tag, data, back) == Ok(Op(tag, data, kids))
    ensures Keeps(tag, data, kids) && back == kids
  {
    hide Fits, Shuffled, ArmKey, Print, Parse, SquashBack, KeepsArm, Printable, KeyedOp, HasKey;
    if tag in {Rev, Unapply, Squash, Downstack} {
      OnlyKeptData(tag, data, kids, back);
    } else if tag == Compose {
      FewStayInOrder(back);
      FewStayInOrder(kids);
    } else if tag == RegexReplace {
      RulesFit(data, |kids|);
      FewStayInOrder(data.rules);
    }
  }

  lemma RulesFit(data: Data, n: nat)
    requires Fits(RegexReplace, data, n)
    ensures data.Rules?
  {
  }

  /** A faithful filter comes back as it was stored. */
  lemma {:induction false} FaithfulComesBack(t: Term)
    requires WellFormed(t) && Faithful(t)
    ensures Normal(t) == Ok(t)
  {
    hide Keeps, NormalOp, Fits;
    forall i | 0 <= i < |t.kids| ensures Normal(t.kids[i]) == Ok(t.kids[i]) {
      FaithfulComesBack(t.kids[i]);
    }
    AllSame(t.kids);
    KeptOp(t.tag, t.data, t.kids);
  }

  predicate Short(t: Term) {
    t.Op? && ShortOp(t.tag, t.data, |t.kids|) && forall i :: 0 <= i < |t.kids| ==> Short(t.kids[i])
  }

  /** Without long lists, only faithful filters do. */
  lemma {:induction false} OnlyFaithfulComesBack(t: Term)
    requires WellFormed(t) && Short(t) && Normal(t) == Ok(t)
    ensures Faithful(t)
  {
    hide Keeps, NormalOp, Fits, ShortOp;
    NormalAllIs(t.kids, |t.kids|);
    var back := NormalAll(t.kids, |t.kids|).value;
    OnlyKeptOp(t.tag, t.data, t.kids, back);
    forall i | 0 <= i < |t.kids| ensures Faithful(t.kids[i]) {
      assert Normal(t.kids[i]) == Ok(back[i]);
      OnlyFaithfulComesBack(t.kids[i]);
    }
  }

  /** What is stored is read back unchanged if it is faithful and, unless it has a list of more than
      ten members, only then. */
  lemma RoundTrip(t: Term)
    requires WellFormed(t)
    ensures FitsThroughout(t)
    ensures Faithful(t) ==> Decode(Encode(t, ForStore)) == Ok(t)
    ensures Short(t) && Decode(Encode(t, ForStore)) == Ok(t) ==> Faithful(t)
  {
    hide Faithful, Decode, Normal, Encode, Short;
    StoredComesBack(t);
    if Faithful(t) {
      FaithfulComesBack(t);
    }
    if Short(t) && Normal(t) == Ok(t) {
      OnlyFaithfulComesBack(t);
    }
  }

  /** Composed filters come back shuffled, and changed at least when the third and the eleventh of
      them differ. */
  lemma ComposeComesBack(kids: seq<Term>)
    requires forall i :: 0 <= i < |kids| ==> WellFormed(kids[i]) && Faithful(kids[i])
    ensures Normal(Op(Compose, Nothing, kids)) == Ok(Op(Compose, Nothing, Shuffled(kids)))
    ensures |kids| > 10 && kids[2] != kids[10] ==> Normal(Op(Compose, Nothing, kids)) != Ok(Op(Compose, Nothing, kids))
  {
    hide Shuffled, Faithful, NormalAll;
    forall i | 0 <= i < |kids| ensures Normal(kids[i]) == Ok(kids[i]) {
      FaithfulComesBack(kids[i]);
    }
    AllSame(kids);
    if |kids| > 10 {
      EleventhBecomesThird(kids);
    }
  }

  // ------------------------------------------------------------------ what is read is well formed

  lemma {:induction false} ParsedArmsProper(keys: seq<string>)
    requires ParseArms(keys).Ok?
    ensures forall a :: a in ParseArms(keys).value ==> Proper(a.ref)
  {
    hide Parse, Proper;
    if keys == [] {
    } else {
      ParsedArmsProper(Init(keys));
      var key := Last(keys);
      assert Proper(Resolved(ZERO_ID)) by {
        ZeroIsProper();
      }
      forall n | 0 <= n <= |key| && Parse(key[n..]).Ok? ensures Proper(Parse(key[n..]).value) {
        ParsedIsProper(key[n..]);
      }
    }
  }

  lemma ZeroIsProper()
    ensures Proper(Resolved(ZERO_ID))
  {
  }

  lemma {:induction false} ParsedRefsProper(keys: seq<string>)
    requires ParseRefs(keys).Ok?
    ensures forall r :: r in ParseRefs(keys).value ==> Proper(r)
  {
    hide Parse, Proper;
    if keys == [] {
    } else {
      ParsedRefsProper(Init(keys));
      ParsedIsProper(Last(keys));
    }
  }

  lemma SquashFits(refs: seq<LazyRef>, kids: seq<Term>)
    requires |refs| == |kids| && (forall r :: r in refs ==> Proper(r)) && forall t :: t in kids ==> WellFormed(t)
    ensures WellFormed(SquashOf(refs, kids))
  {
    hide Proper, Collect, Less;
    var ps := Slots(refs, kids);
    var c := Collect(ps);
    CollectIncreases(ps);
    CollectFrom(ps);
    forall i | 0 <= i < |c|
      ensures Proper(c[i].value.0) && WellFormed(c[i].value.1) && c[i].key == OrderKey(c[i].value.0)
    {
      assert c[i] in ps;
      var j :| 0 <= j < |ps| && ps[j] == c[i];
      assert refs[j] in refs && kids[j] in kids;
    }
    var back := SlotRefs(c);
    assert Increasing(Slots(back, back)) by {
      forall i, j | 0 <= i < j < |back| ensures Less(Slots(back, back)[i].key, Slots(back, back)[j].key) {
        assert Less(c[i].key, c[j].key);
      }
    }
    forall r | r in back ensures Proper(r) {
      var i :| 0 <= i < |back| && back[i] == r;
      assert Proper(c[i].value.0);
    }
  }

  lemma KeyedFits(tag: Tag, keys: seq<string>, kids: seq<Term>)
    requires tag in {Unapply, Rev, Squash} && |keys| == |kids| && (tag == Unapply ==> |keys| == 1)
    requires KeyedOp(tag, keys, kids).Ok? && forall t :: t in kids ==> WellFormed(t)
    ensures WellFormed(KeyedOp(tag, keys, kids).value)
  {
    hide ParseArms, ParseRefs, SquashOf, Proper;
    assert forall i :: 0 <= i < |kids| ==> kids[i] in kids;
    if tag == Rev {
      ParsedArmsProper(keys);
    } else {
      ParsedRefsProper(keys);
      if tag == Squash {
        SquashFits(ParseRefs(keys).value, kids);
      }
    }
  }

  /** Whatever can be read is a filter. */
  lemma {:induction false} DecodedWellFormed(o: Obj)
    requires Decode(o).Ok?
    ensures WellFormed(Decode(o).value)
    decreases Size(o), 1, 0
  {
    hide WellFormed, DecodeOp, TagOf, Size;
    var first := Entries(o)[0];
    OpWellFormed(TagOf(first.key).value, first.value);
  }

  lemma {:induction false} AllWellFormed(os: seq<Obj>, bound: nat)
    requires (forall o :: o in os ==> Size(o) < bound) && DecodeAll(os, bound).Ok?
    ensures forall t :: t in DecodeAll(os, bound).value ==> WellFormed(t)
    decreases bound, 0, |os|
  {
    hide WellFormed, Decode, Size;
    if os == [] {
    } else {
      AllWellFormed(Init(os), bound);
      DecodedWellFormed(Last(os));
    }
  }

  lemma {:induction false} KeyedWellFormed(os: seq<Obj>, bound: nat)
    requires (forall o :: o in os ==> Size(o) < bound) && DecodeKeyed(os, bound).Ok?
    ensures forall t :: t in DecodeKeyed(os, bound).value.kids ==> WellFormed(t)
    decreases bound, 0, |os|
  {
    hide WellFormed, Decode, Size, At, TextAt;
    if os == [] {
    } else {
      assert Last(os) in os;
      KeyedWellFormed(Init(os), bound);
      DecodedWellFormed(At(Last(os), "f").value);
    }
  }

  lemma {:induction false} ListWellFormed(tag: Tag, v: Obj)
    requires v.Node? && tag in {Compose, Chain, Subtract, Exclude, Select, Pin} && DecodeList(tag, v).Ok?
    ensures WellFormed(DecodeList(tag, v).value)
    decreases Size(v), 1, 0
  {
    hide DecodeAll, Named, InPlace, Entries, Size;
    var os := if tag == Compose then InPlace(v) else Named(v, |Entries(v)|).value;
    AllWellFormed(os, Size(v));
    var kids := DecodeAll(os, Size(v)).value;
    assert forall i :: 0 <= i < |kids| ==> kids[i] in kids;
  }

  lemma {:induction false} KeyedOpWellFormed(tag: Tag, v: Obj)
    requires v.Node? && tag in {Unapply, Rev, Squash} && DecodeKeyedOp(tag, v).Ok?
    ensures WellFormed(DecodeKeyedOp(tag, v).value)
    decreases Size(v), 1, 0
  {
    hide DecodeKeyed, KeyedObjects, KeyedOp, WellFormed, Size;
    var os := KeyedObjects(tag, v).value;
    KeyedWellFormed(os, Size(v));
    var read := DecodeKeyed(os, Size(v)).value;
    KeyedFits(tag, read.keys, read.kids);
  }

  lemma {:induction false} TextsRead(o: Obj, n: nat)
    requires TextsAt(o, n).Some?
    ensures |TextsAt(o, n).value| == n
  {
    hide TextAt;
    if n == 0 {
    } else {
      TextsRead(o, n - 1);
    }
  }

  lemma DataWellFormed(tag: Tag, v: Obj)
    requires v.Node? && tag in {Link, Insert, RegexReplace, Downstack} && DecodeData(tag, v).Ok?
    ensures Fits(tag, DecodeData(tag, v).value, 0)
  {
    hide TextAt, At, ReadRules, InPlace, Parse, ParseMode, Proper;
    if tag == Downstack {
      ParsedIsProper(TextAt(v, "0").value);
    }
  }

  lemma {:induction false} OpWellFormed(tag: Tag, v: Obj)
    requires DecodeOp(tag, v).Ok?
    ensures WellFormed(DecodeOp(tag, v).value)
    decreases Size(v), 2, 0
  {
    hide TextsAt, DecodeData, DecodeKeyedOp, DecodeList, Decode, At, TextAt, ReadAttributes, Entries, Collect, Size;
    if !IsFlag(tag) && v.Node? {
      if TextArity(tag) > 0 {
        TextsRead(v, TextArity(tag));
      } else if tag in {Link, Insert, RegexReplace, Downstack} {
        DataWellFormed(tag, v);
      } else if tag in {Unapply, Rev, Squash} {
        KeyedOpWellFormed(tag, v);
      } else if tag in {Starlark, TreeId} {
        DecodedWellFormed(At(v, "1").value);
      } else if tag == Meta {
        DecodedWellFormed(At(v, "0").value);
        CollectIncreases(ReadAttributes(Entries(v)).value);
      } else {
        ListWellFormed(tag, v);
      }
    }
  }
}
