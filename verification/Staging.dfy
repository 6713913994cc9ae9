/** Storing a filter: its trees are staged in memory and flushed into the object store. */
module Staging {
  import opened Objects
  import opened ByteOrder
  import LazyRefs
  import opened FilterTerms
  import opened Persist
  import opened PersistRoundTrip
  import opened Interning

  // ------------------------------------------------------------------ filters that insert objects

  predicate InsertsObject(tag: Tag, data: Data) {
    tag == Insert && data.Content? && data.content.ById?
  }

  /** Somewhere in the filter an object is inserted by its id. */
  predicate HasInsert(t: Term) {
    t.Op? && (InsertsObject(t.tag, t.data) || exists i :: 0 <= i < |t.kids| && HasInsert(t.kids[i]))
  }

  /** The objects a filter inserts by id. */
  function Inserted(t: Term): set<Obj>
    decreases t, 0
  {
    if t.Sentinel? then {}
    else (if InsertsObject(t.tag, t.data) then {t.data.content.obj} else {}) + InsertedAll(t.kids, |t.kids|)
  }

  function InsertedAll(ts: seq<Term>, n: nat): set<Obj>
    requires n <= |ts|
    decreases ts, n
  {
    if n == 0 then {} else InsertedAll(ts, n - 1) + Inserted(ts[n - 1])
  }

  predicate NoSentinel(t: Term) {
    t.Op? && forall i :: 0 <= i < |t.kids| ==> NoSentinel(t.kids[i])
  }

  lemma SameParams(tag: Tag, data: Data, os: seq<Obj>, form: Form)
    requires Fits(tag, data, |os|) && !InsertsObject(tag, data)
    ensures Params(tag, data, os, form) == Params(tag, data, os, ForStore)
  {
    hide ListParams, TextParams, SortedTree, KeyedTrees, Increasing;
  }

  /** Where nothing is inserted by id, a filter is stored under its id. */
  lemma {:induction false} StoredUnderId(t: Term, form: Form)
    requires FitsThroughout(t) && !HasInsert(t)
    ensures Encode(t, form) == Encode(t, ForStore)
  {
    hide Fits, Params;
    if t.Op? {
      forall i | 0 <= i < |t.kids| ensures Encode(t.kids[i], form) == Encode(t.kids[i], ForStore) {
        StoredUnderId(t.kids[i], form);
      }
      assert EncodeAll(t.kids, |t.kids|, form) == EncodeAll(t.kids, |t.kids|, ForStore);
      SameParams(t.tag, t.data, EncodeAll(t.kids, |t.kids|, ForStore), form);
    }
  }

  // ------------------------------------------------------------------ trees tell their parts

  lemma ListTells(a: seq<Obj>, b: seq<Obj>)
    requires |a| == |b| && ListParams(a) == ListParams(b)
    ensures a == b
  {
    hide ListParams, Named;
    ListNamed(a, |a|);
    ListNamed(b, |b|);
    assert a[..|a|] == a && b[..|b|] == b;
  }

  lemma KeyedTells(keys: seq<string>, a: seq<Obj>, b: seq<Obj>)
    requires |keys| == |a| == |b| && ListParams(KeyedTrees(keys, a)) == ListParams(KeyedTrees(keys, b))
    ensures a == b
  {
    hide ListParams, KeyedTree;
    ListTells(KeyedTrees(keys, a), KeyedTrees(keys, b));
    forall i | 0 <= i < |a| ensures a[i] == b[i] {
      KeyedAt(keys[i], a[i]);
      KeyedAt(keys[i], b[i]);
      assert KeyedTrees(keys, a)[i] == KeyedTrees(keys, b)[i];
    }
  }

  lemma ScriptTells(path: Obj, a: seq<Obj>, b: seq<Obj>)
    requires |a| == |b|
    requires SortedTree([Pair("0", path), Pair("1", ListParams(a))])
      == SortedTree([Pair("0", path), Pair("1", ListParams(b))])
    ensures a == b
  {
    hide ListParams, SortedTree;
    var ps, qs := [Pair("0", path), Pair("1", ListParams(a))], [Pair("0", path), Pair("1", ListParams(b))];
    assert ps[1] in ps && qs[1] in qs && "0"[0] != "1"[0];
    StoredAt(ps, ps[1]);
    StoredAt(qs, qs[1]);
    ListTells(a, b);
  }

  /** A tree among the blobs of attributes can be told from them. */
  lemma MetaTells(m: seq<Pair<string>>, a: Obj, b: Obj)
    requires a.Node?
    requires SortedTree(AttributeEntries(m) + [Pair("0", a)]) == SortedTree(AttributeEntries(m) + [Pair("0", b)])
    ensures a == b
  {
    hide SortedTree, Sort;
    var ps, qs := AttributeEntries(m) + [Pair("0", a)], AttributeEntries(m) + [Pair("0", b)];
    StoredEntries(ps);
    StoredEntries(qs);
    SortKeeps(ps);
    SortKeeps(qs);
    assert ps[|m|] in ps;
    assert ps[|m|] in qs;
    var i :| 0 <= i < |qs| && qs[i] == Pair("0", a);
  }

  lemma ParamsTell(tag: Tag, data: Data, a: seq<Obj>, b: seq<Obj>, form: Form)
    requires |a| == |b| && Fits(tag, data, |a|) && (forall o :: o in a && o !in b ==> o.Node?)
    requires Params(tag, data, a, form) == Params(tag, data, b, ForStore) && !InsertsObject(tag, data)
    ensures a == b
  {
    hide ListParams, SortedTree, KeyedTrees, TextParams, Increasing, AttributeEntries, LazyRefs.Print;
    SameParams(tag, data, a, form);
    if a != [] {
      if tag in {Unapply, Rev, Squash} {
        var keys := if tag == Unapply then [LazyRefs.Print(data.ref)] else if tag == Rev then ArmKeys(data.arms)
                    else RefKeys(data.refs);
        KeyedTells(keys, a, b);
      } else if tag in {Starlark, TreeId} {
        ScriptTells(TextParams(data.params), a, b);
      } else if tag == Meta {
        if a[0] != b[0] {
          assert a[0] in a && a[0] !in b;
          MetaTells(data.attributes, a[0], b[0]);
        }
      } else {
        ListTells(a, b);
      }
    }
  }

  lemma InsertTells(path: string, obj: Obj, digits: Obj -> string)
    ensures InsertParams(path, ById(obj), ForHash(digits)) != InsertParams(path, ById(obj), ForStore)
  {
    var texts := [path, "oid", digits(obj)];
    StoredEntries(Indexed(Blobs(texts)));
    StoredEntries([Pair("0", Leaf(path)), Pair("o", obj)]);
  }

  /** Where an object is inserted by id, the stored tree is another than the one the id stands for. */
  lemma {:induction false} StoredElsewhere(t: Term, digits: Obj -> string)
    requires FitsThroughout(t) && HasInsert(t)
    ensures Encode(t, ForHash(digits)) != Encode(t, ForStore)
    decreases t
  {
    hide Fits, Params, InsertParams;
    var form := ForHash(digits);
    if InsertsObject(t.tag, t.data) {
      InsertTells(t.data.path, t.data.content.obj, digits);
      IsInsertParams(t.data, EncodeAll(t.kids, |t.kids|, form), form);
      IsInsertParams(t.data, EncodeAll(t.kids, |t.kids|, ForStore), ForStore);
    } else {
      var a, b := EncodeAll(t.kids, |t.kids|, form), EncodeAll(t.kids, |t.kids|, ForStore);
      var i :| 0 <= i < |t.kids| && HasInsert(t.kids[i]);
      StoredElsewhere(t.kids[i], digits);
      forall o | o in a && o !in b ensures o.Node? {
        var j :| 0 <= j < |a| && a[j] == o;
        if !HasInsert(t.kids[j]) {
          StoredUnderId(t.kids[j], form);
        }
      }
      if Encode(t, form) == Encode(t, ForStore) {
        assert Encode(t, form).kids[0] == Encode(t, ForStore).kids[0];
        ParamsTell(t.tag, t.data, a, b, form);
      }
    }
  }

  lemma IsInsertParams(data: Data, os: seq<Obj>, form: Form)
    requires Fits(Insert, data, |os|)
    ensures Params(Insert, data, os, form) == InsertParams(data.path, data.content, form)
  {
    hide InsertParams;
  }

  // ------------------------------------------------------------------ staging

  /** Everything a tree of `s` refers to is in `s`. */
  ghost predicate Closed(s: set<Obj>) {
    forall o, x :: o in s && o.Node? && x in o.kids ==> x in s
  }

  /** The objects of a tree, down to the `given` ones. */
  function Down(o: Obj, given: set<Obj>): set<Obj>
    decreases o, 0
  {
    if o in given then {} else if o.Leaf? then {o} else {o} + DownAll(o.kids, |o.kids|, given)
  }

  function DownAll(os: seq<Obj>, n: nat, given: set<Obj>): set<Obj>
    requires n <= |os|
    decreases os, n
  {
    if n == 0 then {} else DownAll(os, n - 1, given) + Down(os[n - 1], given)
  }

  lemma {:induction false} DownCloses(o: Obj, given: set<Obj>)
    ensures o in given || o in Down(o, given)
    ensures forall p, x :: p in Down(o, given) && p.Node? && x in p.kids ==> x in given || x in Down(o, given)
    decreases o, 0
  {
    if o !in given && o.Node? {
      DownAllCloses(o.kids, |o.kids|, given);
    }
  }

  lemma {:induction false} DownAllCloses(os: seq<Obj>, n: nat, given: set<Obj>)
    requires n <= |os|
    ensures forall i :: 0 <= i < n ==> os[i] in given || os[i] in DownAll(os, n, given)
    ensures forall p, x :: p in DownAll(os, n, given) && p.Node? && x in p.kids ==>
      x in given || x in DownAll(os, n, given)
    decreases os, n
  {
    if n == 0 {
    } else {
      DownAllCloses(os, n - 1, given);
      DownCloses(os[n - 1], given);
    }
  }

  /** What can be reached from an object. */
  function Reach(o: Obj): set<Obj> {
    Down(o, {})
  }

  lemma {:induction false} ClosedReaches(s: set<Obj>, o: Obj)
    requires Closed(s) && o in s
    ensures Reach(o) <= s
    decreases o, 0
  {
    if o.Node? {
      ClosedReachesAll(s, o.kids, |o.kids|);
    }
  }

  lemma {:induction false} ClosedReachesAll(s: set<Obj>, os: seq<Obj>, n: nat)
    requires Closed(s) && n <= |os| && forall x :: x in os ==> x in s
    ensures DownAll(os, n, {}) <= s
    decreases os, n
  {
    if n == 0 {
    } else {
      ClosedReachesAll(s, os, n - 1);
      ClosedReaches(s, os[n - 1]);
    }
  }

  /** Staging a tree on top of what is there keeps the store closed. */
  lemma StagedIsClosed(s: set<Obj>, o: Obj, given: set<Obj>)
    requires given <= s
    ensures o in s + Down(o, given) && (Closed(s) ==> Closed(s + Down(o, given)))
  {
    DownCloses(o, given);
  }

  // ------------------------------------------------------------------ the builder

  /** Every operation carries what it must; a sentinel stands for the operation that does nothing. */
  ghost predicate NodesFit(nodes: seq<Interned>) {
    && Grounded(nodes)
    && (forall i :: 0 <= i < |nodes| ==> Fits(nodes[i].op.tag, nodes[i].op.data, |nodes[i].op.kids|))
    && (forall i :: 0 <= i < |nodes| && nodes[i].seed.Some? ==> nodes[i].op == NodeOp(Nop, Nothing, []))
  }

  lemma {:induction false} UnfoldFits(nodes: seq<Interned>, f: nat)
    requires NodesFit(nodes) && f < |nodes|
    ensures FitsThroughout(Unfold(nodes, f))
    decreases f
  {
    hide Fits;
    if nodes[f].seed.None? {
      var kids := nodes[f].op.kids;
      UnfoldAllIs(nodes, kids, |kids|, f);
      forall i | 0 <= i < |kids| ensures FitsThroughout(Unfold(nodes, kids[i])) {
        assert kids[i] in kids;
        UnfoldFits(nodes, kids[i]);
      }
    }
  }

  /** The object a node is stored as, or has as its id. */
  function NodeObject(nodes: seq<Interned>, f: nat, form: Form): Obj
    requires NodesFit(nodes) && f < |nodes|
  {
    UnfoldFits(nodes, f);
    Encode(Unfold(nodes, f), form)
  }

  /** A node's object is built from those of its kids. */
  lemma NodeObjectIs(nodes: seq<Interned>, f: nat, form: Form, os: seq<Obj>)
    requires NodesFit(nodes) && f < |nodes| && nodes[f].seed.None? && |os| == |nodes[f].op.kids|
    requires forall i :: 0 <= i < |os| ==>
      nodes[f].op.kids[i] in nodes[f].op.kids && os[i] == NodeObject(nodes, nodes[f].op.kids[i], form)
    ensures NodeObject(nodes, f, form) == Build(nodes[f].op.tag, nodes[f].op.data, os, form)
  {
    hide Fits, Params;
    var kids := nodes[f].op.kids;
    UnfoldFits(nodes, f);
    UnfoldAllIs(nodes, kids, |kids|, f);
    assert EncodeAll(Unfold(nodes, f).kids, |kids|, form) == os;
  }

  lemma {:induction false} InsertedAllIs(ts: seq<Term>, n: nat, s: set<Obj>)
    requires n <= |ts|
    ensures InsertedAll(ts, n) <= s <==> forall i :: 0 <= i < n ==> Inserted(ts[i]) <= s
  {
    hide Inserted;
    if n == 0 {
    } else {
      InsertedAllIs(ts, n - 1, s);
    }
  }

  /** What a node inserts is what its operation and its kids insert. */
  lemma NodeInserts(nodes: seq<Interned>, f: nat, s: set<Obj>)
    requires NodesFit(nodes) && f < |nodes|
    ensures var op := nodes[f].op;
            && (forall i :: 0 <= i < |op.kids| ==> op.kids[i] in op.kids)
            && (HasInsert(Unfold(nodes, f)) <==>
              InsertsObject(op.tag, op.data) || exists i :: 0 <= i < |op.kids| && HasInsert(Unfold(nodes, op.kids[i])))
            && (Inserted(Unfold(nodes, f)) <= s <==>
              && (InsertsObject(op.tag, op.data) ==> op.data.content.obj in s)
              && forall i :: 0 <= i < |op.kids| ==> Inserted(Unfold(nodes, op.kids[i])) <= s)
  {
    hide Fits, UnfoldAll;
    var kids := nodes[f].op.kids;
    UnfoldAllIs(nodes, kids, |kids|, f);
    if nodes[f].seed.None? {
      InsertedAllIs(Unfold(nodes, f).kids, |kids|, s);
    }
  }

  lemma NodeSentinels(nodes: seq<Interned>, f: nat)
    requires NodesFit(nodes) && f < |nodes|
    ensures NoSentinel(Unfold(nodes, f)) ==>
      nodes[f].seed.None? && forall k :: k in nodes[f].op.kids ==> NoSentinel(Unfold(nodes, k))
  {
    hide Fits, UnfoldAll;
    var kids := nodes[f].op.kids;
    UnfoldAllIs(nodes, kids, |kids|, f);
    if NoSentinel(Unfold(nodes, f)) {
      forall k | k in kids ensures NoSentinel(Unfold(nodes, k)) {
        var i :| 0 <= i < |kids| && kids[i] == k;
        assert Unfold(nodes, f).kids[i] == Unfold(nodes, k);
      }
    }
  }

  function Pick(ids: map<nat, Obj>, kids: seq<nat>): (os: seq<Obj>)
    requires forall k :: k in kids ==> k in ids
    ensures |os| == |kids| && forall i :: 0 <= i < |kids| ==> kids[i] in ids && os[i] == ids[kids[i]]
  {
    seq(|kids|, i requires 0 <= i < |kids| => assert kids[i] in kids; ids[kids[i]])
  }

  /** The stored object differs from the id exactly where an object is inserted by id. */
  lemma IdTells(nodes: seq<Interned>, f: nat, digits: Obj -> string)
    requires NodesFit(nodes) && f < |nodes|
    ensures NodeObject(nodes, f, ForStore) != NodeObject(nodes, f, ForHash(digits)) <==> HasInsert(Unfold(nodes, f))
  {
    hide Encode, HasInsert, Unfold;
    UnfoldFits(nodes, f);
    if HasInsert(Unfold(nodes, f)) {
      StoredElsewhere(Unfold(nodes, f), digits);
    } else {
      StoredUnderId(Unfold(nodes, f), ForHash(digits));
    }
  }

  /** The tree that an operation has on what its filters are stored as. */
  function OwnTree(nodes: seq<Interned>, f: nat): Obj
    requires NodesFit(nodes) && f < |nodes|
  {
    Build(nodes[f].op.tag, nodes[f].op.data, KidObjects(nodes, f), ForStore)
  }

  function KidObjects(nodes: seq<Interned>, f: nat): (os: seq<Obj>)
    requires NodesFit(nodes) && f < |nodes|
    ensures |os| == |nodes[f].op.kids|
    ensures forall i :: 0 <= i < |os| ==>
      nodes[f].op.kids[i] in nodes[f].op.kids && os[i] == NodeObject(nodes, nodes[f].op.kids[i], ForStore)
  {
    var kids := nodes[f].op.kids;
    seq(|kids|, i requires 0 <= i < |kids| => assert kids[i] in kids; NodeObject(nodes, kids[i], ForStore))
  }

  /** All of `os` belong to the trees of filters up to `f`. */
  ghost predicate OnlyTrees(nodes: seq<Interned>, os: set<Obj>, f: nat)
    requires NodesFit(nodes)
  {
    forall o :: o in os ==> exists g :: 0 <= g <= f && g < |nodes| && o in Reach(OwnTree(nodes, g))
  }

  lemma OnlyTreesMore(nodes: seq<Interned>, a: set<Obj>, k: nat, b: set<Obj>, f: nat)
    requires NodesFit(nodes) && OnlyTrees(nodes, a, k) && OnlyTrees(nodes, b, f) && k <= f
    ensures OnlyTrees(nodes, a + b, f)
  {
    hide NodesFit, Reach, OwnTree;
  }

  lemma OnlyTreesFewer(nodes: seq<Interned>, a: set<Obj>, b: set<Obj>, f: nat)
    requires NodesFit(nodes) && OnlyTrees(nodes, a, f) && b <= a
    ensures OnlyTrees(nodes, b, f)
  {
    hide NodesFit, Reach, OwnTree;
  }

  lemma OwnTreeOnly(nodes: seq<Interned>, os: set<Obj>, f: nat)
    requires NodesFit(nodes) && f < |nodes| && os <= Reach(OwnTree(nodes, f))
    ensures OnlyTrees(nodes, os, f)
  {
    hide NodesFit, Reach, OwnTree;
  }

  lemma {:induction false} DownReaches(o: Obj, given: set<Obj>)
    ensures Down(o, given) <= Reach(o)
    decreases o, 0
  {
    if o !in given && o.Node? {
      DownAllReaches(o.kids, |o.kids|, given);
    }
  }

  lemma {:induction false} DownAllReaches(os: seq<Obj>, n: nat, given: set<Obj>)
    requires n <= |os|
    ensures DownAll(os, n, given) <= DownAll(os, n, {})
    decreases os, n
  {
    if n == 0 {
    } else {
      DownAllReaches(os, n - 1, given);
      DownReaches(os[n - 1], given);
    }
  }

  class Builder {
    const nodes: seq<Interned>
    /** The store, which also says which inserted objects there are. */
    const out: set<Obj>
    const digits: Obj -> string
    var staging: set<Obj>
    var ids: map<nat, Obj>

    constructor (nodes: seq<Interned>, out: set<Obj>, digits: Obj -> string)
      requires NodesFit(nodes)
      ensures this.nodes == nodes && this.out == out && this.digits == digits
      ensures Valid() && staging == {Leaf("")}
    {
      this.nodes, this.out, this.digits := nodes, out, digits;
      staging, ids := {Leaf("")}, map[];
    }

    /** What has been built is what is to be stored, its insertions are there, and so is it. */
    ghost predicate Valid()
      reads this
    {
      && NodesFit(nodes)
      && forall f :: f in ids ==>
        && f < |nodes|
        && ids[f] == NodeObject(nodes, f, ForStore)
        && Inserted(Unfold(nodes, f)) <= out
        && (NoSentinel(Unfold(nodes, f)) ==> ids[f] in out + staging)
    }

    /** Stage the trees of one operation on top of those of its kids. */
    method BuildOp(op: NodeOp) returns (r: Result<Obj>)
      requires Fits(op.tag, op.data, |op.kids|) && forall k :: k in op.kids ==> k in ids
      modifies this`staging
      ensures old(staging) <= staging
      ensures r.Ok? <==> (InsertsObject(op.tag, op.data) ==> op.data.content.obj in out)
      ensures r.Ok? ==> r.value == Build(op.tag, op.data, Pick(ids, op.kids), ForStore)
      ensures r.Err? ==> staging == old(staging)
      ensures r.Ok? ==> staging <= old(staging) + Reach(r.value)
      ensures r.Ok? && (forall k :: k in op.kids ==> ids[k] in out + old(staging)) ==>
                r.value in out + staging && (Closed(out + old(staging)) ==> Closed(out + staging))
    {
      hide Fits, Params;
      var os := Pick(ids, op.kids);
      var given := ToSet(os);
      if InsertsObject(op.tag, op.data) {
        if op.data.content.obj !in out {
          return Err;
        }
        given := given + {op.data.content.obj};
      }
      var o := Build(op.tag, op.data, os, ForStore);
      DownReaches(o, given);
      staging := staging + Down(o, given);
      r := Ok(o);
      ghost var there := out + old(staging);
      if forall k :: k in op.kids ==> ids[k] in there {
        forall x | x in os ensures x in there {
          var i :| 0 <= i < |os| && os[i] == x;
          assert op.kids[i] in op.kids;
        }
        StagedIsClosed(there, o, given);
        assert out + staging == there + Down(o, given);
      }
    }

    /** Give a node its object, once its kids have theirs. */
    method Settle(f: nat, dirty: bool) returns (r: Result<Obj>)
      requires Valid() && f < |nodes| && forall k :: k in nodes[f].op.kids ==> k in ids
      requires dirty <==> HasInsert(Unfold(nodes, f))
      modifies this
      ensures Valid() && old(staging) <= staging && old(ids.Keys) <= ids.Keys
      ensures r.Ok? <==> Inserted(Unfold(nodes, f)) <= out
      ensures r.Ok? ==> f in ids && r.value == ids[f]
      ensures NoSentinel(Unfold(nodes, f)) && Closed(out + old(staging)) ==> Closed(out + staging)
      ensures OnlyTrees(nodes, staging - old(staging), f)
    {
      hide Fits, Encode, Unfold, HasInsert, Inserted, NoSentinel, Closed, NodeObject, OnlyTrees, Reach;
      var op, id := nodes[f].op, NodeObject(nodes, f, ForHash(digits));
      NodeInserts(nodes, f, out);
      NodeSentinels(nodes, f);
      IdTells(nodes, f, digits);
      r := Ok(id);
      OwnTreeOnly(nodes, {}, f);
      assert staging - old(staging) == {};
      if dirty || id !in out {
        var built := BuildOp(op);
        if built.Err? {
          return Err;
        }
        assert Pick(ids, op.kids) == KidObjects(nodes, f);
        OwnTreeOnly(nodes, staging - old(staging), f);
        if nodes[f].seed.None? {
          NodeObjectIs(nodes, f, ForStore, Pick(ids, op.kids));
          assert NoSentinel(Unfold(nodes, f)) ==> forall k :: k in op.kids ==> ids[k] in out + old(staging);
        }
        if dirty {
          r := built;
        }
      }
      ids := ids[f := r.value];
    }

    /** Build what is missing of a filter, kids first; its id where nothing is inserted by id, and the
        tree it then gets otherwise. */
    method BuildPersist(f: nat) returns (r: Result<Obj>)
      requires Valid() && f < |nodes|
      modifies this
      ensures Valid() && old(staging) <= staging && old(ids.Keys) <= ids.Keys
      ensures r.Ok? <==> Inserted(Unfold(nodes, f)) <= out
      ensures r.Ok? ==> f in ids && r.value == ids[f]
      ensures NoSentinel(Unfold(nodes, f)) && Closed(out + old(staging)) ==> Closed(out + staging)
      ensures OnlyTrees(nodes, staging - old(staging), f)
      decreases f
    {
      hide Fits, Encode, Unfold, HasInsert, Inserted, NoSentinel, Closed, OnlyTrees;
      if f in ids {
        OwnTreeOnly(nodes, {}, f);
        assert staging - old(staging) == {};
        return Ok(ids[f]);
      }
      var op := nodes[f].op;
      NodeInserts(nodes, f, out);
      NodeSentinels(nodes, f);
      OwnTreeOnly(nodes, {}, f);
      assert staging - old(staging) == {};
      var dirty := InsertsObject(op.tag, op.data);
      for i := 0 to |op.kids|
        invariant Valid() && old(staging) <= staging && old(ids.Keys) <= ids.Keys
        invariant forall j :: 0 <= j < i ==> op.kids[j] in ids
        invariant dirty <==>
          InsertsObject(op.tag, op.data) || exists j :: 0 <= j < i && HasInsert(Unfold(nodes, op.kids[j]))
        invariant NoSentinel(Unfold(nodes, f)) && Closed(out + old(staging)) ==> Closed(out + staging)
        invariant OnlyTrees(nodes, staging - old(staging), f)
      {
        var k := op.kids[i];
        ghost var before := staging;
        var kid := BuildPersist(k);
        OnlyTreesMore(nodes, staging - before, k, before - old(staging), f);
        OnlyTreesFewer(nodes, (staging - before) + (before - old(staging)), staging - old(staging), f);
        if kid.Err? {
          return Err;
        }
        IdTells(nodes, k, digits);
        dirty := dirty || kid.value != NodeObject(nodes, k, ForHash(digits));
      }
      ghost var before := staging;
      r := Settle(f, dirty);
      OnlyTreesMore(nodes, staging - before, f, before - old(staging), f);
      OnlyTreesFewer(nodes, (staging - before) + (before - old(staging)), staging - old(staging), f);
    }

    /** Write what is staged and missing, in any order. */
    method Flush() returns (sink: set<Obj>)
      modifies this`staging
      ensures sink == out + old(staging) && staging == {}
    {
      sink := out;
      while staging != {}
        invariant out <= sink <= out + old(staging) && sink + staging == out + old(staging)
        decreases staging
      {
        var o :| o in staging;
        staging := staging - {o};
        if o !in sink {
          sink := sink + {o};
        }
      }
    }
  }

  /** Store a filter. It fails exactly when an inserted object is missing; otherwise the result is the
      tree the filter is read back from, it differs from the filter's id exactly when something is
      inserted by id, nothing is lost, and everything it refers to is there. */
  method AsTree(nodes: seq<Interned>, out: set<Obj>, digits: Obj -> string, f: nat)
    returns (r: Result<Obj>, sink: set<Obj>)
    requires NodesFit(nodes) && f < |nodes|
    ensures r.Ok? <==> Inserted(Unfold(nodes, f)) <= out
    ensures r.Ok? ==> r.value == NodeObject(nodes, f, ForStore)
    ensures r.Ok? ==> (r.value != NodeObject(nodes, f, ForHash(digits)) <==> HasInsert(Unfold(nodes, f)))
    ensures out <= sink && (r.Err? ==> sink == out)
    ensures OnlyTrees(nodes, sink - out - {Leaf("")}, f)
    ensures r.Ok? && NoSentinel(Unfold(nodes, f)) && Closed(out) ==> Closed(sink) && Reach(r.value) <= sink
  {
    hide Encode, Unfold, HasInsert, Inserted, NoSentinel, Reach, NodeObject, Fits, OnlyTrees;
    OwnTreeOnly(nodes, {}, f);
    assert out - out - {Leaf("")} == {};
    var builder := new Builder(nodes, out, digits);
    ghost var start := builder.staging;
    r := builder.BuildPersist(f);
    if r.Err? {
      sink := out;
      return;
    }
    IdTells(nodes, f, digits);
    OnlyTreesFewer(nodes, builder.staging - start, out + builder.staging - out - {Leaf("")}, f);
    sink := builder.Flush();
    assert Closed(out) ==> Closed(out + start);
    if NoSentinel(Unfold(nodes, f)) && Closed(out) {
      ClosedReaches(sink, r.value);
    }
  }
}
