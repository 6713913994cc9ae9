/** The table of filters: one node per operation, so that equal filters are the same node. */
module Interning {
  import opened Objects
  import opened FilterTerms
  import opened Persist
  import opened PersistRoundTrip

  /** An operation on nodes. */
  datatype NodeOp = NodeOp(tag: Tag, data: Data, kids: seq<nat>)

  /** A node; a sentinel comes with an id of its own. */
  datatype Interned = Interned(op: NodeOp, seed: Option<Obj>)

  /** Nodes are built on earlier nodes. */
  ghost predicate Grounded(nodes: seq<Interned>) {
    forall i, k :: 0 <= i < |nodes| && k in nodes[i].op.kids ==> k < i
  }

  /** The table knows exactly the nodes that are no sentinels, each under its operation. */
  ghost predicate Consistent(nodes: seq<Interned>, table: map<NodeOp, nat>) {
    && Grounded(nodes)
    && (forall op :: op in table ==> table[op] < |nodes| && nodes[table[op]] == Interned(op, None))
    && (forall i :: 0 <= i < |nodes| && nodes[i].seed.None? ==> nodes[i].op in table && table[nodes[i].op] == i)
  }

  /** A node with everything it is built on. */
  function Unfold(nodes: seq<Interned>, f: nat): Term
    requires Grounded(nodes) && f < |nodes|
    decreases f, 1, 0
  {
    var node := nodes[f];
    if node.seed.Some? then Sentinel(f, node.seed.value)
    else Op(node.op.tag, node.op.data, UnfoldAll(nodes, node.op.kids, |node.op.kids|, f))
  }

  function UnfoldAll(nodes: seq<Interned>, fs: seq<nat>, n: nat, bound: nat): (ts: seq<Term>)
    requires Grounded(nodes) && n <= |fs| && bound <= |nodes| && forall f :: f in fs ==> f < bound
    ensures |ts| == n
    decreases bound, 0, n
  {
    if n == 0 then []
    else
      assert fs[n - 1] in fs;
      UnfoldAll(nodes, fs, n - 1, bound) + [Unfold(nodes, fs[n - 1])]
  }

  lemma {:induction false} UnfoldAllIs(nodes: seq<Interned>, fs: seq<nat>, n: nat, bound: nat)
    requires Grounded(nodes) && n <= |fs| && bound <= |nodes| && forall f :: f in fs ==> f < bound
    ensures forall i :: 0 <= i < n ==> fs[i] in fs && UnfoldAll(nodes, fs, n, bound)[i] == Unfold(nodes, fs[i])
  {
    hide Unfold;
    if n == 0 {
    } else {
      UnfoldAllIs(nodes, fs, n - 1, bound);
    }
  }

  /** New nodes do not change what old ones mean. */
  lemma {:induction false} UnfoldStable(a: seq<Interned>, b: seq<Interned>, f: nat)
    requires Grounded(a) && Grounded(b) && a <= b && f < |a|
    ensures Unfold(a, f) == Unfold(b, f)
    decreases f
  {
    var kids := a[f].op.kids;
    UnfoldAllIs(a, kids, |kids|, f);
    UnfoldAllIs(b, kids, |kids|, f);
    forall i | 0 <= i < |kids| ensures Unfold(a, kids[i]) == Unfold(b, kids[i]) {
      assert kids[i] in kids;
      UnfoldStable(a, b, kids[i]);
    }
    assert UnfoldAll(a, kids, |kids|, f) == UnfoldAll(b, kids, |kids|, f);
  }

  /** Filters are the same node exactly when they unfold to the same term; a sentinel is like no
      other filter. */
  lemma {:induction false} SameNode(nodes: seq<Interned>, table: map<NodeOp, nat>, f: nat, g: nat)
    requires Consistent(nodes, table) && f < |nodes| && g < |nodes|
    ensures Unfold(nodes, f) == Unfold(nodes, g) <==> f == g
    decreases f
  {
    if Unfold(nodes, f) == Unfold(nodes, g) && nodes[f].seed.None? {
      var a, b := nodes[f].op.kids, nodes[g].op.kids;
      UnfoldAllIs(nodes, a, |a|, f);
      UnfoldAllIs(nodes, b, |b|, g);
      forall i | 0 <= i < |a| ensures a[i] == b[i] {
        assert a[i] in a && b[i] in b;
        assert UnfoldAll(nodes, a, |a|, f)[i] == UnfoldAll(nodes, b, |b|, g)[i];
        SameNode(nodes, table, a[i], b[i]);
      }
      assert a == b;
      assert nodes[f].op == nodes[g].op;
    }
  }

  /** `o` is what the faithful filter `f` is stored as. */
  ghost predicate IsStored(nodes: seq<Interned>, f: nat, o: Obj)
    requires Grounded(nodes) && f < |nodes|
  {
    var t := Unfold(nodes, f);
    WellFormed(t) && Faithful(t) && FitsThroughout(t) && o == Encode(t, ForStore)
  }

  class InternTable {
    var nodes: seq<Interned>
    var table: map<NodeOp, nat>

    constructor ()
      ensures Consistent(nodes, table) && nodes == []
    {
      nodes, table := [], map[];
    }

    /** The node of an operation: the one there is, or a new one. */
    method ToFilter(op: NodeOp) returns (f: nat)
      requires Consistent(nodes, table) && forall k :: k in op.kids ==> k < |nodes|
      modifies this
      ensures Consistent(nodes, table) && old(nodes) <= nodes
      ensures f < |nodes| && nodes[f] == Interned(op, None)
      ensures op in old(table) ==> f == old(table)[op] && nodes == old(nodes) && table == old(table)
      ensures op !in old(table) ==> f == |old(nodes)| && nodes == old(nodes) + [Interned(op, None)]
    {
      if op in table {
        return table[op];
      }
      f := |nodes|;
      nodes := nodes + [Interned(op, None)];
      table := table[op := f];
    }

    /** A node of its own, whatever the id. */
    method NewSentinel(id: Obj) returns (f: nat)
      requires Consistent(nodes, table)
      modifies this`nodes
      ensures Consistent(nodes, table)
      ensures f == |old(nodes)| && nodes == old(nodes) + [Interned(NodeOp(Nop, Nothing, []), Some(id))]
    {
      f := |nodes|;
      nodes := nodes + [Interned(NodeOp(Nop, Nothing, []), Some(id))];
    }

    /** Intern a term from the inside out, as reading a stored filter does. */
    method Intern(t: Term) returns (f: nat)
      requires Consistent(nodes, table) && WellFormed(t)
      modifies this
      ensures Consistent(nodes, table) && old(nodes) <= nodes
      ensures f < |nodes| && Unfold(nodes, f) == t
      decreases t
    {
      hide Fits;
      var kids: seq<nat> := [];
      for i := 0 to |t.kids|
        invariant Consistent(nodes, table) && old(nodes) <= nodes
        invariant |kids| == i && forall j :: 0 <= j < i ==> kids[j] < |nodes| && Unfold(nodes, kids[j]) == t.kids[j]
      {
        ghost var before := nodes;
        var kid := Intern(t.kids[i]);
        forall j | 0 <= j < i ensures Unfold(nodes, kids[j]) == t.kids[j] {
          UnfoldStable(before, nodes, kids[j]);
        }
        kids := kids + [kid];
      }
      ghost var before := nodes;
      f := ToFilter(NodeOp(t.tag, t.data, kids));
      UnfoldAllIs(nodes, kids, |kids|, f);
      forall j | 0 <= j < |kids| ensures Unfold(nodes, kids[j]) == t.kids[j] {
        UnfoldStable(before, nodes, kids[j]);
      }
      assert UnfoldAll(nodes, kids, |kids|, f) == t.kids;
    }

    /** Read a stored filter. Stored from a faithful filter of the table, it is that very node. */
    method FromTree(o: Obj) returns (r: Result<nat>)
      requires Consistent(nodes, table)
      modifies this
      ensures Consistent(nodes, table) && old(nodes) <= nodes
      ensures r.Ok? <==> Decode(o).Ok?
      ensures r.Ok? ==> r.value < |nodes| && Unfold(nodes, r.value) == Decode(o).value
      ensures forall f :: 0 <= f < |old(nodes)| && IsStored(old(nodes), f, o) ==> r == Ok(f)
    {
      hide WellFormed, Faithful, Decode, Encode;
      ghost var before := nodes;
      var t := Decode(o);
      if t.Ok? {
        DecodedWellFormed(o);
        var f := Intern(t.value);
        r := Ok(f);
      } else {
        r := Err;
      }
      forall f | 0 <= f < |before| && IsStored(before, f, o) ensures r == Ok(f) {
        RoundTrip(Unfold(before, f));
        UnfoldStable(before, nodes, f);
        SameNode(nodes, table, f, r.value);
      }
    }
  }
}
