/** The node table both walkers build as they go: a vector of per-commit state, found through
    a map from commit id to index, with parents stored as indices once a commit is parsed. */
module NodeTables {
  import opened Objects

  /** Per-commit state; `parents` are node indices, filled in on first visit. */
  datatype Node<F> = Node(oid: Oid, parents: seq<nat>, parsed: bool, flags: F)

  /** The node indices `ids` stand for the commits `cs`. */
  ghost predicate Denotes<F>(ids: seq<nat>, cs: seq<Oid>, nodes: seq<Node<F>>) {
    && |ids| == |cs|
    && forall i :: 0 <= i < |ids| ==> ids[i] < |nodes| && nodes[ids[i]].oid == cs[i]
  }

  /** The lookup table and the node vector describe the same commits, and recorded parents
      are the parents of a readable commit. */
  ghost predicate Consistent<F>(nodes: seq<Node<F>>, byOid: map<Oid, nat>, odb: Odb) {
    && (forall o :: o in byOid ==> byOid[o] < |nodes| && nodes[byOid[o]].oid == o)
    && (forall i :: 0 <= i < |nodes| ==> nodes[i].oid in byOid && byOid[nodes[i].oid] == i)
    && (forall i :: 0 <= i < |nodes| && nodes[i].parsed ==>
          Readable(odb, nodes[i].oid) && Denotes(nodes[i].parents, nodes[i].oid.parents, nodes))
  }

  /** Node indices keep their meaning. */
  ghost predicate SameOids<F>(before: seq<Node<F>>, after: seq<Node<F>>) {
    |before| <= |after| && forall i :: 0 <= i < |before| ==> after[i].oid == before[i].oid
  }

  lemma ConsistentAdd<F>(nodes: seq<Node<F>>, byOid: map<Oid, nat>, odb: Odb, oid: Oid, flags: F)
    requires Consistent(nodes, byOid, odb) && oid !in byOid
    ensures Consistent(nodes + [Node(oid, [], false, flags)], byOid[oid := |nodes|], odb)
  {
  }

  lemma ConsistentParse<F>(nodes: seq<Node<F>>, byOid: map<Oid, nat>, odb: Odb, commit: nat, ids: seq<nat>)
    requires Consistent(nodes, byOid, odb) && commit < |nodes| && Readable(odb, nodes[commit].oid)
    requires Denotes(ids, nodes[commit].oid.parents, nodes)
    ensures Consistent(nodes[commit := nodes[commit].(parents := ids, parsed := true)], byOid, odb)
  {
  }

  lemma ParsedDenotes<F>(nodes: seq<Node<F>>, byOid: map<Oid, nat>, odb: Odb, i: nat)
    requires Consistent(nodes, byOid, odb) && i < |nodes| && nodes[i].parsed
    ensures Readable(odb, nodes[i].oid) && Denotes(nodes[i].parents, nodes[i].oid.parents, nodes)
  {
  }

  lemma OtherNodes<F>(nodes: seq<Node<F>>, byOid: map<Oid, nat>, odb: Odb, p: nat)
    requires Consistent(nodes, byOid, odb) && p < |nodes|
    ensures forall i :: 0 <= i < |nodes| && i != p ==> nodes[i].oid != nodes[p].oid
  {
    forall i | 0 <= i < |nodes| && i != p ensures nodes[i].oid != nodes[p].oid {
      assert byOid[nodes[i].oid] == i && byOid[nodes[p].oid] == p;
    }
  }

  /** Changing the flags of one node. */
  function WithFlags<F>(nodes: seq<Node<F>>, i: nat, flags: F): seq<Node<F>>
    requires i < |nodes|
  {
    nodes[i := nodes[i].(flags := flags)]
  }

  lemma ConsistentFlags<F>(nodes: seq<Node<F>>, byOid: map<Oid, nat>, odb: Odb, i: nat, flags: F)
    requires Consistent(nodes, byOid, odb) && i < |nodes|
    ensures Consistent(WithFlags(nodes, i, flags), byOid, odb)
  {
  }

  /** `after` only adds nodes with flags `blank` and parse results to `before`. */
  ghost predicate Grown<F>(before: seq<Node<F>>, after: seq<Node<F>>, blank: F) {
    && SameOids(before, after)
    && (forall i :: 0 <= i < |before| ==> after[i].flags == before[i].flags)
    && (forall i :: |before| <= i < |after| ==> after[i].flags == blank)
  }
}
