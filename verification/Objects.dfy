/** Git objects as values.

    Git names an object by the hash of its content.  Hashing is taken to be injective, so an
    object id is modelled by the content it stands for: a commit id *is* a tree, a list of
    parent ids and the remaining headers.  A cycle of commits would be a hash that contains
    itself, and the inductive type rules it out in the same way.  Whether an object can be
    read is a separate matter: an object database is the set of ids it holds. */
module Objects {

  /** An entry of a tree: a file, a submodule link or a nested tree. */
  datatype Entry =
    | Blob(data: string)
    | Gitlink(commit: string)
    | Dir(entries: map<string, Entry>)

  type Tree = e: Entry | e.Dir? witness Dir(map[])

  const EMPTY_TREE: Tree := Dir(map[])

  /** `Zero` is the all-zero id, which names nothing. `Foreign` is any object that is not a
      commit: a blob, a tree or an annotated tag. */
  datatype Oid =
    | Zero
    | Commit(tree: Tree, parents: seq<Oid>, meta: string)
    | Foreign(name: string)

  datatype Result<+T> = Ok(value: T) | Err

  datatype Option<+T> = None | Some(value: T)

  type Odb = set<Oid>

  /** What a read of the parent headers needs: the object is there and is a commit. */
  predicate Readable(odb: Odb, c: Oid) {
    c in odb && c.Commit?
  }

  /** The length of the longest parent chain from `c`, counted in commits. */
  function Depth(c: Oid): nat {
    if c.Commit? then 1 + MaxDepth(c.parents) else 1
  }

  function MaxDepth(cs: seq<Oid>): (d: nat)
    ensures forall c :: c in cs ==> Depth(c) <= d
  {
    if cs == [] then 0
    else
      var rest := MaxDepth(cs[1..]);
      assert forall c :: c in cs ==> c == cs[0] || c in cs[1..];
      if Depth(cs[0]) > rest then Depth(cs[0]) else rest
  }

  lemma {:induction false} MaxDepthBound(cs: seq<Oid>, bound: nat)
    requires forall c :: c in cs ==> Depth(c) <= bound
    ensures MaxDepth(cs) <= bound
  {
    if cs == [] {
    } else {
      MaxDepthBound(cs[1..], bound);
    }
  }

  lemma NotOwnParent(c: Oid)
    requires c.Commit?
    ensures c !in c.parents
  {
    assert forall p :: p in c.parents ==> Depth(p) <= MaxDepth(c.parents);
  }

  /** `c` is `tip` or one of its ancestors. */
  ghost predicate Below(tip: Oid, c: Oid) {
    c == tip || (tip.Commit? && exists p :: p in tip.parents && Below(p, c))
  }

  lemma BelowSelf(c: Oid)
    ensures Below(c, c)
  {
  }

  lemma {:induction false} BelowTransitive(a: Oid, b: Oid, c: Oid)
    requires Below(a, b) && Below(b, c)
    ensures Below(a, c)
  {
    if a == b {
    } else {
      var p :| p in a.parents && Below(p, b);
      BelowTransitive(p, b, c);
    }
  }

  /** Ancestors are strictly shallower, so no two commits are ancestors of each other. */
  lemma {:induction false} BelowShallower(tip: Oid, c: Oid)
    requires Below(tip, c)
    ensures c == tip || Depth(c) < Depth(tip)
  {
    if c == tip {
    } else {
      var p :| p in tip.parents && Below(p, c);
      BelowShallower(p, c);
    }
  }

  /** The finite set of commits that `Below` describes. */
  function History(tip: Oid): set<Oid> {
    {tip} + (if tip.Commit? then Histories(tip.parents) else {})
  }

  function Histories(cs: seq<Oid>): set<Oid> {
    if cs == [] then {} else History(cs[0]) + Histories(cs[1..])
  }

  lemma {:induction false} HistoryIsBelow(tip: Oid, c: Oid)
    ensures c in History(tip) <==> Below(tip, c)
  {
    if tip.Commit? {
      HistoriesAreBelow(tip.parents, c);
    }
  }

  lemma {:induction false} HistoriesAreBelow(cs: seq<Oid>, c: Oid)
    ensures c in Histories(cs) <==> exists p :: p in cs && Below(p, c)
  {
    if cs == [] {
    } else {
      HistoryIsBelow(cs[0], c);
      HistoriesAreBelow(cs[1..], c);
    }
  }

  function Last<T>(s: seq<T>): T
    requires s != []
  {
    s[|s| - 1]
  }

  function Init<T>(s: seq<T>): seq<T>
    requires s != []
  {
    s[..|s| - 1]
  }

  function Reverse<T>(s: seq<T>): (r: seq<T>)
    ensures |r| == |s|
    ensures forall i :: 0 <= i < |s| ==> r[i] == s[|s| - 1 - i]
  {
    if s == [] then [] else Reverse(s[1..]) + [s[0]]
  }

  function ToSet<T>(s: seq<T>): set<T> {
    set x | x in s
  }

  lemma {:induction false} ToSetSize<T>(s: seq<T>)
    ensures |ToSet(s)| <= |s|
  {
    if s == [] {
      assert ToSet(s) == {};
    } else {
      ToSetSize(s[1..]);
      assert ToSet(s) == {s[0]} + ToSet(s[1..]);
    }
  }

  predicate Distinct<T(==)>(s: seq<T>) {
    forall i, j :: 0 <= i < j < |s| ==> s[i] != s[j]
  }

  lemma HasMember<T>(s: seq<T>)
    ensures s == [] || exists x :: x in s
  {
    assert s != [] ==> s[0] in s;
  }

  lemma DistinctConcat<T>(a: seq<T>, b: seq<T>)
    requires Distinct(a) && Distinct(b)
    requires forall x :: x in a ==> x !in b
    ensures Distinct(a + b)
  {
    var ab := a + b;
    forall i, j | 0 <= i < j < |ab| ensures ab[i] != ab[j] {
      if i < |a| <= j {
        assert ab[i] in a && ab[j] in b;
      }
    }
  }

  lemma DistinctPrefix<T>(a: seq<T>, b: seq<T>)
    requires a <= b && Distinct(b)
    ensures Distinct(a)
  {
  }

  lemma ReverseSame<T>(s: seq<T>)
    ensures forall x :: x in s <==> x in Reverse(s)
    ensures Distinct(s) ==> Distinct(Reverse(s))
  {
    forall x ensures x in s <==> x in Reverse(s) {
      if x in s {
        var i :| 0 <= i < |s| && s[i] == x;
        assert Reverse(s)[|s| - 1 - i] == x;
      }
    }
  }
}
