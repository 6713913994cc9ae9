/** What history simplification keeps, said by position: which parents survive, when a commit is
    dropped, and when it is elided in favour of a parent. */
module Simplifying {
  import opened Objects
  import opened Filtering

  // ------------------------------------------------------------------ roots and empty trees

  ghost predicate IsRoot(c: Oid) {
    !c.Commit? || c.parents == []
  }

  lemma {:induction false} RootsAreBelow(c: Oid, r: Oid)
    ensures r in Roots(c) <==> Below(c, r) && IsRoot(r)
    decreases c, 1
  {
    if c.Commit? && c.parents != [] {
      AllRootsAreBelow(c.parents, r);
    }
  }

  lemma {:induction false} AllRootsAreBelow(cs: seq<Oid>, r: Oid)
    ensures r in AllRoots(cs) <==> exists c :: c in cs && Below(c, r) && IsRoot(r)
    decreases cs, 0
  {
    if cs == [] {
    } else {
      RootsAreBelow(cs[0], r);
      AllRootsAreBelow(cs[1..], r);
    }
  }

  /** What a path leads to. */
  function At(t: Entry, path: seq<string>): Option<Entry> {
    if path == [] then Some(t)
    else if t.Dir? && path[0] in t.entries then At(t.entries[path[0]], path[1..])
    else None
  }

  lemma {:induction false} NoFileAt(t: Entry, path: seq<string>)
    requires IsEmptyRoot(t) && At(t, path).Some?
    ensures At(t, path).value.Dir?
    decreases |path|
  {
    if path == [] {
    } else {
      NoFileAt(t.entries[path[0]], path[1..]);
    }
  }

  ghost predicate NoFile(t: Entry) {
    forall path :: At(t, path).Some? ==> At(t, path).value.Dir?
  }

  lemma {:induction false} NoFileIsEmpty(t: Entry)
    requires NoFile(t)
    ensures IsEmptyRoot(t)
  {
    assert At(t, []) == Some(t);
    forall k | k in t.entries ensures IsEmptyRoot(t.entries[k]) {
      forall path | At(t.entries[k], path).Some? ensures At(t.entries[k], path).value.Dir? {
        assert ([k] + path)[1..] == path && At(t, [k] + path) == At(t.entries[k], path);
      }
      NoFileIsEmpty(t.entries[k]);
    }
  }

  /** A tree counts as empty if no path leads to a file. */
  lemma EmptyRootHasNoFile(t: Entry)
    ensures IsEmptyRoot(t) <==> NoFile(t)
  {
    if IsEmptyRoot(t) {
      forall path | At(t, path).Some? ensures At(t, path).value.Dir? {
        NoFileAt(t, path);
      }
    }
    if NoFile(t) {
      NoFileIsEmpty(t);
    }
  }

  // ------------------------------------------------------------------ which parents survive

  /** A parentless commit is below all of `cs` that are not zero. */
  ghost predicate HaveRoot(cs: seq<Oid>) {
    exists r :: IsRoot(r) && forall c :: c in cs && c != Zero ==> Below(c, r)
  }

  /** Among the filtered parents that there are, some have content and some do not, and no parentless
      commit is below all of them. */
  ghost predicate Divided(images: seq<Oid>) {
    && (exists c :: c in images && c != Zero && TreeOf(c) == EMPTY_TREE)
    && (exists c :: c in images && c != Zero && TreeOf(c) != EMPTY_TREE)
    && !HaveRoot(images)
  }

  /** The filtered parent at `i` is there and is not pruned from a merge of divided histories. */
  ghost predicate Survives(images: seq<Oid>, i: nat) {
    i < |images| && images[i] != Zero && (Divided(images) ==> TreeOf(images[i]) != EMPTY_TREE)
  }

  ghost predicate Increasing(idx: seq<nat>) {
    forall j, k :: 0 <= j < k < |idx| ==> idx[j] < idx[k]
  }

  /** `kept` are the elements of `images` at the places `idx`, in their order. */
  ghost predicate Picks(images: seq<Oid>, idx: seq<nat>, kept: seq<Oid>) {
    && |idx| == |kept| && Increasing(idx)
    && forall k :: 0 <= k < |idx| ==> idx[k] < |images| && kept[k] == images[idx[k]]
  }

  ghost function Shifted(idx: seq<nat>): (r: seq<nat>)
    ensures |r| == |idx| && forall k :: 0 <= k < |idx| ==> r[k] == idx[k] + 1
  {
    seq(|idx|, k requires 0 <= k < |idx| => idx[k] + 1)
  }

  /** The places `idx` of a tail, and the first place if it is to be kept. */
  ghost function Places(idx: seq<nat>, keep: bool): seq<nat> {
    (if keep then [0] else []) + Shifted(idx)
  }

  lemma PicksOneMore(images: seq<Oid>, idx: seq<nat>, kept: seq<Oid>, keep: bool)
    requires images != [] && Picks(images[1..], idx, kept)
    ensures Picks(images, Places(idx, keep), (if keep then [images[0]] else []) + kept)
    ensures forall i: nat :: i in Places(idx, keep) <==> (i == 0 && keep) || (i > 0 && i - 1 in idx)
  {
    var shifted := Shifted(idx);
    forall i: nat ensures i in shifted <==> i > 0 && i - 1 in idx {
      if i > 0 && i - 1 in idx {
        var k :| 0 <= k < |idx| && idx[k] == i - 1;
        assert shifted[k] == i;
      }
    }
  }

  lemma {:induction false} NonZeroPicks(cs: seq<Oid>) returns (idx: seq<nat>)
    ensures Picks(cs, idx, NonZero(cs)) && forall i: nat :: i in idx <==> i < |cs| && cs[i] != Zero
  {
    if cs == [] {
      idx := [];
    } else {
      var rest := NonZeroPicks(cs[1..]);
      PicksOneMore(cs, rest, NonZero(cs[1..]), cs[0] != Zero);
      idx := Places(rest, cs[0] != Zero);
    }
  }

  lemma {:induction false} WithContentPicks(cs: seq<Oid>) returns (idx: seq<nat>)
    ensures Picks(cs, idx, WithContent(cs)) && forall i: nat :: i in idx <==> i < |cs| && TreeOf(cs[i]) != EMPTY_TREE
  {
    if cs == [] {
      idx := [];
    } else {
      var rest := WithContentPicks(cs[1..]);
      PicksOneMore(cs, rest, WithContent(cs[1..]), TreeOf(cs[0]) != EMPTY_TREE);
      idx := Places(rest, TreeOf(cs[0]) != EMPTY_TREE);
    }
  }

  /** Picking from what was picked. */
  lemma PicksTwice(images: seq<Oid>, a: seq<nat>, some: seq<Oid>, b: seq<nat>, kept: seq<Oid>) returns (idx: seq<nat>)
    requires Picks(images, a, some) && Picks(some, b, kept)
    ensures Picks(images, idx, kept)
    ensures forall i: nat :: i in idx <==> exists k :: 0 <= k < |a| && k in b && a[k] == i
  {
    idx := seq(|b|, k requires 0 <= k < |b| => a[b[k]]);
    forall i: nat ensures i in idx <==> exists k :: 0 <= k < |a| && k in b && a[k] == i {
      if i in idx {
        var j :| 0 <= j < |idx| && idx[j] == i;
        assert b[j] in b && a[b[j]] == i;
      }
      if k :| 0 <= k < |a| && k in b && a[k] == i {
        var j :| 0 <= j < |b| && b[j] == k;
        assert idx[j] == i;
      }
    }
  }

  lemma ShareRootMeans(cs: seq<Oid>)
    requires cs != [] && Zero !in cs
    ensures ShareRoot(cs) <==> HaveRoot(cs)
  {
    hide Roots, Below;
    forall c, r ensures r in Roots(c) <==> Below(c, r) && IsRoot(r) {
      RootsAreBelow(c, r);
    }
    assert cs[0] in cs;
    if HaveRoot(cs) {
      var r :| IsRoot(r) && forall c :: c in cs && c != Zero ==> Below(c, r);
      assert r in Roots(cs[0]);
    }
    if ShareRoot(cs) {
      var r :| r in Roots(cs[0]) && forall c :: c in cs ==> r in Roots(c);
      assert forall c :: c in cs ==> Below(c, r);
    }
  }

  lemma SameRoots(cs: seq<Oid>, ds: seq<Oid>)
    requires forall c :: c in cs && c != Zero <==> c in ds && c != Zero
    ensures HaveRoot(cs) <==> HaveRoot(ds)
  {
    hide Below;
  }

  lemma MixedIsDivided(images: seq<Oid>)
    ensures MixedUnrelated(NonZero(images)) <==> Divided(images)
  {
    hide ShareRoot, Below, HaveRoot, NonZero;
    var cs := NonZero(images);
    if cs != [] {
      ShareRootMeans(cs);
    }
    assert HaveRoot(cs) <==> HaveRoot(images) by { SameRoots(cs, images); }
    if x, y :| x in cs && TreeOf(x) == EMPTY_TREE && y in cs && TreeOf(y) != EMPTY_TREE {
      var i :| 0 <= i < |cs| && cs[i] == x;
      var j :| 0 <= j < |cs| && cs[j] == y;
      assert |cs| > 1;
    }
  }

  /** Without the option for linear history the kept parents are exactly the survivors, in their order. */
  lemma KeptAre(images: seq<Oid>) returns (idx: seq<nat>)
    ensures Picks(images, idx, KeptParents(images, false)) && forall i: nat :: i in idx <==> Survives(images, i)
  {
    hide MixedUnrelated, Divided, NonZero, WithContent;
    MixedIsDivided(images);
    var present := NonZeroPicks(images);
    idx := present;
    if MixedUnrelated(NonZero(images)) {
      var full := WithContentPicks(NonZero(images));
      idx := PicksTwice(images, present, NonZero(images), full, WithContent(NonZero(images)));
      forall i: nat ensures i in idx <==> Survives(images, i) {
        if Survives(images, i) {
          var k :| 0 <= k < |present| && present[k] == i;
          assert k in full;
        }
      }
    }
  }

  /** `images[i]` is the first survivor. */
  ghost predicate FirstSurvivor(images: seq<Oid>, i: nat) {
    Survives(images, i) && forall j: nat :: j < i ==> !Survives(images, j)
  }

  /** With the option the first survivor is kept, and nothing else. */
  lemma LinearKept(images: seq<Oid>)
    ensures (forall i: nat :: !Survives(images, i)) ==> KeptParents(images, true) == []
    ensures forall i: nat :: FirstSurvivor(images, i) ==> KeptParents(images, true) == [images[i]]
    ensures (exists i: nat :: FirstSurvivor(images, i)) || forall i: nat :: !Survives(images, i)
  {
    hide MixedUnrelated, Survives, NonZero, WithContent;
    var idx := KeptAre(images);
    var all := KeptParents(images, false);
    assert KeptParents(images, true) == if |all| > 1 then all[..1] else all;
    if idx != [] {
      FirstIsLeast(images, idx);
    } else {
      HasMember(idx);
    }
  }

  lemma FirstIsLeast(images: seq<Oid>, idx: seq<nat>)
    requires idx != [] && Increasing(idx) && forall i: nat :: i in idx <==> Survives(images, i)
    ensures FirstSurvivor(images, idx[0])
    ensures forall i: nat :: FirstSurvivor(images, i) ==> i == idx[0]
  {
    hide Survives;
    assert idx[0] in idx;
    assert forall k :: 0 <= k < |idx| ==> idx[0] <= idx[k];
    assert forall j: nat :: j < idx[0] ==> j !in idx;
  }

  /** `kept` are the survivors among `images` in their order, or for linear history the first of them. */
  ghost predicate Survivors(images: seq<Oid>, linear: bool, kept: seq<Oid>) {
    if linear then exists i: nat :: FirstSurvivor(images, i) && kept == [images[i]]
    else exists idx :: Picks(images, idx, kept) && forall i: nat :: i in idx <==> Survives(images, i)
  }

  // ------------------------------------------------------------------ what becomes of a commit

  /** There is another survivor besides the one at `i`. */
  ghost predicate Another(images: seq<Oid>, i: nat) {
    exists j: nat :: Survives(images, j) && j != i
  }

  /** All survivors, or for linear history the one at `i`, have the tree `tree`. */
  ghost predicate SameTree(images: seq<Oid>, i: nat, linear: bool, tree: Tree)
    requires i < |images|
  {
    if linear then TreeOf(images[i]) == tree
    else forall j: nat :: Survives(images, j) ==> TreeOf(images[j]) == tree
  }

  /** Why a commit gives way to its first surviving filtered parent, at `i`: it is a merge that has become
      trivial, or it no longer changes anything although it did. */
  ghost predicate Elided(f: Filter, c: Oid, i: nat)
    requires c.Commit? && i < |c.parents|
  {
    var images, tree := Images(f, c.parents), f.apply(c.tree);
    || (!f.options.keepTrivialMerges && !f.options.linear && Another(images, i)
        && TreeOf(images[i]) == tree && TreeOf(c.parents[0]) != c.tree)
    || (SameTree(images, i, f.options.linear, tree) && exists p :: p in c.parents && TreeOf(p) != c.tree)
  }

  /** A commit whose parents leave nothing behind is a root, or nothing if it has no content and is
      not an empty root itself. */
  lemma RootOutcome(f: Filter, c: Oid)
    requires c.Commit? && forall i: nat :: !Survives(Images(f, c.parents), i)
    ensures var tree := f.apply(c.tree);
      Image(f, c) == if tree == EMPTY_TREE && !(c.parents == [] && NoFile(c.tree)) then Zero
                     else Commit(tree, [], c.meta)
  {
    hide Survives, KeptParents, NoFile, IsEmptyRoot;
    var images := Images(f, c.parents);
    EmptyRootHasNoFile(c.tree);
    LinearKept(images);
    var idx := KeptAre(images);
    HasMember(idx);
  }

  /** Any other commit gives way to its first surviving filtered parent exactly when it is elided, and
      otherwise is rewritten on top of the survivors. */
  lemma ImageOutcome(f: Filter, c: Oid, i: nat)
    requires c.Commit? && FirstSurvivor(Images(f, c.parents), i)
    ensures var images, r := Images(f, c.parents), Image(f, c);
      && (r == images[i] <==> Elided(f, c, i))
      && (!Elided(f, c, i) ==>
            && r.Commit? && r.tree == f.apply(c.tree) && r.meta == c.meta
            && Survivors(images, f.options.linear, r.parents))
  {
    hide Survives, KeptParents, IsEmptyRoot;
    var images, tree := Images(f, c.parents), f.apply(c.tree);
    var kept := KeptParents(images, f.options.linear);
    assert i < |images| by { SurvivorIsThere(images, i); }
    KeptFacts(images, i, f.options.linear, tree);
    ElidedMeans(f, c, i, kept);
    NotOwnParent(Commit(tree, kept, c.meta));
  }

  lemma SurvivorIsThere(images: seq<Oid>, i: nat)
    requires Survives(images, i)
    ensures i < |images|
  {
  }

  lemma KeptFacts(images: seq<Oid>, i: nat, linear: bool, tree: Tree)
    requires FirstSurvivor(images, i)
    ensures var kept := KeptParents(images, linear);
      && i < |images| && kept != [] && kept[0] == images[i] && Survivors(images, linear, kept)
      && (|kept| > 1 <==> !linear && Another(images, i))
      && (SameTree(images, i, linear, tree) <==> forall p :: p in kept ==> TreeOf(p) == tree)
  {
    hide Survives, KeptParents, TreeOf;
    SurvivorIsThere(images, i);
    if linear {
      LinearKept(images);
    } else {
      var idx := KeptAre(images);
      var kept := KeptParents(images, false);
      assert i in idx;
      FirstIsLeast(images, idx);
      if |kept| > 1 {
        assert idx[1] in idx && idx[1] != i;
      } else {
        assert forall j :: j in idx ==> j == idx[0];
      }
      forall p | p in kept ensures exists j: nat :: Survives(images, j) && j < |images| && images[j] == p {
        var k :| 0 <= k < |kept| && kept[k] == p;
        assert idx[k] in idx;
      }
      forall j: nat | Survives(images, j) ensures j < |images| && images[j] in kept {
        SurvivorIsThere(images, j);
        var k :| 0 <= k < |idx| && idx[k] == j;
        assert kept[k] == images[j];
      }
    }
  }

  lemma ElidedMeans(f: Filter, c: Oid, i: nat, kept: seq<Oid>)
    requires c.Commit? && i < |c.parents| && kept != [] && kept[0] == Images(f, c.parents)[i]
    requires |kept| > 1 <==> !f.options.linear && Another(Images(f, c.parents), i)
    requires SameTree(Images(f, c.parents), i, f.options.linear, f.apply(c.tree))
        <==> forall p :: p in kept ==> TreeOf(p) == f.apply(c.tree)
    ensures Elided(f, c, i) <==>
      || (!f.options.keepTrivialMerges && |kept| > 1 && TreeOf(kept[0]) == f.apply(c.tree) && !WasTrivialMerge(c))
      || ((forall p :: p in kept ==> TreeOf(p) == f.apply(c.tree)) && !ChangesNothing(c))
  {
    hide Another, SameTree;
  }

  /** In linear history a rewritten commit has one parent: what its first surviving parent became. */
  lemma LinearParent(f: Filter, c: Oid, i: nat)
    requires f.options.linear && c.Commit? && FirstSurvivor(Images(f, c.parents), i) && !Elided(f, c, i)
    ensures i < |c.parents| && Image(f, c) == Commit(f.apply(c.tree), [Image(f, c.parents[i])], c.meta)
  {
    hide Survives, Image, Elided;
    SurvivorIsThere(Images(f, c.parents), i);
    ImageOutcome(f, c, i);
    var k: nat :| FirstSurvivor(Images(f, c.parents), k) && Image(f, c).parents == [Images(f, c.parents)[k]];
    OneFirst(Images(f, c.parents), i, k);
  }

  lemma OneFirst(images: seq<Oid>, i: nat, j: nat)
    requires FirstSurvivor(images, i) && FirstSurvivor(images, j)
    ensures i == j
  {
    hide Survives;
  }
}
