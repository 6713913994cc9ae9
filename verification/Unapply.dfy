/** Pushing back: filtered commits are replayed onto the original history. */
module Unapplying {
  import opened Objects
  import opened RevWalks
  import opened RangeWalks
  import opened Filtering
  import opened Searches

  datatype OrphansMode = Keep | Remove | Reject

  datatype Favor = Ours | Theirs

  /** What a push runs with: the filter and its reverse on trees, three-way merging and merge
      bases as the git library answers them, and the options of the push. */
  datatype Push = Push(
    filter: Filter,
    isNop: bool,
    unapply: (Tree, Tree) -> Option<Tree>,
    merge: (Oid, Oid, Favor) -> Option<Tree>,
    related: seq<Oid> -> bool,
    orphans: OrphansMode,
    reparent: Option<Oid>)

  /** Filtering what was put back gives what was put; putting back what is there changes nothing. */
  ghost predicate LensLaws(e: Push) {
    && (forall t, b :: e.unapply(t, b).Some? ==> e.filter.apply(e.unapply(t, b).value) == t)
    && (forall b :: e.unapply(e.filter.apply(b), b) == Some(b))
  }

  // ------------------------------------------------------------------ one pushed commit

  /** The parents of a pushed commit that are to be looked up; `None` rejects the push. */
  function PushedParents(e: Push, rev: Oid): Option<seq<Oid>>
    requires rev.Commit?
  {
    var orphan := |rev.parents| > 1 && !e.related(rev.parents);
    if !orphan || e.orphans == Keep then Some(rev.parents)
    else if e.orphans == Remove then Some(rev.parents[..|rev.parents| - 1])
    else None
  }

  /** The originals of `ps` that can be found, and what the searches leave in the cache. */
  function Originals(f: Filter, cache: Cache, target: Oid, ps: seq<Oid>): (seq<Oid>, Cache)
    decreases |ps|
  {
    if ps == [] then ([], cache)
    else
      var b := BaseOf(f, cache, target, ps[0]);
      var rest := Originals(f, CacheAfter(f, cache, target, ps[0]), target, ps[1..]);
      ((if b == Zero then [] else [b]) + rest.0, rest.1)
  }

  /** The pushed tree put back onto the tree of each original parent. */
  function NewTrees(e: Push, tree: Tree, os: seq<Oid>): (r: Option<seq<Tree>>)
    ensures r.Some? ==> |r.value| == |os|
    ensures r.Some? ==> forall i :: 0 <= i < |os| ==> e.unapply(tree, TreeOf(os[i])) == Some(r.value[i])
  {
    if os == [] then Some([])
    else
      var first, rest := e.unapply(tree, TreeOf(os[0])), NewTrees(e, tree, os[1..]);
      if first.Some? && rest.Some? then Some([first.value] + rest.value) else None
  }

  /** The first of the first `n` originals that contains the target branch. */
  function FirstOnTarget(target: Oid, os: seq<Oid>, n: nat): (i: nat)
    requires n <= |os|
    ensures i <= n && (i < n ==> target in History(os[i]))
    decreases n
  {
    if n == 0 then 0
    else
      var i := FirstOnTarget(target, os, n - 1);
      if i < n - 1 || target in History(os[n - 1]) then i else n
  }

  /** Merge the first two originals both ways and accept the result if it does not matter which
      side wins the conflicts. */
  function MergeBoth(e: Push, tree: Tree, a: Oid, b: Oid): Option<Tree> {
    var ours, theirs := e.merge(a, b, Ours), e.merge(a, b, Theirs);
    if ours.None? || theirs.None? then None
    else if e.unapply(tree, ours.value) == e.unapply(tree, theirs.value) then e.unapply(tree, ours.value)
    else None
  }

  function PickTree(e: Push, target: Oid, tree: Tree, os: seq<Oid>, trees: seq<Tree>): Option<Tree>
    requires |trees| == |os|
  {
    ToSetSize(trees);
    var distinct := |ToSet(trees)|;
    if trees == [] then e.unapply(tree, EMPTY_TREE)
    else if distinct == 1 then Some(trees[0])
    else if !target.Commit? then None
    else
      var i := FirstOnTarget(target, os, distinct);
      if i < distinct then Some(trees[i])
      else if distinct == 2 then MergeBoth(e, tree, os[0], os[1])
      else None
  }

  /** The commit a pushed commit becomes, and the cache afterwards; `None` is an error. */
  function Replayed(e: Push, cache: Cache, target: Oid, rev: Oid): Option<(Oid, Cache)>
    requires rev.Commit?
  {
    var ps := PushedParents(e, rev);
    if ps.None? then None
    else
      var found := Originals(e.filter, cache, target, ps.value);
      var os := if found.0 == [] && e.reparent.Some? then [e.reparent.value] else found.0;
      var trees := NewTrees(e, rev.tree, os);
      if trees.None? then None
      else
        var tree := PickTree(e, target, rev.tree, os, trees.value);
        if tree.None? then None
        else
          var o := if Collapses(rev, os, tree.value) then os[0] else Commit(tree.value, os, rev.meta);
          Some((o, found.1[rev := o]))
  }

  /** The pushed commit changed something that does not reach the original: no commit for it. */
  predicate Collapses(rev: Oid, os: seq<Oid>, tree: Tree)
    requires rev.Commit?
  {
    |os| == 1 && tree == TreeOf(os[0]) && (rev.parents == [] || rev.tree != TreeOf(rev.parents[0]))
  }

  /** Replaying `revs`, parents first; commits with a known original are skipped. */
  function Run(e: Push, cache: Cache, ret: Oid, target: Oid, revs: seq<Oid>): Option<(Oid, Cache)>
    requires forall rev :: rev in revs ==> rev.Commit?
    decreases |revs|
  {
    if revs == [] then Some((ret, cache))
    else if revs[0] in cache then Run(e, cache, ret, target, revs[1..])
    else
      var step := Replayed(e, cache, target, revs[0]);
      if step.None? then None else Run(e, step.value.1, step.value.0, target, revs[1..])
  }

  // ------------------------------------------------------------------ what one step does

  /** The tree a pushed commit with these original parents is given. */
  function Picked(e: Push, target: Oid, rev: Oid, os: seq<Oid>): Option<Tree>
    requires rev.Commit?
  {
    var trees := NewTrees(e, rev.tree, os);
    if trees.None? then None else PickTree(e, target, rev.tree, os, trees.value)
  }

  /** A pushed root comes back unless it is moved: onto a commit the filter sees something of, or as
      an empty tree onto one that it does not. */
  predicate RootComesBack(e: Push, rev: Oid)
    requires rev.Commit?
  {
    if e.reparent.None? then
      var put := e.unapply(EMPTY_TREE, EMPTY_TREE);
      rev.tree == EMPTY_TREE && put.Some? ==> IsEmptyRoot(put.value)
    else if e.unapply(rev.tree, TreeOf(e.reparent.value)) == Some(TreeOf(e.reparent.value)) then
      Image(e.filter, e.reparent.value) == rev
    else
      Image(e.filter, e.reparent.value) == Zero && rev.tree != EMPTY_TREE
  }

  /** A pushed merge comes back if it keeps its parents, and if it does not look trivial where its
      replay on the originals `os` is not: with the tree of its first parent it must be given that of
      the first original, and where it changes nothing at all the originals must have one tree. */
  predicate MergeComesBack(e: Push, target: Oid, rev: Oid, os: seq<Oid>)
    requires rev.Commit? && rev.parents != [] && os != []
  {
    && !e.filter.options.linear && !MixedUnrelated(rev.parents)
    && (e.related(rev.parents) || e.orphans == Keep)
    && (rev.tree == TreeOf(rev.parents[0]) && !e.filter.options.keepTrivialMerges ==>
          Picked(e, target, rev, os) == Some(TreeOf(os[0])))
    && (ChangesNothing(rev) ==> forall o :: o in os ==> TreeOf(o) == TreeOf(os[0]))
  }

  /** Whether the replay of a pushed commit filters back to it, from what is known before it. */
  predicate ComesBack(e: Push, cache: Cache, target: Oid, rev: Oid)
    requires rev.Commit?
  {
    var os := Originals(e.filter, cache, target, rev.parents).0;
    if rev.parents == [] then RootComesBack(e, rev)
    else |rev.parents| == 1 || (os != [] && MergeComesBack(e, target, rev, os))
  }

  /** Every parent has an original: remembered, or waiting in the history of the target. */
  ghost predicate Resolvable(f: Filter, cache: Cache, target: Oid, ps: seq<Oid>) {
    forall p :: p in ps ==> p.Commit? && (p in cache || IsOld(f, target, p))
  }

  /** What a step may add to the cache: its own commit, the originals it looked up, and the
      target's image. */
  ghost predicate Adds(f: Filter, before: Cache, after: Cache, target: Oid, keys: seq<Oid>) {
    && (forall k :: k in before ==> k in after)
    && (forall k :: k in after ==> k in before || k in keys || k == Image(f, target))
  }

  lemma {:induction false} OriginalsFound(f: Filter, cache: Cache, target: Oid, ps: seq<Oid>)
    requires SoundCache(f, cache) && Resolvable(f, cache, target, ps)
    ensures var found := Originals(f, cache, target, ps);
      && Images(f, found.0) == ps && SoundCache(f, found.1)
      && Adds(f, cache, found.1, target, ps)
    decreases |ps|
  {
    hide Image, BaseOf, CacheAfter, IsOld, SoundCache, Resolvable, Adds;
    if ps == [] {
      AddsNothing(f, cache, target);
    } else {
      var after := CacheAfter(f, cache, target, ps[0]);
      ResolvableHead(f, cache, target, ps);
      OriginalsFound(f, after, target, ps[1..]);
      var found := Originals(f, cache, target, ps);
      var rest := Originals(f, after, target, ps[1..]);
      assert found.0[1..] == rest.0;
      AddsThen(f, cache, after, rest.1, target, ps[0], ps[1..]);
      assert ps == [ps[0]] + ps[1..];
    }
  }

  lemma OriginalsDone(f: Filter, cache: Cache, target: Oid, ps: seq<Oid>)
    requires ps == []
    ensures Originals(f, cache, target, ps) == ([], cache)
  {
  }

  lemma AddsNothing(f: Filter, cache: Cache, target: Oid)
    ensures Adds(f, cache, cache, target, [])
  {
  }

  lemma AddsThen(f: Filter, a: Cache, b: Cache, c: Cache, target: Oid, k: Oid, ks: seq<Oid>)
    requires Adds(f, a, b, target, [k]) && Adds(f, b, c, target, ks)
    ensures Adds(f, a, c, target, [k] + ks)
  {
    hide Image;
  }

  lemma ResolvableHead(f: Filter, cache: Cache, target: Oid, ps: seq<Oid>)
    requires ps != [] && SoundCache(f, cache) && Resolvable(f, cache, target, ps)
    ensures var after := CacheAfter(f, cache, target, ps[0]);
      && SoundCache(f, after) && Adds(f, cache, after, target, [ps[0]])
      && Resolvable(f, after, target, ps[1..])
    ensures var b := BaseOf(f, cache, target, ps[0]); b != Zero && Image(f, b) == ps[0]
  {
    hide Image, BaseOf, CacheAfter, IsOld, SoundCache;
    assert ps[0] in ps;
    SearchKeepsCache(f, cache, target, ps[0]);
  }

  /** Whichever way the tree is picked, it filters to the pushed tree. */
  lemma PickedFilters(e: Push, target: Oid, tree: Tree, os: seq<Oid>, trees: seq<Tree>)
    requires LensLaws(e) && NewTrees(e, tree, os) == Some(trees)
    requires PickTree(e, target, tree, os, trees).Some?
    ensures e.filter.apply(PickTree(e, target, tree, os, trees).value) == tree
  {
    forall i | 0 <= i < |os| ensures e.filter.apply(trees[i]) == tree {
      assert e.unapply(tree, TreeOf(os[i])) == Some(trees[i]);
    }
    ToSetSize(trees);
    var distinct := |ToSet(trees)|;
    if trees != [] {
      assert trees[0] in ToSet(trees);
      if distinct > 1 {
        var i := FirstOnTarget(target, os, distinct);
        if i == distinct {
          var ours := e.merge(os[0], os[1], Ours);
          assert e.filter.apply(e.unapply(tree, ours.value).value) == tree;
        }
      }
    }
  }

  /** With a single parent, or none, the picked tree is the only candidate. */
  lemma PickedAlone(e: Push, target: Oid, tree: Tree, os: seq<Oid>, trees: seq<Tree>)
    requires NewTrees(e, tree, os) == Some(trees) && |os| <= 1
    ensures PickTree(e, target, tree, os, trees)
         == e.unapply(tree, if os == [] then EMPTY_TREE else TreeOf(os[0]))
  {
    if |os| == 1 {
      assert ToSet(trees) == {trees[0]};
    }
  }

  /** What a replayed commit looks like before it is known to filter back. */
  ghost predicate BuiltFrom(e: Push, target: Oid, rev: Oid, os: seq<Oid>, tree: Tree)
    requires rev.Commit?
  {
    var trees := NewTrees(e, rev.tree, os);
    trees.Some? && PickTree(e, target, rev.tree, os, trees.value) == Some(tree)
  }

  /** The collapse to the parent needs the pushed commit to change its parent's tree while its
      replay changes nothing, which the first law rules out. */
  lemma NeverCollapses(e: Push, target: Oid, rev: Oid, os: seq<Oid>, tree: Tree)
    requires LensLaws(e) && rev.Commit? && BuiltFrom(e, target, rev, os, tree)
    requires |os| == |rev.parents| && Images(e.filter, os) == rev.parents
    requires forall p :: p in rev.parents ==> p.Commit?
    ensures !Collapses(rev, os, tree)
  {
    hide Image, PickTree, NewTrees;
    if |os| == 1 {
      OriginalIsCommit(e.filter, os[0], rev.parents[0]);
      PickedFilters(e, target, rev.tree, os, NewTrees(e, rev.tree, os).value);
      ContentPreserved(e.filter, os[0]);
    }
  }

  lemma OriginalIsCommit(f: Filter, o: Oid, p: Oid)
    requires Image(f, o) == p && p.Commit?
    ensures o.Commit? && p.tree == f.apply(o.tree)
  {
    hide FilterCommit;
    if o.Commit? {
      ContentPreserved(f, o);
    }
  }

  /** Putting back what an original's image already has gives the original's tree. */
  lemma PutsBackSame(e: Push, rev: Oid, os: seq<Oid>, i: nat)
    requires LensLaws(e) && rev.Commit? && Images(e.filter, os) == rev.parents && i < |os|
    requires rev.parents[i].Commit? && rev.tree == TreeOf(rev.parents[i])
    ensures e.unapply(rev.tree, TreeOf(os[i])) == Some(TreeOf(os[i]))
  {
    hide Image;
    OriginalIsCommit(e.filter, os[i], rev.parents[i]);
  }

  /** Originals of one tree give one candidate. */
  lemma PickedSame(e: Push, target: Oid, tree: Tree, os: seq<Oid>, trees: seq<Tree>)
    requires NewTrees(e, tree, os) == Some(trees) && os != []
    requires forall o :: o in os ==> TreeOf(o) == TreeOf(os[0])
    ensures PickTree(e, target, tree, os, trees) == e.unapply(tree, TreeOf(os[0]))
  {
    assert forall i :: 0 <= i < |os| ==> os[i] in os && trees[i] == trees[0];
    assert ToSet(trees) == {trees[0]};
  }

  lemma BuiltIsPicked(e: Push, target: Oid, rev: Oid, os: seq<Oid>, tree: Tree)
    requires rev.Commit?
    ensures BuiltFrom(e, target, rev, os, tree) <==> Picked(e, target, rev, os) == Some(tree)
  {
    hide PickTree, NewTrees;
  }

  /** A merge that changes nothing is rebuilt as one exactly where the originals have one tree. */
  lemma NothingChanges(e: Push, target: Oid, rev: Oid, os: seq<Oid>, tree: Tree)
    requires LensLaws(e) && rev.Commit? && BuiltFrom(e, target, rev, os, tree) && ChangesNothing(rev)
    requires Images(e.filter, os) == rev.parents && rev.parents != [] && forall p :: p in rev.parents ==> p.Commit?
    ensures ChangesNothing(Commit(tree, os, rev.meta)) <==> forall o :: o in os ==> TreeOf(o) == TreeOf(os[0])
    ensures (forall o :: o in os ==> TreeOf(o) == TreeOf(os[0])) ==> tree == TreeOf(os[0])
  {
    hide Image, PickTree, NewTrees;
    var trees := NewTrees(e, rev.tree, os).value;
    assert os[0] in os && rev.parents[0] in rev.parents;
    if forall o :: o in os ==> TreeOf(o) == TreeOf(os[0]) {
      PickedSame(e, target, rev.tree, os, trees);
      PutsBackSame(e, rev, os, 0);
    }
  }

  /** With its parents kept, a rebuilt commit filters back exactly when the push says so. */
  lemma BuiltRebuilds(e: Push, target: Oid, rev: Oid, os: seq<Oid>, tree: Tree)
    requires LensLaws(e) && rev.Commit? && BuiltFrom(e, target, rev, os, tree)
    requires Images(e.filter, os) == rev.parents && rev.parents != [] && forall p :: p in rev.parents ==> p.Commit?
    requires |rev.parents| > 1 ==> e.related(rev.parents) || e.orphans == Keep
    ensures Rebuilds(e.filter.options, Commit(tree, os, rev.meta), rev)
       <==> |rev.parents| == 1 || MergeComesBack(e, target, rev, os)
  {
    hide Image, PickTree, NewTrees, MixedUnrelated, Picked, LensLaws;
    assert rev.parents[0] in rev.parents && os[0] in os;
    BuiltIsPicked(e, target, rev, os, tree);
    if ChangesNothing(rev) {
      NothingChanges(e, target, rev, os, tree);
    }
    if |os| == 1 {
      NotMixed(rev.parents);
      assert forall o :: o in os ==> o == os[0];
    }
  }

  /** A root put where there is nothing, or onto another commit. */
  lemma RootRebuilds(e: Push, target: Oid, rev: Oid, os: seq<Oid>, tree: Tree)
    requires LensLaws(e) && rev.Commit? && rev.parents == [] && BuiltFrom(e, target, rev, os, tree)
    requires os == if e.reparent.Some? then [e.reparent.value] else []
    ensures var o := if Collapses(rev, os, tree) then os[0] else Commit(tree, os, rev.meta);
      Image(e.filter, o) == rev <==> RootComesBack(e, rev)
  {
    hide Image, PickTree, NewTrees, MixedUnrelated, IsEmptyRoot;
    var trees := NewTrees(e, rev.tree, os).value;
    PickedAlone(e, target, rev.tree, os, trees);
    PickedFilters(e, target, rev.tree, os, trees);
    if os == [] {
      NotMixed([]);
      RebuiltImage(e.filter, Commit(tree, os, rev.meta), rev);
    } else if !Collapses(rev, os, tree) {
      MovedRoot(e, rev, os[0], tree);
    }
  }

  lemma MovedRoot(e: Push, rev: Oid, onto: Oid, tree: Tree)
    requires LensLaws(e) && rev.Commit? && rev.parents == []
    requires e.unapply(rev.tree, TreeOf(onto)) == Some(tree) && tree != TreeOf(onto)
    ensures Image(e.filter, Commit(tree, [onto], rev.meta)) == rev
       <==> Image(e.filter, onto) == Zero && rev.tree != EMPTY_TREE
  {
    hide MixedUnrelated, IsEmptyRoot, KeptParents;
    var images := Images(e.filter, [onto]);
    assert images == [Image(e.filter, onto)];
    ImageIsCommitOrZero(e.filter, onto);
    KeptAlone(Image(e.filter, onto), e.filter.options.linear);
    if Image(e.filter, onto) != Zero {
      OriginalIsCommit(e.filter, onto, Image(e.filter, onto));
    }
  }

  lemma KeptAlone(image: Oid, linear: bool)
    ensures KeptParents([image], linear) == if image == Zero then [] else [image]
  {
    assert NonZero([image][1..]) == [];
    assert [image] == [image][..1];
  }

  lemma NotMixed(cs: seq<Oid>)
    requires |cs| <= 1
    ensures !MixedUnrelated(cs)
  {
  }

  lemma EmptyIsEmptyRoot()
    ensures IsEmptyRoot(EMPTY_TREE)
  {
  }

  /** A pushed commit some of whose parents are cut off does not come back. */
  lemma CutOff(e: Push, cache: Cache, target: Oid, rev: Oid)
    requires SoundCache(e.filter, cache) && rev.Commit? && |rev.parents| > 1
    requires Resolvable(e.filter, cache, target, rev.parents)
    requires PushedParents(e, rev) == Some(Init(rev.parents)) && Replayed(e, cache, target, rev).Some?
    ensures Image(e.filter, Replayed(e, cache, target, rev).value.0) != rev
  {
    hide Image, PickTree, NewTrees, Originals, SoundCache, Resolvable, Adds;
    var ps := Init(rev.parents);
    assert Resolvable(e.filter, cache, target, ps) by {
      ResolvableSome(e.filter, cache, target, rev.parents, ps);
    }
    OriginalsFound(e.filter, cache, target, ps);
    var os := Originals(e.filter, cache, target, ps).0;
    var o := Replayed(e, cache, target, rev).value.0;
    NotOwnParent(rev);
    assert rev !in ps && os[0] in os && Images(e.filter, os)[0] in ps;
    if o.Commit? && o.parents == os && o.meta == rev.meta {
      WrongParents(e.filter, o, rev);
    }
  }

  lemma ResolvableSome(f: Filter, cache: Cache, target: Oid, ps: seq<Oid>, some: seq<Oid>)
    requires Resolvable(f, cache, target, ps) && forall p :: p in some ==> p in ps
    ensures Resolvable(f, cache, target, some)
  {
  }

  /** One replayed commit filters back to the pushed one exactly when `ComesBack` says so. */
  lemma StepExactly(e: Push, cache: Cache, target: Oid, rev: Oid)
    requires LensLaws(e) && SoundCache(e.filter, cache) && rev.Commit?
    requires Resolvable(e.filter, cache, target, rev.parents)
    requires Replayed(e, cache, target, rev).Some?
    ensures Image(e.filter, Replayed(e, cache, target, rev).value.0) == rev <==> ComesBack(e, cache, target, rev)
  {
    hide Image, PickTree, NewTrees, Originals, Rebuilds, Resolvable, Adds, SoundCache, LensLaws,
         MixedUnrelated, Picked, RootComesBack;
    if rev.parents == [] {
      assert Originals(e.filter, cache, target, []).0 == [] by { OriginalsDone(e.filter, cache, target, []); }
      var os := if e.reparent.Some? then [e.reparent.value] else [];
      RootRebuilds(e, target, rev, os, PickTree(e, target, rev.tree, os, NewTrees(e, rev.tree, os).value).value);
    } else if |rev.parents| > 1 && !e.related(rev.parents) && e.orphans == Remove {
      CutOff(e, cache, target, rev);
    } else {
      OnOriginals(e, cache, target, rev);
      var os := Originals(e.filter, cache, target, rev.parents).0;
      var tree := PickTree(e, target, rev.tree, os, NewTrees(e, rev.tree, os).value).value;
      BuiltRebuilds(e, target, rev, os, tree);
    }
  }

  /** A commit with parents, none of them cut off, is rebuilt on their originals. */
  lemma OnOriginals(e: Push, cache: Cache, target: Oid, rev: Oid)
    requires LensLaws(e) && SoundCache(e.filter, cache) && rev.Commit? && rev.parents != []
    requires Resolvable(e.filter, cache, target, rev.parents) && PushedParents(e, rev) == Some(rev.parents)
    requires Replayed(e, cache, target, rev).Some?
    ensures var os := Originals(e.filter, cache, target, rev.parents).0;
      var o := Replayed(e, cache, target, rev).value.0;
      && Images(e.filter, os) == rev.parents && (forall p :: p in rev.parents ==> p.Commit?)
      && o.Commit? && o.parents == os && o.meta == rev.meta
      && BuiltFrom(e, target, rev, os, o.tree) && e.filter.apply(o.tree) == rev.tree
      && (Image(e.filter, o) == rev <==> Rebuilds(e.filter.options, o, rev))
  {
    hide Image, PickTree, NewTrees, Originals, Rebuilds, Collapses, Adds, SoundCache, LensLaws;
    OriginalsFound(e.filter, cache, target, rev.parents);
    var os := Originals(e.filter, cache, target, rev.parents).0;
    var trees := NewTrees(e, rev.tree, os).value;
    var tree := PickTree(e, target, rev.tree, os, trees).value;
    NeverCollapses(e, target, rev, os, tree);
    PickedFilters(e, target, rev.tree, os, trees);
    RebuiltImage(e.filter, Commit(tree, os, rev.meta), rev);
  }

  /** A merge that keeps its parents and still does not come back is lost: its replay filters to its
      first parent. */
  lemma LostStep(e: Push, cache: Cache, target: Oid, rev: Oid)
    requires LensLaws(e) && SoundCache(e.filter, cache) && rev.Commit? && |rev.parents| > 1
    requires Resolvable(e.filter, cache, target, rev.parents) && Replayed(e, cache, target, rev).Some?
    requires !e.filter.options.linear && !MixedUnrelated(rev.parents) && (e.related(rev.parents) || e.orphans == Keep)
    requires !ComesBack(e, cache, target, rev)
    ensures Image(e.filter, Replayed(e, cache, target, rev).value.0) == rev.parents[0] != rev
  {
    hide Image, Rebuilds, ComesBack, Originals, NewTrees, PickTree, Resolvable, SoundCache, LensLaws, MixedUnrelated;
    StepExactly(e, cache, target, rev);
    OnOriginals(e, cache, target, rev);
    LostMerge(e.filter, Replayed(e, cache, target, rev).value.0, rev);
  }

  /** What a step that comes back leaves behind. */
  lemma StepRoundTrip(e: Push, cache: Cache, target: Oid, rev: Oid)
    requires LensLaws(e) && SoundCache(e.filter, cache) && rev.Commit? && ComesBack(e, cache, target, rev)
    requires Resolvable(e.filter, cache, target, rev.parents)
    requires Replayed(e, cache, target, rev).Some?
    ensures var (o, after) := Replayed(e, cache, target, rev).value;
      && Image(e.filter, o) == rev
      && (rev.parents != [] ==> o.Commit? && o.meta == rev.meta && Images(e.filter, o.parents) == rev.parents)
      && (|rev.parents| == 1 ==> e.unapply(rev.tree, TreeOf(o.parents[0])) == Some(o.tree))
      && (rev.parents == [] && e.reparent.None? ==>
            o.Commit? && o.parents == [] && o.meta == rev.meta && e.unapply(rev.tree, EMPTY_TREE) == Some(o.tree))
      && SoundCache(e.filter, after) && rev in after
      && Adds(e.filter, cache, after, target, [rev] + rev.parents)
  {
    hide Image, PickTree, NewTrees, Originals, Rebuilds, Collapses, Adds, SoundCache, LensLaws, ComesBack;
    StepExactly(e, cache, target, rev);
    var (o, after) := Replayed(e, cache, target, rev).value;
    if rev.parents == [] {
      OriginalsFound(e.filter, cache, target, []);
      if e.reparent.None? {
        RootStays(e, cache, target, rev);
      }
    } else {
      assert PushedParents(e, rev) == Some(rev.parents) by { KeepsParents(e, cache, target, rev); }
      OnOriginals(e, cache, target, rev);
      OriginalsFound(e.filter, cache, target, rev.parents);
      if |rev.parents| == 1 {
        PickedAlone(e, target, rev.tree, o.parents, NewTrees(e, rev.tree, o.parents).value);
      }
    }
    var found := Originals(e.filter, cache, target, rev.parents).1;
    AddsOwn(e.filter, cache, found, target, rev, o, rev.parents);
  }

  lemma RootStays(e: Push, cache: Cache, target: Oid, rev: Oid)
    requires rev.Commit? && rev.parents == [] && e.reparent.None? && Replayed(e, cache, target, rev).Some?
    ensures var o := Replayed(e, cache, target, rev).value.0;
      o.Commit? && o.parents == [] && o.meta == rev.meta && e.unapply(rev.tree, EMPTY_TREE) == Some(o.tree)
  {
    hide PickTree, NewTrees, Originals;
    OriginalsDone(e.filter, cache, target, []);
    PickedAlone(e, target, rev.tree, [], NewTrees(e, rev.tree, []).value);
  }

  lemma KeepsParents(e: Push, cache: Cache, target: Oid, rev: Oid)
    requires rev.Commit? && ComesBack(e, cache, target, rev)
    ensures PushedParents(e, rev) == Some(rev.parents)
  {
    hide Image, Originals, MixedUnrelated, Picked, RootComesBack;
  }

  lemma AddsOwn(f: Filter, before: Cache, after: Cache, target: Oid, rev: Oid, o: Oid, keys: seq<Oid>)
    requires Adds(f, before, after, target, keys) && SoundCache(f, after)
    requires Image(f, o) == rev && rev.Commit?
    ensures Adds(f, before, after[rev := o], target, [rev] + keys) && SoundCache(f, after[rev := o])
  {
    hide Image;
    ZeroImage(f);
  }

  // ------------------------------------------------------------------ whole pushes

  /** `revs` lists parents before children, and every parent outside the list has an original. */
  ghost predicate Feasible(f: Filter, cache: Cache, target: Oid, revs: seq<Oid>) {
    forall i, p :: 0 <= i < |revs| && revs[i].Commit? && p in revs[i].parents ==>
      p.Commit? && (p in cache || p in revs[..i] || IsOld(f, target, p))
  }

  lemma FeasibleTail(f: Filter, before: Cache, after: Cache, target: Oid, revs: seq<Oid>)
    requires revs != [] && Feasible(f, before, target, revs)
    requires revs[0] in after && forall k :: k in before ==> k in after
    ensures Feasible(f, after, target, revs[1..])
  {
    hide IsOld;
    forall i, p | 0 <= i < |revs[1..]| && revs[1..][i].Commit? && p in revs[1..][i].parents
      ensures p.Commit? && (p in after || p in revs[1..][..i] || IsOld(f, target, p))
    {
      assert revs[1..][i] == revs[i + 1];
      assert revs[..i + 1] == [revs[0]] + revs[1..][..i];
    }
  }

  /** Every commit that is replayed comes back, in the state its replay finds. */
  predicate RunComesBack(e: Push, cache: Cache, target: Oid, revs: seq<Oid>)
    requires forall rev :: rev in revs ==> rev.Commit?
    decreases |revs|
  {
    if revs == [] then true
    else if revs[0] in cache then RunComesBack(e, cache, target, revs[1..])
    else
      && ComesBack(e, cache, target, revs[0])
      && var step := Replayed(e, cache, target, revs[0]);
         step.Some? ==> RunComesBack(e, step.value.1, target, revs[1..])
  }

  /** Replaying a push whose commits come back gives every pushed commit an original that filters
      to it; the last one ends up at the tip. */
  lemma {:induction false} RunRoundTrip(e: Push, cache: Cache, ret: Oid, target: Oid, revs: seq<Oid>)
    requires LensLaws(e) && SoundCache(e.filter, cache)
    requires (forall rev :: rev in revs ==> rev.Commit?) && RunComesBack(e, cache, target, revs)
    requires Feasible(e.filter, cache, target, revs)
    requires Run(e, cache, ret, target, revs).Some?
    ensures var (o, after) := Run(e, cache, ret, target, revs).value;
      && SoundCache(e.filter, after)
      && (forall k :: k in cache || k in revs ==> k in after)
      && (revs != [] && SureToRun(e, cache, target, revs) ==> Image(e.filter, o) == Last(revs))
    decreases |revs|
  {
    hide Image, Replayed, ComesBack, SoundCache, Feasible, IsOld, Adds, SureToRun;
    if revs == [] {
    } else {
      var rev, rest := revs[0], revs[1..];
      assert rev in revs && forall x :: x in revs <==> x == rev || x in rest;
      if rev in cache {
        FeasibleTail(e.filter, cache, cache, target, revs);
        RunRoundTrip(e, cache, ret, target, rest);
        if SureToRun(e, cache, target, revs) {
          SureSkip(e, cache, target, revs);
        }
      } else {
        assert Resolvable(e.filter, cache, target, rev.parents) by {
          FeasibleHead(e.filter, cache, target, revs);
        }
        StepRoundTrip(e, cache, target, rev);
        var (o, after) := Replayed(e, cache, target, rev).value;
        AddsKeeps(e.filter, cache, after, target, [rev] + rev.parents);
        FeasibleTail(e.filter, cache, after, target, revs);
        RunRoundTrip(e, after, o, target, rest);
        if SureToRun(e, cache, target, revs) && rest != [] {
          SureStep(e, cache, after, target, revs);
        }
      }
    }
  }

  lemma FeasibleHead(f: Filter, cache: Cache, target: Oid, revs: seq<Oid>)
    requires revs != [] && Feasible(f, cache, target, revs) && revs[0].Commit?
    ensures Resolvable(f, cache, target, revs[0].parents)
  {
    hide IsOld;
    assert revs[..0] == [];
  }

  lemma AddsKeeps(f: Filter, before: Cache, after: Cache, target: Oid, keys: seq<Oid>)
    requires Adds(f, before, after, target, keys)
    ensures forall k :: k in before ==> k in after
  {
  }

  /** The tip cannot be skipped: it has no original yet, is not the target's own image, and is no
      parent of another pushed commit. */
  ghost predicate SureToRun(e: Push, cache: Cache, target: Oid, revs: seq<Oid>)
    requires revs != []
  {
    && Last(revs) !in cache
    && (|revs| > 1 ==> Last(revs) != Image(e.filter, target))
    && (forall rev :: rev in Init(revs) ==>
          rev != Last(revs) && (rev.Commit? ==> Last(revs) !in rev.parents))
  }

  lemma SureSkip(e: Push, cache: Cache, target: Oid, revs: seq<Oid>)
    requires revs != [] && revs[0] in cache && SureToRun(e, cache, target, revs)
    ensures revs[1..] != [] && Last(revs[1..]) == Last(revs) && SureToRun(e, cache, target, revs[1..])
  {
    assert |revs| > 1;
    InitOfTail(revs);
  }

  lemma InitOfTail(revs: seq<Oid>)
    requires |revs| > 1
    ensures Last(revs[1..]) == Last(revs)
    ensures forall rev :: rev in Init(revs[1..]) ==> rev in Init(revs)
  {
    assert Init(revs[1..]) == Init(revs)[1..];
  }

  lemma SureStep(e: Push, before: Cache, after: Cache, target: Oid, revs: seq<Oid>)
    requires |revs| > 1 && revs[0].Commit? && SureToRun(e, before, target, revs)
    requires Adds(e.filter, before, after, target, [revs[0]] + revs[0].parents)
    ensures Last(revs[1..]) == Last(revs) && SureToRun(e, after, target, revs[1..])
  {
    hide Image;
    assert Init(revs)[0] == revs[0];
    InitOfTail(revs);
  }

  // ------------------------------------------------------------------ plain commits

  /** A pushed commit that comes back whatever is remembered. A root must not be moved; a merge must
      keep its parents and not look trivial. */
  predicate Plain(e: Push, rev: Oid) {
    && rev.Commit?
    && (rev.parents == [] ==>
          e.reparent.None? && (rev.tree == EMPTY_TREE ==> e.filter.apply(EMPTY_TREE) == EMPTY_TREE))
    && (|rev.parents| > 1 ==>
          && !e.filter.options.linear && !MixedUnrelated(rev.parents)
          && (e.related(rev.parents) || e.orphans == Keep)
          && (rev.tree != TreeOf(rev.parents[0]) || (e.filter.options.keepTrivialMerges && !ChangesNothing(rev))))
  }

  lemma PlainComesBack(e: Push, cache: Cache, target: Oid, rev: Oid)
    requires LensLaws(e) && SoundCache(e.filter, cache) && Plain(e, rev)
    requires Resolvable(e.filter, cache, target, rev.parents)
    ensures ComesBack(e, cache, target, rev)
  {
    hide Image, Originals, SoundCache, Resolvable, Adds, MixedUnrelated, Picked;
    OriginalsFound(e.filter, cache, target, rev.parents);
    if rev.parents == [] {
      EmptyIsEmptyRoot();
    } else {
      assert rev.parents[0] in rev.parents;
    }
  }

  lemma {:induction false} PlainRun(e: Push, cache: Cache, target: Oid, revs: seq<Oid>)
    requires LensLaws(e) && SoundCache(e.filter, cache) && Feasible(e.filter, cache, target, revs)
    requires forall rev :: rev in revs ==> rev.Commit? && Plain(e, rev)
    ensures RunComesBack(e, cache, target, revs)
    decreases |revs|
  {
    hide Image, Replayed, Plain, ComesBack, SoundCache, Feasible, IsOld, Adds, LensLaws;
    if revs == [] {
    } else {
      var rev, rest := revs[0], revs[1..];
      assert rev in revs && forall x :: x in rest ==> x in revs;
      if rev in cache {
        FeasibleTail(e.filter, cache, cache, target, revs);
        PlainRun(e, cache, target, rest);
      } else {
        assert Resolvable(e.filter, cache, target, rev.parents) by {
          FeasibleHead(e.filter, cache, target, revs);
        }
        PlainComesBack(e, cache, target, rev);
        if Replayed(e, cache, target, rev).Some? {
          StepRoundTrip(e, cache, target, rev);
          var after := Replayed(e, cache, target, rev).value.1;
          AddsKeeps(e.filter, cache, after, target, [rev] + rev.parents);
          FeasibleTail(e.filter, cache, after, target, revs);
          PlainRun(e, after, target, rest);
        }
      }
    }
  }

  // ------------------------------------------------------------------ linear pushes

  /** Single-parent commits on top of `start`, parents first. */
  ghost predicate IsChain(revs: seq<Oid>, start: Oid) {
    && start.Commit?
    && (forall rev :: rev in revs ==> rev.Commit? && |rev.parents| == 1)
    && (revs != [] ==> revs[0].parents == [start])
    && (forall i, p :: 0 < i < |revs| && p in revs[i].parents ==> p == revs[i - 1])
  }

  lemma {:induction false} ChainDepths(revs: seq<Oid>, start: Oid, i: nat, j: nat)
    requires IsChain(revs, start) && i < j < |revs|
    ensures Depth(start) < Depth(revs[i]) < Depth(revs[j])
  {
    assert revs[j] in revs && revs[j].parents[0] in revs[j].parents;
    if i < j - 1 {
      ChainDepths(revs, start, i, j - 1);
    } else if i > 0 {
      ChainDepths(revs, start, i - 1, i);
    } else {
      assert revs[0].parents[0] in revs[0].parents;
    }
  }

  lemma ChainIsSure(e: Push, target: Oid, revs: seq<Oid>, start: Oid)
    requires revs != [] && IsChain(revs, start)
    requires |revs| > 1 ==> Last(revs) != Image(e.filter, target)
    ensures SureToRun(e, map[], target, revs)
  {
    hide Image;
    var n := |revs| - 1;
    forall rev | rev in Init(revs) ensures rev != Last(revs) && Last(revs) !in rev.parents {
      var i :| 0 <= i < n && revs[i] == rev;
      ChainDepths(revs, start, i, n);
    }
  }

  lemma ChainIsFeasible(f: Filter, target: Oid, revs: seq<Oid>, start: Oid)
    requires IsChain(revs, start) && IsOld(f, target, start)
    ensures Feasible(f, map[], target, revs)
  {
    hide Image, IsOld;
    forall i, p | 0 <= i < |revs| && p in revs[i].parents
      ensures p.Commit? && (p in revs[..i] || IsOld(f, target, p))
    {
      assert revs[i] in revs;
      if i > 0 {
        assert revs[i - 1] in revs && revs[..i][i - 1] == p;
      }
    }
  }

  lemma SingleComesBack(e: Push, cache: Cache, target: Oid, rev: Oid)
    requires rev.Commit? && |rev.parents| == 1
    ensures ComesBack(e, cache, target, rev)
  {
  }

  /** Single-parent commits always come back. */
  lemma {:induction false} ChainComesBack(e: Push, cache: Cache, target: Oid, revs: seq<Oid>)
    requires forall rev :: rev in revs ==> rev.Commit? && |rev.parents| == 1
    ensures RunComesBack(e, cache, target, revs)
    decreases |revs|
  {
    hide Image, Originals, Replayed;
    if revs == [] {
    } else {
      assert revs[0] in revs;
      if revs[0] in cache {
        ChainComesBack(e, cache, target, revs[1..]);
      } else {
        var step := Replayed(e, cache, target, revs[0]);
        if step.Some? {
          ChainComesBack(e, step.value.1, target, revs[1..]);
        }
      }
    }
  }

  /** Putting back never fails. */
  ghost predicate Total(e: Push) {
    forall t, b :: e.unapply(t, b).Some?
  }

  /** A linear push is never rejected. */
  lemma {:induction false} ChainRuns(e: Push, cache: Cache, ret: Oid, target: Oid, revs: seq<Oid>)
    requires Total(e) && forall rev :: rev in revs ==> rev.Commit? && |rev.parents| == 1
    ensures Run(e, cache, ret, target, revs).Some?
    decreases |revs|
  {
    hide Image, Originals, PickTree, NewTrees;
    if revs == [] {
    } else {
      assert revs[0] in revs;
      if revs[0] in cache {
        ChainRuns(e, cache, ret, target, revs[1..]);
      } else {
        SingleRuns(e, cache, target, revs[0]);
        var step := Replayed(e, cache, target, revs[0]).value;
        ChainRuns(e, step.1, step.0, target, revs[1..]);
      }
    }
  }

  lemma SingleRuns(e: Push, cache: Cache, target: Oid, rev: Oid)
    requires Total(e) && rev.Commit? && |rev.parents| == 1
    ensures Replayed(e, cache, target, rev).Some?
  {
    hide Image, BaseOf, CacheAfter;
    var found := Originals(e.filter, cache, target, rev.parents);
    assert |found.0| <= 1 by {
      assert Originals(e.filter, CacheAfter(e.filter, cache, target, rev.parents[0]), target, rev.parents[1..]).0 == [];
    }
    var os := if found.0 == [] && e.reparent.Some? then [e.reparent.value] else found.0;
    assert NewTrees(e, rev.tree, os).Some? by {
      if |os| == 1 {
        assert NewTrees(e, rev.tree, os[1..]) == Some([]);
      }
    }
    PickedAlone(e, target, rev.tree, os, NewTrees(e, rev.tree, os).value);
  }

  lemma {:induction false} RunConcat(e: Push, cache: Cache, ret: Oid, target: Oid, a: seq<Oid>, b: seq<Oid>)
    requires forall rev :: rev in a + b ==> rev.Commit?
    ensures forall rev :: rev in a || rev in b ==> rev in a + b
    ensures var first := Run(e, cache, ret, target, a);
      Run(e, cache, ret, target, a + b)
      == if first.None? then None else Run(e, first.value.1, first.value.0, target, b)
    decreases |a|
  {
    hide Replayed;
    if a == [] {
      assert a + b == b;
    } else {
      assert (a + b)[1..] == a[1..] + b && a[0] in a + b;
      if a[0] in cache {
        RunConcat(e, cache, ret, target, a[1..], b);
      } else {
        var step := Replayed(e, cache, target, a[0]);
        if step.Some? {
          RunConcat(e, step.value.1, step.value.0, target, a[1..], b);
        }
      }
    }
  }

  /** The first search of a run remembers the image of the target. */
  lemma FirstStepRemembers(e: Push, target: Oid, rev: Oid, start: Oid)
    requires rev.Commit? && rev.parents == [start] && IsOld(e.filter, target, start)
    requires Image(e.filter, target) != Zero && Replayed(e, map[], target, rev).Some?
    ensures Image(e.filter, target) in Replayed(e, map[], target, rev).value.1
  {
    hide Image, Found, PickTree, NewTrees;
    var after := CacheAfter(e.filter, map[], target, start);
    assert target != Zero by { ZeroIsNotOld(e.filter, start); }
    assert Originals(e.filter, map[], target, [start]).1 == after by {
      assert [start][1..] == [];
    }
  }

  lemma ZeroIsNotOld(f: Filter, rev: Oid)
    ensures !IsOld(f, Zero, rev)
  {
  }

  /** Pushing a chain of commits onto any filtered commit of the target's history. The replay
      succeeds, and filtering its result gives back the pushed tip, except in one case: the tip
      is the target's own image and more than one commit is replayed. Then the first search has
      already remembered the target as the tip's original, the tip is skipped, and the result
      stands for the commit below it. */
  lemma ChainRoundTrip(e: Push, target: Oid, start: Oid, revs: seq<Oid>)
    requires LensLaws(e) && Total(e)
    requires IsOld(e.filter, target, start) && IsChain(revs, start) && revs != []
    ensures forall rev :: rev in revs ==> rev.Commit?
    ensures Run(e, map[], target, target, revs).Some?
    ensures var o := Run(e, map[], target, target, revs).value.0;
      Image(e.filter, o) == Last(revs) <==> !(Last(revs) == Image(e.filter, target) && |revs| > 1)
  {
    hide Image, IsOld, Run, RunComesBack, Feasible, SureToRun, SoundCache, Total;
    var f := e.filter;
    ChainIsFeasible(f, target, revs, start);
    ChainComesBack(e, map[], target, revs);
    ChainRuns(e, map[], target, target, revs);
    assert SoundCache(f, map[]) by { EmptyCache(f, target); }
    if !(Last(revs) == Image(f, target) && |revs| > 1) {
      ChainIsSure(e, target, revs, start);
      RunRoundTrip(e, map[], target, target, revs);
    } else {
      StaleTip(e, target, start, revs);
    }
  }

  lemma StaleTip(e: Push, target: Oid, start: Oid, revs: seq<Oid>)
    requires LensLaws(e) && Total(e)
    requires IsOld(e.filter, target, start) && IsChain(revs, start) && |revs| > 1
    requires Last(revs) == Image(e.filter, target)
    ensures forall rev :: rev in revs ==> rev.Commit?
    ensures var run := Run(e, map[], target, target, revs);
      run.Some? && Image(e.filter, run.value.0) == revs[|revs| - 2] != Last(revs)
  {
    hide Image, IsOld, RunComesBack, ComesBack, Feasible, SureToRun, Replayed, SoundCache, Total, LensLaws, Adds;
    var f, n := e.filter, |revs| - 1;
    var init := revs[..n];
    assert revs == init + [Last(revs)] && IsChain(init, start);
    assert SoundCache(f, map[]) by { EmptyCache(f, target); }
    ChainIsFeasible(f, target, init, start);
    ChainComesBack(e, map[], target, init);
    ChainRuns(e, map[], target, target, init);
    ChainDepths(revs, start, n - 1, n);
    ChainIsSure(e, target, init, start);
    RunRoundTrip(e, map[], target, target, init);
    var (o, after) := Run(e, map[], target, target, init).value;
    assert Last(revs) in after by {
      assert init[0] in init;
      ChainRuns(e, map[], target, target, [init[0]]);
      FirstStepRemembers(e, target, init[0], start);
      var step := Replayed(e, map[], target, init[0]).value;
      assert Resolvable(f, map[], target, init[0].parents);
      assert ComesBack(e, map[], target, init[0]) by { SingleComesBack(e, map[], target, init[0]); }
      StepRoundTrip(e, map[], target, init[0]);
      AddsKeeps(f, map[], step.1, target, [init[0]] + init[0].parents);
      FeasibleTail(f, map[], step.1, target, init);
      ChainComesBack(e, step.1, target, init[1..]);
      RunRoundTrip(e, step.1, step.0, target, init[1..]);
    }
    RunConcat(e, map[], target, target, init, [Last(revs)]);
    assert Run(e, after, o, target, [Last(revs)]) == Some((o, after));
  }
}
