/** Pushes through `:/path`: they meet the laws, and two concrete ones that do not come back. */
module SubdirPushes {
  import opened Objects
  import opened Filtering
  import opened Searches
  import opened Unapplying
  import opened RevWalks
  import opened MergedTrees
  import opened Pushing
  import opened SubdirLens

  // ------------------------------------------------------------------ pushing through `:/path`

  function PutBack(path: Path, t: Tree, base: Tree): Option<Tree> {
    var put := Unapplied(b => Subdir(path, b), x => Prefix(path, x), t, base);
    if put.Dir? then Some(put) else None
  }

  /** A push through `:/path` meets the laws that make every push come back as it was pushed, and
      is never without a result. */
  lemma SubdirPush(path: Path, e: Push)
    requires forall t :: e.filter.apply(t) == Subdir(path, t)
    requires forall t, b :: e.unapply(t, b) == PutBack(path, t, b)
    ensures LensLaws(e) && forall t, b :: e.unapply(t, b).Some?
  {
    forall t, b ensures e.unapply(t, b).Some? && e.filter.apply(e.unapply(t, b).value) == t {
      SubdirIsLens(path, t, b);
    }
    forall b ensures e.unapply(e.filter.apply(b), b) == Some(b) {
      SubdirIsLens(path, EMPTY_TREE, b);
    }
  }

  lemma PutSame(path: Path, e: Push, t: Tree, base: Tree, put: Tree)
    requires (forall t, b :: e.unapply(t, b) == PutBack(path, t, b)) && e.unapply(t, base) == Some(put)
    ensures SameBeside(path, put, base)
  {
    hide SameBeside;
    PutKeepsBeside(path, t, base);
  }

  lemma PutBeside(path: Path, e: Push, t: Tree, base: Tree, put: Tree, k: string)
    requires (forall t, b :: e.unapply(t, b) == PutBack(path, t, b)) && e.unapply(t, base) == Some(put) && k != path[0]
    ensures SameAt(put, base, k)
  {
    PutSame(path, e, t, base, put);
    assert SameAt(Subdir(path[..0], put), Subdir(path[..0], base), k);
  }

  /** Beside the path, a merge replayed through `:/path` has what the original above the target has
      there, or what the merge of the originals has there, whichever side wins. */
  lemma MergeKeepsBeside(path: Path, e: Push, cache: Cache, target: Oid, rev: Oid, a: Oid, b: Oid)
    requires forall t, base :: e.unapply(t, base) == PutBack(path, t, base)
    requires TwoSided(e, cache, target, rev, a, b) && Replayed(e, cache, target, rev).Some?
    ensures var o := Replayed(e, cache, target, rev).value.0;
      && o.Commit? && o.parents == [a, b]
      && (Below(a, target) ==> SameBeside(path, o.tree, TreeOf(a)))
      && (!Below(a, target) && Below(b, target) ==> SameBeside(path, o.tree, TreeOf(b)))
      && (!Below(a, target) && !Below(b, target) ==>
            && e.merge(a, b, Ours).Some? && SameBeside(path, o.tree, e.merge(a, b, Ours).value)
            && e.merge(a, b, Theirs).Some? && SameBeside(path, o.tree, e.merge(a, b, Theirs).value))
  {
    hide Replayed, Below, TreeOf, PutBack, SameBeside, Originals, PushedParents;
    TwoSidedReplayed(e, cache, target, rev, a, b);
    var o := Replayed(e, cache, target, rev).value.0;
    if Below(a, target) {
      PutSame(path, e, rev.tree, TreeOf(a), o.tree);
    } else if Below(b, target) {
      PutSame(path, e, rev.tree, TreeOf(b), o.tree);
    } else {
      var t :| OnMerge(e, rev.tree, a, b, t);
      PutSame(path, e, rev.tree, e.merge(a, b, Ours).value, o.tree);
      PutSame(path, e, rev.tree, e.merge(a, b, Theirs).value, o.tree);
    }
  }

  // ------------------------------------------------------------------ a push that goes back

  function Wide(text: string): Tree {
    Dir(map["a" := Narrow(text)])
  }

  function Narrow(text: string): Tree {
    Dir(map["x" := Blob(text)])
  }

  lemma WideNarrows(text: string)
    ensures Subdir(["a"], Wide(text)) == Narrow(text) && Narrow(text) != EMPTY_TREE
  {
    assert ["a"][1..] == [] && "a" in Wide(text).entries && "x" in Narrow(text).entries;
  }

  lemma NarrowDiffers(a: string, b: string)
    requires a != b
    ensures Narrow(a) != Narrow(b)
  {
    assert Narrow(a).entries["x"] != Narrow(b).entries["x"];
  }

  /** A commit with another text than its parent, if it has one, is narrowed as it is. */
  lemma CommitNarrows(f: Filter, tree: Tree, text: string, before: string, ps: seq<Oid>, qs: seq<Oid>)
    requires (forall t :: f.apply(t) == Subdir(["a"], t)) && text != before && Subdir(["a"], tree) == Narrow(text)
    requires |ps| == |qs| <= 1 && Images(f, ps) == qs && forall q :: q in qs ==> q.Commit? && q.tree == Narrow(before)
    ensures Image(f, Commit(tree, ps, "")) == Commit(Narrow(text), qs, "")
  {
    hide Image, Images, Subdir;
    assert "x" in Narrow(text).entries;
    NarrowDiffers(text, before);
    NotMixed(qs);
    var o, rev := Commit(tree, ps, ""), Commit(Narrow(text), qs, "");
    if qs != [] {
      assert qs[0] in qs && TreeOf(qs[0]) != rev.tree;
    }
    RebuiltImage(f, o, rev);
  }

  /** The `k`th of a line of commits, each with another text. */
  function Line(tree: string -> Tree, k: nat): Oid {
    Commit(tree(seq(k, _ => 'x')), if k == 0 then [] else [Line(tree, k - 1)], "")
  }

  lemma {:induction false} LineNarrows(f: Filter, k: nat)
    requires forall t :: f.apply(t) == Subdir(["a"], t)
    ensures Image(f, Line(Wide, k)) == Line(Narrow, k)
  {
    hide Image, Wide, Narrow, Subdir;
    if k > 0 {
      LineNarrows(f, k - 1);
      var ps, qs := [Line(Wide, k - 1)], [Line(Narrow, k - 1)];
      assert Images(f, ps) == qs;
      WideNarrows(seq(k, _ => 'x'));
      CommitNarrows(f, Wide(seq(k, _ => 'x')), seq(k, _ => 'x'), seq(k - 1, _ => 'x'), ps, qs);
    } else {
      WideNarrows(seq(0, _ => 'x'));
      CommitNarrows(f, Wide(seq(0, _ => 'x')), seq(0, _ => 'x'), "y", [], []);
    }
  }

  lemma LineIsBelow(tree: string -> Tree, k: nat)
    ensures Below(Line(tree, k + 2), Line(tree, k))
  {
    BelowSelf(Line(tree, k));
    assert Below(Line(tree, k + 1), Line(tree, k));
  }

  lemma OldLine(f: Filter, k: nat)
    requires forall t :: f.apply(t) == Subdir(["a"], t)
    ensures IsOld(f, Line(Wide, k + 2), Line(Narrow, k))
  {
    hide Image, Below, Subdir;
    LineNarrows(f, k);
    LineIsBelow(Wide, k);
  }

  lemma NewLine(k: nat)
    ensures IsChain([Line(Narrow, k + 1), Line(Narrow, k + 2)], Line(Narrow, k))
  {
  }

  /** A concrete push that goes back: through `:/a`, from a base two commits behind the target, of the
      commit the target is seen as. What comes out is seen as the commit before it. */
  lemma StalePush(e: Push, k: nat)
    requires forall t :: e.filter.apply(t) == Subdir(["a"], t)
    requires forall t, b :: e.unapply(t, b) == PutBack(["a"], t, b)
    ensures var target, revs := Line(Wide, k + 2), [Line(Narrow, k + 1), Line(Narrow, k + 2)];
            && Image(e.filter, target) == revs[1]
            && Run(e, map[], target, target, revs).Some?
            && Image(e.filter, Run(e, map[], target, target, revs).value.0) == revs[0] != revs[1]
  {
    hide Image, Run, LensLaws, Subdir, PutBack, Below, IsOld, IsChain, Line;
    SubdirPush(["a"], e);
    LineNarrows(e.filter, k + 2);
    OldLine(e.filter, k);
    NewLine(k);
    StaleTip(e, Line(Wide, k + 2), Line(Narrow, k), [Line(Narrow, k + 1), Line(Narrow, k + 2)]);
  }

  // ------------------------------------------------------------------ a merge that is lost

  /** A tree with something below `a` and something beside it. */
  function Both(text: string, beside: string): Tree {
    Dir(map["a" := Narrow(text), "b" := Blob(beside)])
  }

  lemma BothNarrows(text: string, beside: string)
    ensures Subdir(["a"], Both(text, beside)) == Narrow(text)
  {
    assert ["a"][1..] == [] && "a" in Both(text, beside).entries;
  }

  /** The base, and the target on top of it; they differ below `a` and beside it. */
  const BASE: Oid := Commit(Both("0", "0"), [], "")
  const TARGET: Oid := Commit(Both("1", "1"), [BASE], "")

  /** What is seen of them. */
  const SEEN_BASE: Oid := Commit(Narrow("0"), [], "")
  const SEEN_TARGET: Oid := Commit(Narrow("1"), [SEEN_BASE], "")

  /** A commit made on the base, and its merge with the target that keeps its own content. */
  const SIDE: Oid := Commit(Narrow("2"), [SEEN_BASE], "")
  const MERGE: Oid := Commit(Narrow("2"), [SIDE, SEEN_TARGET], "")

  lemma SeenAs(f: Filter)
    requires forall t :: f.apply(t) == Subdir(["a"], t)
    ensures Image(f, BASE) == SEEN_BASE && Image(f, TARGET) == SEEN_TARGET && SEEN_BASE != SEEN_TARGET
  {
    hide Image, Subdir, Narrow, Both;
    BothNarrows("0", "0");
    BothNarrows("1", "1");
    CommitNarrows(f, Both("0", "0"), "0", "1", [], []);
    assert Images(f, [BASE]) == [SEEN_BASE];
    CommitNarrows(f, Both("1", "1"), "1", "0", [BASE], [SEEN_BASE]);
  }

  lemma BelowTarget(x: Oid)
    requires Below(TARGET, x)
    ensures x == TARGET || x == BASE
  {
  }

  /** The side commit is replayed on the base, and what is beside `a` stays that of the base. */
  lemma SideReplayed(e: Push)
    requires forall t :: e.filter.apply(t) == Subdir(["a"], t)
    requires forall t, b :: e.unapply(t, b) == PutBack(["a"], t, b)
    ensures var step := Replayed(e, map[], TARGET, SIDE);
            && step.Some? && SoundCache(e.filter, step.value.1)
            && step.value.1 == map[SEEN_TARGET := TARGET, SEEN_BASE := BASE, SIDE := step.value.0]
            && step.value.0.Commit? && step.value.0.parents == [BASE] && SameAt(step.value.0.tree, BASE.tree, "b")
  {
    hide Image, Subdir, PutBack, LensLaws, IsOld, ComesBack, NewTrees, PickTree, Adds, Found, SoundCache, Narrow, Both;
    var f := e.filter;
    SeenAs(f);
    SubdirPush(["a"], e);
    assert SoundCache(f, map[]) by { EmptyCache(f, TARGET); }
    assert Below(TARGET, BASE) && IsOld(f, TARGET, SEEN_BASE) by { BaseIsOld(f); }
    assert Found(f, TARGET, SEEN_BASE) == BASE by {
      FoundIffOld(f, TARGET, SEEN_BASE);
      BelowTarget(Found(f, TARGET, SEEN_BASE));
    }
    SideOriginals(f);
    SingleRuns(e, map[], TARGET, SIDE);
    SingleComesBack(e, map[], TARGET, SIDE);
    assert Resolvable(f, map[], TARGET, SIDE.parents);
    StepRoundTrip(e, map[], TARGET, SIDE);
    var (o, after) := Replayed(e, map[], TARGET, SIDE).value;
    assert o.Commit? && o.parents == [BASE];
    PutBeside(["a"], e, SIDE.tree, BASE.tree, o.tree, "b");
  }

  lemma SideOriginals(f: Filter)
    requires Image(f, TARGET) == SEEN_TARGET && Found(f, TARGET, SEEN_BASE) == BASE
    ensures Originals(f, map[], TARGET, [SEEN_BASE]) == ([BASE], map[SEEN_TARGET := TARGET, SEEN_BASE := BASE])
  {
    hide Image, Found, Narrow, Both;
    var after: Cache := map[SEEN_TARGET := TARGET, SEEN_BASE := BASE];
    assert CacheAfter(f, map[], TARGET, SEEN_BASE) == after && BaseOf(f, map[], TARGET, SEEN_BASE) == BASE;
    OneOriginal(f, map[], TARGET, SEEN_BASE);
  }

  lemma OneOriginal(f: Filter, cache: Cache, target: Oid, p: Oid)
    requires BaseOf(f, cache, target, p) != Zero
    ensures Originals(f, cache, target, [p]) == ([BaseOf(f, cache, target, p)], CacheAfter(f, cache, target, p))
  {
    hide BaseOf, CacheAfter;
    var b, after := BaseOf(f, cache, target, p), CacheAfter(f, cache, target, p);
    assert [p][1..] == [] && [b] + [] == [b];
    OriginalsDone(f, after, target, []);
  }

  lemma BaseIsOld(f: Filter)
    requires forall t :: f.apply(t) == Subdir(["a"], t)
    ensures Below(TARGET, BASE) && IsOld(f, TARGET, SEEN_BASE)
  {
    hide Image, Subdir, Narrow, Both;
    SeenAs(f);
    assert BASE in TARGET.parents && Below(BASE, BASE);
  }

  /** Merging the target into a commit made before it, keeping that commit's content: the merge is
      replayed with what the target has beside `a`, so that it no longer has its first parent's tree,
      and what is seen of it is only the first parent. */
  lemma LostPush(e: Push)
    requires forall t :: e.filter.apply(t) == Subdir(["a"], t)
    requires forall t, b :: e.unapply(t, b) == PutBack(["a"], t, b)
    requires !e.filter.options.linear && !e.filter.options.keepTrivialMerges
    requires e.related(MERGE.parents) || e.orphans == Keep
    ensures Image(e.filter, TARGET) == SEEN_TARGET
    ensures exists r :: IsReplay(r, e, map[], TARGET, {SEEN_TARGET}, MERGE, [MERGE, SIDE])
    ensures forall r :: IsReplay(r, e, map[], TARGET, {SEEN_TARGET}, MERGE, [MERGE, SIDE]) ==>
      Image(e.filter, r) == SIDE != MERGE
  {
    hide Image, Subdir, PutBack, LensLaws, ComesBack, Replayed, SoundCache, Narrow, Both, SameAt;
    SeenAs(e.filter);
    SubdirPush(["a"], e);
    SideReplayed(e);
    var (side, cache) := Replayed(e, map[], TARGET, SIDE).value;
    MergePicked(e, side, cache);
    assert MERGE !in cache by { MergeIsNew(); }
    LostStep(e, cache, TARGET, MERGE);
    var (o, after) := Replayed(e, cache, TARGET, MERGE).value;
    assert [SIDE, MERGE][1..] == [MERGE] && [MERGE][1..] == [];
    assert Run(e, after, o, TARGET, []) == Some((o, after));
    assert Run(e, cache, side, TARGET, [MERGE]) == Some((o, after));
    assert IsReplay(o, e, map[], TARGET, {SEEN_TARGET}, MERGE, [MERGE, SIDE]) by { MergeRange(); }
  }

  lemma SeenBelow(c: Oid)
    ensures Below(SEEN_TARGET, c) <==> c == SEEN_TARGET || c == SEEN_BASE
    ensures Below(MERGE, c) <==> c == MERGE || c == SIDE || Below(SEEN_TARGET, c)
  {
    hide Narrow;
    assert Below(SEEN_BASE, c) <==> c == SEEN_BASE;
    assert SEEN_BASE in SEEN_TARGET.parents && SEEN_BASE in SIDE.parents;
    assert SIDE in MERGE.parents && SEEN_TARGET in MERGE.parents;
    assert Below(SIDE, c) <==> c == SIDE || c == SEEN_BASE;
  }

  /** The merge, pushed on top of what is seen of the target, brings the side commit with it. */
  lemma MergeRange()
    ensures Topological([MERGE, SIDE], false) && Reverse([MERGE, SIDE]) == [SIDE, MERGE]
    ensures forall c :: c in [MERGE, SIDE] <==> Between(MERGE, {SEEN_TARGET}, c)
  {
    hide Narrow;
    MergeIsNew();
    NarrowDiffers("2", "1");
    NarrowDiffers("2", "0");
    SeenBelow(SEEN_BASE);
    forall c ensures c in [MERGE, SIDE] <==> Between(MERGE, {SEEN_TARGET}, c) {
      SeenBelow(c);
    }
  }

  lemma MergeIsNew()
    ensures MERGE != SIDE && MERGE != SEEN_BASE && MERGE != SEEN_TARGET
  {
  }

  /** The merge gets the tree put back onto the target, since that is the side with the target on it. */
  lemma MergePicked(e: Push, side: Oid, cache: Cache)
    requires (forall t, b :: e.unapply(t, b) == PutBack(["a"], t, b)) && Total(e)
    requires side.Commit? && side.parents == [BASE] && SameAt(side.tree, BASE.tree, "b")
    requires cache == map[SEEN_TARGET := TARGET, SEEN_BASE := BASE, SIDE := side]
    requires SEEN_BASE != SEEN_TARGET && !e.filter.options.keepTrivialMerges
    requires e.related(MERGE.parents) || e.orphans == Keep
    ensures Replayed(e, cache, TARGET, MERGE).Some? && !ComesBack(e, cache, TARGET, MERGE)
    ensures !MixedUnrelated(MERGE.parents) && Resolvable(e.filter, cache, TARGET, MERGE.parents)
  {
    hide Image, PutBack, Narrow, Both, SameAt, Originals, NewTrees, PickTree, History, IsOld, CacheAfter, BaseOf;
    var os := [side, TARGET];
    MergeOriginals(e.filter, side, cache);
    assert NewTrees(e, MERGE.tree, os).Some? by { TwoTrees(e, MERGE.tree, side, TARGET); }
    var trees := NewTrees(e, MERGE.tree, os).value;
    assert SameAt(trees[0], side.tree, "b") && SameAt(trees[1], TARGET.tree, "b") by {
      PutBeside(["a"], e, MERGE.tree, TreeOf(os[0]), trees[0], "b");
      PutBeside(["a"], e, MERGE.tree, TreeOf(os[1]), trees[1], "b");
    }
    assert side != TARGET && trees[1] != trees[0] && trees[1] != side.tree by { BesideDiffers(side, trees); }
    TargetSidePicked(e, side, trees);
    NotEmptyMerge();
  }

  lemma BesideDiffers(side: Oid, trees: seq<Tree>)
    requires side.Commit? && SameAt(side.tree, BASE.tree, "b") && |trees| == 2
    requires SameAt(trees[0], side.tree, "b") && SameAt(trees[1], TARGET.tree, "b")
    ensures side != TARGET && trees[1] != trees[0] && trees[1] != side.tree
  {
    assert BASE.tree.entries["b"] == Blob("0") && TARGET.tree.entries["b"] == Blob("1");
  }

  lemma NotEmptyMerge()
    ensures !MixedUnrelated(MERGE.parents)
  {
    assert "x" in Narrow("2").entries && "x" in Narrow("1").entries;
  }

  lemma MergeOriginals(f: Filter, side: Oid, cache: Cache)
    requires cache == map[SEEN_TARGET := TARGET, SEEN_BASE := BASE, SIDE := side]
    requires side.Commit? && SEEN_BASE != SEEN_TARGET
    ensures Originals(f, cache, TARGET, MERGE.parents) == ([side, TARGET], cache)
    ensures Resolvable(f, cache, TARGET, MERGE.parents)
  {
    hide Image, IsOld;
    var ps := MERGE.parents;
    NarrowDiffers("2", "1");
    NarrowDiffers("2", "0");
    OneOriginal(f, cache, TARGET, SEEN_TARGET);
    assert ps[1..] == [SEEN_TARGET] && [side] + [TARGET] == [side, TARGET];
  }

  lemma TwoTrees(e: Push, tree: Tree, a: Oid, b: Oid)
    requires Total(e)
    ensures NewTrees(e, tree, [a, b]).Some?
  {
    assert [a, b][1..] == [b] && [b][1..] == [];
    assert NewTrees(e, tree, []).Some?;
    assert NewTrees(e, tree, [b]).Some?;
  }

  lemma TargetSidePicked(e: Push, side: Oid, trees: seq<Tree>)
    requires side.Commit? && side.parents == [BASE] && side != TARGET && |trees| == 2 && trees[0] != trees[1]
    ensures PickTree(e, TARGET, MERGE.tree, [side, TARGET], trees) == Some(trees[1])
  {
    hide Narrow, Both, History;
    var os := [side, TARGET];
    assert ToSet(trees) == {trees[0], trees[1]};
    HistoryIsBelow(side, TARGET);
    HistoryIsBelow(TARGET, TARGET);
    assert !Below(side, TARGET);
    assert FirstOnTarget(TARGET, os, 0) == 0 && FirstOnTarget(TARGET, os, 1) == 1 && FirstOnTarget(TARGET, os, 2) == 1;
  }
}
