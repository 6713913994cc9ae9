/** Which tree a replayed commit is given, said without the code that picks it. */
module MergedTrees {
  import opened Objects
  import opened Filtering
  import opened Searches
  import opened Unapplying

  /** `os[i]` is the first original with the target in its history. */
  ghost predicate FirstAbove(target: Oid, os: seq<Oid>, i: nat) {
    i < |os| && Below(os[i], target) && forall j :: 0 <= j < i ==> !Below(os[j], target)
  }

  lemma {:induction false} FirstOnTargetIs(target: Oid, os: seq<Oid>, n: nat)
    requires n <= |os|
    ensures var i := FirstOnTarget(target, os, n);
      if i < n then FirstAbove(target, os, i) else i == n && forall j :: 0 <= j < n ==> !Below(os[j], target)
  {
    hide History, Below;
    if n == 0 {
    } else {
      FirstOnTargetIs(target, os, n - 1);
      HistoryIsBelow(os[n - 1], target);
    }
  }

  /** What the pushed tree becomes when it is put back onto each of the originals. */
  function Candidates(e: Push, tree: Tree, os: seq<Oid>): set<Tree> {
    set o | o in os && e.unapply(tree, TreeOf(o)).Some? :: e.unapply(tree, TreeOf(o)).value
  }

  lemma CandidatesAre(e: Push, tree: Tree, os: seq<Oid>)
    requires NewTrees(e, tree, os).Some?
    ensures Candidates(e, tree, os) == ToSet(NewTrees(e, tree, os).value)
  {
    var trees := NewTrees(e, tree, os).value;
    forall t ensures t in Candidates(e, tree, os) <==> t in trees {
      if t in trees {
        var i :| 0 <= i < |trees| && trees[i] == t;
        assert os[i] in os && e.unapply(tree, TreeOf(os[i])) == Some(t);
      }
      if t in Candidates(e, tree, os) {
        var o :| o in os && e.unapply(tree, TreeOf(o)) == Some(t);
        var i :| 0 <= i < |os| && os[i] == o;
        assert trees[i] == t;
      }
    }
  }

  /** Whichever side wins the conflicts between `a` and `b`, putting back onto their merge gives `t`. */
  ghost predicate OnMerge(e: Push, tree: Tree, a: Oid, b: Oid, t: Tree) {
    && e.merge(a, b, Ours).Some? && e.unapply(tree, e.merge(a, b, Ours).value) == Some(t)
    && e.merge(a, b, Theirs).Some? && e.unapply(tree, e.merge(a, b, Theirs).value) == Some(t)
  }

  /** `t` is what putting back onto the first original above the target gives. */
  ghost predicate OnFirstAbove(e: Push, target: Oid, tree: Tree, os: seq<Oid>, n: nat, t: Tree) {
    exists i: nat :: FirstAbove(target, os, i) && i < n && e.unapply(tree, TreeOf(os[i])) == Some(t)
  }

  ghost predicate NoneAbove(target: Oid, os: seq<Oid>, n: nat) {
    forall i :: 0 <= i < n && i < |os| ==> !Below(os[i], target)
  }

  /** The tree that a merge with the originals `os` is to have: the one candidate if all are the same;
      else the one put back onto the first original above the target, looking at no more originals than
      there are candidates; else, with two candidates, the one put back onto the merge. */
  ghost predicate GivenTree(e: Push, target: Oid, tree: Tree, os: seq<Oid>, t: Tree)
    requires |os| > 1
  {
    var n := |Candidates(e, tree, os)|;
    && (forall o :: o in os ==> e.unapply(tree, TreeOf(o)).Some?)
    && if n == 1 then e.unapply(tree, TreeOf(os[0])) == Some(t)
       else
         && target.Commit?
         && (OnFirstAbove(e, target, tree, os, n, t)
             || (NoneAbove(target, os, n) && n == 2 && OnMerge(e, tree, os[0], os[1], t)))
  }

  lemma {:induction false} AllPutBack(e: Push, tree: Tree, os: seq<Oid>)
    ensures NewTrees(e, tree, os).Some? <==> forall o :: o in os ==> e.unapply(tree, TreeOf(o)).Some?
  {
    if os == [] {
    } else {
      AllPutBack(e, tree, os[1..]);
      assert forall o :: o in os <==> o == os[0] || o in os[1..];
    }
  }

  lemma PickedIsGiven(e: Push, target: Oid, tree: Tree, os: seq<Oid>, t: Tree)
    requires |os| > 1
    ensures GivenTree(e, target, tree, os, t)
       <==> NewTrees(e, tree, os).Some? && PickTree(e, target, tree, os, NewTrees(e, tree, os).value) == Some(t)
  {
    hide Below, FirstOnTarget, NewTrees, TreeOf;
    AllPutBack(e, tree, os);
    if NewTrees(e, tree, os).Some? {
      var trees := NewTrees(e, tree, os).value;
      CandidatesAre(e, tree, os);
      ToSetSize(trees);
      assert trees[0] in ToSet(trees);
      FirstOnTargetIs(target, os, |ToSet(trees)|);
    }
  }

  /** A pushed commit with at least two originals becomes the commit with the tree it is to have on
      those originals, and is rejected if there is no such tree. */
  lemma MergeReplayed(e: Push, cache: Cache, target: Oid, rev: Oid)
    requires rev.Commit? && PushedParents(e, rev).Some?
    requires |Originals(e.filter, cache, target, PushedParents(e, rev).value).0| > 1
    ensures var os := Originals(e.filter, cache, target, PushedParents(e, rev).value).0;
      var step := Replayed(e, cache, target, rev);
      && (step.Some? ==>
            step.value.0 == Commit(TreeOf(step.value.0), os, rev.meta)
            && GivenTree(e, target, rev.tree, os, TreeOf(step.value.0)))
      && (step.None? ==> forall t :: !GivenTree(e, target, rev.tree, os, t))
  {
    hide GivenTree, PickTree, NewTrees, Originals, PushedParents;
    var os := Originals(e.filter, cache, target, PushedParents(e, rev).value).0;
    forall t ensures GivenTree(e, target, rev.tree, os, t) <==>
      NewTrees(e, rev.tree, os).Some?
      && PickTree(e, target, rev.tree, os, NewTrees(e, rev.tree, os).value) == Some(t)
    {
      PickedIsGiven(e, target, rev.tree, os, t);
    }
  }

  /** `o` is `rev` put onto `b`: `b` itself, if `rev` changed something and none of it is left there, and
      otherwise a commit on top of it. */
  ghost predicate PutOnto(e: Push, rev: Oid, b: Oid, o: Oid)
    requires rev.Commit?
  {
    var put := e.unapply(rev.tree, TreeOf(b));
    && put.Some?
    && if put == Some(TreeOf(b)) && (rev.parents == [] || rev.tree != TreeOf(rev.parents[0])) then o == b
       else o == Commit(put.value, [b], rev.meta)
  }

  /** A pushed commit with one original is put onto it, and one without onto the commit it is moved to. */
  lemma OneReplayed(e: Push, cache: Cache, target: Oid, rev: Oid, b: Oid)
    requires rev.Commit? && PushedParents(e, rev).Some?
    requires var os := Originals(e.filter, cache, target, PushedParents(e, rev).value).0;
      os == [b] || (os == [] && e.reparent == Some(b))
    ensures var step := Replayed(e, cache, target, rev);
      && (step.Some? ==> PutOnto(e, rev, b, step.value.0))
      && (step.None? <==> e.unapply(rev.tree, TreeOf(b)).None?)
  {
    hide Originals, PushedParents, TreeOf;
    var put := e.unapply(rev.tree, TreeOf(b));
    assert [b][1..] == [] && NewTrees(e, rev.tree, [b][1..]) == Some([]);
    if put.Some? {
      assert [put.value] + [] == [put.value];
      assert NewTrees(e, rev.tree, [b]) == Some([put.value]);
      assert ToSet([put.value]) == {put.value};
      assert PickTree(e, target, rev.tree, [b], [put.value]) == put;
    }
  }

  /** A pushed commit without an original that is not moved is put onto nothing. */
  lemma RootReplayed(e: Push, cache: Cache, target: Oid, rev: Oid)
    requires rev.Commit? && PushedParents(e, rev).Some? && e.reparent.None?
    requires Originals(e.filter, cache, target, PushedParents(e, rev).value).0 == []
    ensures var step, put := Replayed(e, cache, target, rev), e.unapply(rev.tree, EMPTY_TREE);
      && (step.Some? ==> put.Some? && step.value.0 == Commit(put.value, [], rev.meta))
      && (step.None? <==> put.None?)
  {
    hide Originals, PushedParents;
  }

  /** Two originals for which the pushed tree becomes different trees. */
  ghost predicate TwoSided(e: Push, cache: Cache, target: Oid, rev: Oid, a: Oid, b: Oid) {
    && rev.Commit? && target.Commit? && PushedParents(e, rev).Some?
    && Originals(e.filter, cache, target, PushedParents(e, rev).value).0 == [a, b]
    && e.unapply(rev.tree, TreeOf(a)).Some? && e.unapply(rev.tree, TreeOf(b)).Some?
    && e.unapply(rev.tree, TreeOf(a)) != e.unapply(rev.tree, TreeOf(b))
  }

  /** Then the merge gets the tree put back onto the original that is above the target, the first one
      if both are. If neither is, it gets the tree put back onto their merge, if that does not depend on
      which side wins; and if it does, or if they cannot be merged, the push is rejected. */
  lemma TwoSidedReplayed(e: Push, cache: Cache, target: Oid, rev: Oid, a: Oid, b: Oid)
    requires TwoSided(e, cache, target, rev, a, b)
    ensures var step := Replayed(e, cache, target, rev);
      var onA, onB := e.unapply(rev.tree, TreeOf(a)).value, e.unapply(rev.tree, TreeOf(b)).value;
      && (Below(a, target) ==> step.Some? && step.value.0 == Commit(onA, [a, b], rev.meta))
      && (!Below(a, target) && Below(b, target) ==> step.Some? && step.value.0 == Commit(onB, [a, b], rev.meta))
      && (!Below(a, target) && !Below(b, target) ==>
            && (forall t :: OnMerge(e, rev.tree, a, b, t) ==>
                  step.Some? && step.value.0 == Commit(t, [a, b], rev.meta))
            && ((forall t :: !OnMerge(e, rev.tree, a, b, t)) ==> step.None?))
  {
    hide Replayed, Originals, PushedParents, Below, OnMerge, TreeOf;
    var os := [a, b];
    MergeReplayed(e, cache, target, rev);
    TwoCandidates(e, rev.tree, a, b);
    if Below(a, target) {
      assert FirstAbove(target, os, 0);
      TreeAbove(e, target, rev.tree, os, 0);
    } else if Below(b, target) {
      assert FirstAbove(target, os, 1);
      TreeAbove(e, target, rev.tree, os, 1);
    } else {
      TreeOfMerge(e, target, rev.tree, a, b);
    }
  }

  lemma TwoCandidates(e: Push, tree: Tree, a: Oid, b: Oid)
    requires e.unapply(tree, TreeOf(a)).Some? && e.unapply(tree, TreeOf(b)).Some?
    requires e.unapply(tree, TreeOf(a)) != e.unapply(tree, TreeOf(b))
    ensures |Candidates(e, tree, [a, b])| == 2
  {
    var os := [a, b];
    assert a in os && b in os;
    assert Candidates(e, tree, os) == {e.unapply(tree, TreeOf(a)).value, e.unapply(tree, TreeOf(b)).value};
  }

  lemma TreeAbove(e: Push, target: Oid, tree: Tree, os: seq<Oid>, i: nat)
    requires |os| == 2 && |Candidates(e, tree, os)| == 2 && target.Commit? && FirstAbove(target, os, i)
    requires forall o :: o in os ==> e.unapply(tree, TreeOf(o)).Some?
    ensures forall t :: GivenTree(e, target, tree, os, t) <==> e.unapply(tree, TreeOf(os[i])) == Some(t)
  {
    hide Below, OnMerge, TreeOf, Candidates;
    assert os[i] in os;
    forall t ensures OnFirstAbove(e, target, tree, os, 2, t) <==> e.unapply(tree, TreeOf(os[i])) == Some(t) {
      if OnFirstAbove(e, target, tree, os, 2, t) {
        var j: nat :| FirstAbove(target, os, j) && j < 2 && e.unapply(tree, TreeOf(os[j])) == Some(t);
        assert j == i;
      }
    }
    assert !NoneAbove(target, os, 2);
  }

  lemma TreeOfMerge(e: Push, target: Oid, tree: Tree, a: Oid, b: Oid)
    requires |Candidates(e, tree, [a, b])| == 2 && target.Commit? && !Below(a, target) && !Below(b, target)
    requires e.unapply(tree, TreeOf(a)).Some? && e.unapply(tree, TreeOf(b)).Some?
    ensures forall t :: GivenTree(e, target, tree, [a, b], t) <==> OnMerge(e, tree, a, b, t)
    ensures forall t, u :: OnMerge(e, tree, a, b, t) && OnMerge(e, tree, a, b, u) ==> t == u
  {
    hide Below, TreeOf, Candidates;
    var os := [a, b];
    assert forall t :: !OnFirstAbove(e, target, tree, os, 2, t);
    assert NoneAbove(target, os, 2);
  }

  // ------------------------------------------------------------------ the tip of a push

  lemma {:induction false} OriginalsAdd(f: Filter, cache: Cache, target: Oid, ps: seq<Oid>)
    ensures Adds(f, cache, Originals(f, cache, target, ps).1, target, ps)
    decreases |ps|
  {
    hide Image, Found;
    if ps == [] {
    } else {
      var after := CacheAfter(f, cache, target, ps[0]);
      assert Adds(f, cache, after, target, [ps[0]]);
      OriginalsAdd(f, after, target, ps[1..]);
      assert forall p :: p in ps <==> p == ps[0] || p in ps[1..];
    }
  }

  lemma ReplayAdds(e: Push, cache: Cache, target: Oid, rev: Oid)
    requires rev.Commit? && Replayed(e, cache, target, rev).Some?
    ensures Adds(e.filter, cache, Replayed(e, cache, target, rev).value.1, target, [rev] + rev.parents)
  {
    hide Image, Originals, NewTrees, PickTree;
    var ps := PushedParents(e, rev).value;
    OriginalsAdd(e.filter, cache, target, ps);
    assert forall p :: p in ps ==> p in rev.parents;
  }

  /** Nothing is remembered as the zero id. */
  ghost predicate Proper(cache: Cache) {
    forall k :: k in cache ==> cache[k] != Zero
  }

  lemma {:induction false} AllOriginals(f: Filter, cache: Cache, target: Oid, ps: seq<Oid>)
    requires Proper(cache) && Resolvable(f, cache, target, ps)
    ensures |Originals(f, cache, target, ps).0| == |ps| && Proper(Originals(f, cache, target, ps).1)
    ensures Zero !in Originals(f, cache, target, ps).0
    decreases |ps|
  {
    hide Image, Found, IsOld;
    if ps == [] {
    } else {
      assert ps[0] in ps;
      FoundIffOld(f, target, ps[0]);
      AllOriginals(f, CacheAfter(f, cache, target, ps[0]), target, ps[1..]);
    }
  }

  lemma StepKeepsProper(e: Push, cache: Cache, target: Oid, rev: Oid)
    requires rev.Commit? && Proper(cache) && Resolvable(e.filter, cache, target, rev.parents)
    requires e.reparent != Some(Zero) && Replayed(e, cache, target, rev).Some?
    ensures Proper(Replayed(e, cache, target, rev).value.1) && rev in Replayed(e, cache, target, rev).value.1
  {
    hide Image, Originals, NewTrees, PickTree, Resolvable;
    var ps := PushedParents(e, rev).value;
    assert forall p :: p in ps ==> p in rev.parents;
    ResolvableSome(e.filter, cache, target, rev.parents, ps);
    AllOriginals(e.filter, cache, target, ps);
  }

  /** The result of a run is the replay of its last commit, if that cannot be skipped. */
  lemma {:induction false} LastReplayed(e: Push, cache: Cache, ret: Oid, target: Oid, revs: seq<Oid>)
    returns (before: Cache)
    requires revs != [] && (forall rev :: rev in revs ==> rev.Commit?) && SureToRun(e, cache, target, revs)
    requires Proper(cache) && Feasible(e.filter, cache, target, revs) && e.reparent != Some(Zero)
    requires Run(e, cache, ret, target, revs).Some?
    ensures Last(revs) in revs && Replayed(e, before, target, Last(revs)) == Run(e, cache, ret, target, revs)
    ensures Proper(before) && Resolvable(e.filter, before, target, Last(revs).parents)
    decreases |revs|
  {
    hide Image, Replayed, SureToRun, Adds, Proper, Feasible, Resolvable;
    var rest := revs[1..];
    if revs[0] in cache {
      SureSkip(e, cache, target, revs);
      FeasibleTail(e.filter, cache, cache, target, revs);
      before := LastReplayed(e, cache, ret, target, rest);
    } else {
      FeasibleHead(e.filter, cache, target, revs);
      if rest == [] {
        before := cache;
      } else {
        ReplayAdds(e, cache, target, revs[0]);
        StepKeepsProper(e, cache, target, revs[0]);
        var (o, after) := Replayed(e, cache, target, revs[0]).value;
        AddsKeeps(e.filter, cache, after, target, [revs[0]] + revs[0].parents);
        FeasibleTail(e.filter, cache, after, target, revs);
        SureStep(e, cache, after, target, revs);
        before := LastReplayed(e, after, o, target, rest);
      }
    }
  }

  /** `o` is what `rev`, with all its parents, is replayed as. */
  ghost predicate ReplayedAs(e: Push, target: Oid, rev: Oid, o: Oid) {
    && rev.Commit?
    && if |rev.parents| > 1 then
         && o.Commit? && o.meta == rev.meta && |o.parents| == |rev.parents|
         && GivenTree(e, target, rev.tree, o.parents, o.tree)
       else if |rev.parents| == 1 then exists b :: PutOnto(e, rev, b, o)
       else if e.reparent.Some? then PutOnto(e, rev, e.reparent.value, o)
       else o.Commit? && o == Commit(o.tree, [], rev.meta) && e.unapply(rev.tree, EMPTY_TREE) == Some(o.tree)
  }

  /** A commit that is replayed with all its parents. */
  predicate HasAllParents(e: Push, rev: Oid) {
    rev.Commit? && (|rev.parents| <= 1 || e.related(rev.parents) || e.orphans == Keep)
  }

  lemma StepAs(e: Push, cache: Cache, target: Oid, rev: Oid)
    requires HasAllParents(e, rev) && Replayed(e, cache, target, rev).Some?
    requires |Originals(e.filter, cache, target, rev.parents).0| == |rev.parents|
    ensures ReplayedAs(e, target, rev, Replayed(e, cache, target, rev).value.0)
  {
    hide Replayed, Originals, GivenTree, PutOnto;
    var os := Originals(e.filter, cache, target, rev.parents).0;
    if |rev.parents| > 1 {
      MergeReplayed(e, cache, target, rev);
    } else if |rev.parents| == 1 {
      assert os == [os[0]];
      OneReplayed(e, cache, target, rev, os[0]);
    } else if e.reparent.Some? {
      OneReplayed(e, cache, target, rev, e.reparent.value);
    } else {
      RootReplayed(e, cache, target, rev);
    }
  }

  /** A pushed commit, as the tip of a run, is replayed as said, whatever the run remembered before. */
  lemma TipTree(e: Push, cache: Cache, ret: Oid, target: Oid, revs: seq<Oid>)
    requires revs != [] && (forall rev :: rev in revs ==> rev.Commit?) && SureToRun(e, cache, target, revs)
    requires Proper(cache) && Feasible(e.filter, cache, target, revs) && e.reparent != Some(Zero)
    requires Run(e, cache, ret, target, revs).Some?
    ensures Last(revs) in revs
    ensures HasAllParents(e, Last(revs)) ==>
      ReplayedAs(e, target, Last(revs), Run(e, cache, ret, target, revs).value.0)
  {
    hide Run, Replayed, Image, Originals, SureToRun, ReplayedAs, Feasible, Proper, Resolvable;
    var before := LastReplayed(e, cache, ret, target, revs);
    var rev := Last(revs);
    if HasAllParents(e, rev) {
      AllOriginals(e.filter, before, target, rev.parents);
      StepAs(e, before, target, rev);
    }
  }

  // ------------------------------------------------------------------ which parents it gets

  /** Those of `ps` that have an original, remembered or waiting in the history of the target. */
  ghost function Known(f: Filter, cache: Cache, target: Oid, ps: seq<Oid>): seq<Oid> {
    if ps == [] then []
    else (if ps[0] in cache || IsOld(f, target, ps[0]) then [ps[0]] else []) + Known(f, cache, target, ps[1..])
  }

  lemma {:induction false} KnownSame(f: Filter, a: Cache, b: Cache, target: Oid, ps: seq<Oid>)
    requires forall k :: k in a || IsOld(f, target, k) <==> k in b || IsOld(f, target, k)
    ensures Known(f, a, target, ps) == Known(f, b, target, ps)
  {
    if ps == [] {
    } else {
      KnownSame(f, a, b, target, ps[1..]);
    }
  }

  /** The originals found filter to exactly the parents that have one, in their order. */
  lemma {:induction false} OriginalsOfKnown(f: Filter, cache: Cache, target: Oid, ps: seq<Oid>)
    requires SoundCache(f, cache) && Zero !in ps
    ensures Images(f, Originals(f, cache, target, ps).0) == Known(f, cache, target, ps)
    ensures SoundCache(f, Originals(f, cache, target, ps).1)
    decreases |ps|
  {
    hide Image, BaseOf, CacheAfter, IsOld, SoundCache;
    if ps == [] {
    } else {
      var after, b := CacheAfter(f, cache, target, ps[0]), BaseOf(f, cache, target, ps[0]);
      SearchKeepsCache(f, cache, target, ps[0]);
      OriginalsOfKnown(f, after, target, ps[1..]);
      KnownSame(f, cache, after, target, ps[1..]);
      var rest := Originals(f, after, target, ps[1..]).0;
      assert Images(f, [b] + rest) == [Image(f, b)] + Images(f, rest);
      assert [] + rest == rest;
    }
  }

  /** A merge of unrelated histories is rejected, cut down by its last parent, or kept, as the push is
      told to. */
  lemma OrphanReplayed(e: Push, cache: Cache, target: Oid, rev: Oid)
    requires rev.Commit? && |rev.parents| > 1 && !e.related(rev.parents)
    requires LensLaws(e) && SoundCache(e.filter, cache) && Resolvable(e.filter, cache, target, rev.parents)
    ensures e.orphans == Reject ==> Replayed(e, cache, target, rev).None?
    ensures e.orphans != Reject && Replayed(e, cache, target, rev).Some? ==>
      var o := Replayed(e, cache, target, rev).value.0;
      && o.Commit? && o.meta == rev.meta
      && Images(e.filter, o.parents) == if e.orphans == Remove then Init(rev.parents) else rev.parents
  {
    hide Image, Originals, NewTrees, PickTree, SoundCache, Resolvable, LensLaws, Adds;
    if e.orphans != Reject && Replayed(e, cache, target, rev).Some? {
      var ps := PushedParents(e, rev).value;
      ResolvableSome(e.filter, cache, target, rev.parents, ps);
      OriginalsFound(e.filter, cache, target, ps);
      var os := Originals(e.filter, cache, target, ps).0;
      if |os| == 1 {
        NoCollapse(e, target, rev, os);
      }
    }
  }

  lemma NoCollapse(e: Push, target: Oid, rev: Oid, os: seq<Oid>)
    requires LensLaws(e) && rev.Commit? && |os| == 1 && rev.parents != []
    requires Image(e.filter, os[0]) == rev.parents[0] && rev.parents[0].Commit?
    requires Picked(e, target, rev, os).Some?
    ensures !Collapses(rev, os, Picked(e, target, rev, os).value)
  {
    hide Image, PickTree, NewTrees;
    PickedFilters(e, target, rev.tree, os, NewTrees(e, rev.tree, os).value);
    OriginalIsCommit(e.filter, os[0], rev.parents[0]);
  }
}
