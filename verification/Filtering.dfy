/** Forward filtering: how one commit of the original history becomes a commit of the filtered
    history, or is dropped from it, and what that does to whole histories. */
module Filtering {
  import opened Objects

  /** The two `history` options that change which parents survive. */
  datatype Options = Options(linear: bool, keepTrivialMerges: bool)

  /** A filter, as far as history rewriting is concerned: what it does to a tree. */
  datatype Filter = Filter(apply: Tree -> Tree, options: Options)

  // ------------------------------------------------------------------ trees and roots

  /** Nothing but (recursively) empty trees. */
  predicate IsEmptyRoot(t: Entry) {
    t.Dir? && forall k :: k in t.entries ==> IsEmptyRoot(t.entries[k])
  }

  /** The tree of a commit; the zero id counts as the empty tree. */
  function TreeOf(c: Oid): Tree {
    if c.Commit? then c.tree else EMPTY_TREE
  }

  /** The parentless commits below `c`. */
  function Roots(c: Oid): set<Oid> {
    if c.Commit? && c.parents != [] then AllRoots(c.parents) else {c}
  }

  function AllRoots(cs: seq<Oid>): set<Oid> {
    if cs == [] then {} else Roots(cs[0]) + AllRoots(cs[1..])
  }

  /** Whether all of `cs` have a root in common. */
  predicate ShareRoot(cs: seq<Oid>) {
    cs != [] && exists r :: r in Roots(cs[0]) && forall c :: c in cs ==> r in Roots(c)
  }

  // ------------------------------------------------------------------ one commit

  function NonZero(cs: seq<Oid>): (r: seq<Oid>)
    ensures forall c :: c in r <==> c in cs && c != Zero
    ensures |r| <= |cs| && (|r| == |cs| ==> r == cs)
  {
    if cs == [] then [] else (if cs[0] == Zero then [] else [cs[0]]) + NonZero(cs[1..])
  }

  function WithContent(cs: seq<Oid>): (r: seq<Oid>)
    ensures forall c :: c in r <==> c in cs && TreeOf(c) != EMPTY_TREE
    ensures |r| <= |cs|
    ensures (exists c :: c in cs && TreeOf(c) == EMPTY_TREE) ==> |r| < |cs|
  {
    if cs == [] then []
    else
      assert forall c :: c in cs <==> c == cs[0] || c in cs[1..];
      (if TreeOf(cs[0]) == EMPTY_TREE then [] else [cs[0]]) + WithContent(cs[1..])
  }

  /** A merge of unrelated histories some of which have an empty tip and some not. */
  predicate MixedUnrelated(cs: seq<Oid>) {
    && |cs| > 1 && !ShareRoot(cs)
    && (exists c :: c in cs && TreeOf(c) == EMPTY_TREE)
    && (exists c :: c in cs && TreeOf(c) != EMPTY_TREE)
  }

  /** The filtered parents a commit may keep. */
  function KeptParents(images: seq<Oid>, linear: bool): (r: seq<Oid>)
    ensures forall c :: c in r ==> c in images && c != Zero
    ensures |r| <= |images|
    ensures linear ==> |r| <= 1
  {
    var present := NonZero(images);
    var pruned := if MixedUnrelated(present) then WithContent(present) else present;
    assert forall c :: c in pruned ==> c in present;
    if linear && |pruned| > 1 then
      assert pruned[..1] == [pruned[0]] && pruned[0] in pruned;
      pruned[..1]
    else pruned
  }

  predicate WasTrivialMerge(c: Oid) {
    c.Commit? && c.parents != [] && TreeOf(c.parents[0]) == c.tree
  }

  /** The commit leaves every parent's tree as it is. */
  predicate ChangesNothing(c: Oid) {
    c.Commit? && forall p :: p in c.parents ==> TreeOf(p) == c.tree
  }

  /** The filtered commit of `c` when its tree filters to `tree` and its parents to `images`. */
  function FilterCommit(c: Oid, images: seq<Oid>, tree: Tree, options: Options): (r: Oid)
    requires c.Commit?
  {
    var kept := KeptParents(images, options.linear);
    if !options.keepTrivialMerges && |kept| > 1 && TreeOf(kept[0]) == tree && !WasTrivialMerge(c) then
      kept[0]
    else if kept != [] then
      if (exists p :: p in kept && TreeOf(p) != tree) || ChangesNothing(c) then Commit(tree, kept, c.meta)
      else kept[0]
    else if tree == EMPTY_TREE && !(c.parents == [] && IsEmptyRoot(c.tree)) then Zero
    else Commit(tree, [], c.meta)
  }

  // ------------------------------------------------------------------ whole histories

  /** The filtered history: parents first, every commit from its filtered parents. */
  function Image(f: Filter, c: Oid): Oid {
    if c.Commit? then FilterCommit(c, Images(f, c.parents), f.apply(c.tree), f.options) else Zero
  }

  function Images(f: Filter, cs: seq<Oid>): (r: seq<Oid>)
    ensures |r| == |cs|
    ensures forall i :: 0 <= i < |cs| ==> r[i] == Image(f, cs[i])
  {
    if cs == [] then [] else [Image(f, cs[0])] + Images(f, cs[1..])
  }

  /** A filtered commit is new, or one of the filtered parents, or nothing at all. */
  lemma FilterCommitCases(c: Oid, images: seq<Oid>, tree: Tree, options: Options)
    requires c.Commit?
    ensures var r := FilterCommit(c, images, tree, options);
      || r == Zero
      || r in images
      || (r == Commit(tree, r.parents, c.meta) && forall p :: p in r.parents ==> p in images && p != Zero)
    ensures TreeOf(FilterCommit(c, images, tree, options)) == tree
  {
    hide MixedUnrelated, IsEmptyRoot, ShareRoot;
    var kept := KeptParents(images, options.linear);
    if kept != [] {
      assert kept[0] in kept;
    }
  }

  /** Simplification never changes content: whatever is dropped, elided or pruned, the filtered
      commit carries the filtered tree. */
  lemma ContentPreserved(f: Filter, c: Oid)
    requires c.Commit?
    ensures TreeOf(Image(f, c)) == f.apply(c.tree)
  {
    FilterCommitCases(c, Images(f, c.parents), f.apply(c.tree), f.options);
  }

  lemma {:induction false} ImageIsCommitOrZero(f: Filter, c: Oid)
    ensures Image(f, c).Zero? || Image(f, c).Commit?
  {
    hide FilterCommit;
    if c.Commit? {
      FilterCommitCases(c, Images(f, c.parents), f.apply(c.tree), f.options);
      forall p | p in c.parents ensures Image(f, p).Zero? || Image(f, p).Commit? {
        ImageIsCommitOrZero(f, p);
      }
    }
  }

  /** A filtered commit that is not simply one of its filtered parents was written for `c`: it
      carries the metadata of `c`, and its parents are images of parents of `c`. */
  lemma WrittenFromParents(f: Filter, c: Oid)
    requires c.Commit? && Image(f, c) != Zero && Image(f, c) !in Images(f, c.parents)
    ensures Image(f, c).Commit? && Image(f, c).meta == c.meta
    ensures forall q :: q in Image(f, c).parents ==> exists p :: p in c.parents && Image(f, p) == q
  {
    hide FilterCommit;
    FilterCommitCases(c, Images(f, c.parents), f.apply(c.tree), f.options);
    forall q | q in Image(f, c).parents ensures exists p :: p in c.parents && Image(f, p) == q {
      var i :| 0 <= i < |c.parents| && Images(f, c.parents)[i] == q;
      assert c.parents[i] in c.parents;
    }
  }

  /** Every ancestor of the image is the image of an ancestor. */
  lemma {:induction false} AncestorsAreImages(f: Filter, c: Oid, x: Oid) returns (a: Oid)
    requires Below(Image(f, c), x) && x != Zero
    ensures Below(c, a) && Image(f, a) == x
    decreases c
  {
    hide FilterCommit;
    a := c;
    if Image(f, c) == x {
    } else {
      var images := Images(f, c.parents);
      FilterCommitCases(c, images, f.apply(c.tree), f.options);
      var q: Oid;
      if Image(f, c) in images {
        q := Image(f, c);
      } else {
        q :| q in Image(f, c).parents && Below(q, x);
      }
      var i :| 0 <= i < |images| && images[i] == q;
      a := AncestorsAreImages(f, c.parents[i], x);
      assert c.parents[i] in c.parents;
    }
  }

  /** Filtered history consists of commits. */
  lemma {:induction false} ImagesAreCommits(f: Filter, c: Oid, x: Oid)
    requires Image(f, c) != Zero && Below(Image(f, c), x)
    ensures x.Commit?
    decreases c
  {
    hide FilterCommit;
    if Image(f, c) == x {
      ImageIsCommitOrZero(f, c);
    } else {
      var images := Images(f, c.parents);
      FilterCommitCases(c, images, f.apply(c.tree), f.options);
      var q: Oid;
      if Image(f, c) in images {
        q := Image(f, c);
      } else {
        q :| q in Image(f, c).parents && Below(q, x);
      }
      var i :| 0 <= i < |images| && images[i] == q;
      ImagesAreCommits(f, c.parents[i], x);
    }
  }

  lemma {:induction false} ImageNotDeeper(f: Filter, c: Oid)
    ensures Depth(Image(f, c)) <= Depth(c)
  {
    hide FilterCommit;
    if c.Commit? {
      var images, r := Images(f, c.parents), Image(f, c);
      FilterCommitCases(c, images, f.apply(c.tree), f.options);
      forall x | x in images ensures Depth(x) <= MaxDepth(c.parents) {
        var i :| 0 <= i < |images| && images[i] == x;
        ImageNotDeeper(f, c.parents[i]);
        assert c.parents[i] in c.parents;
      }
      if r.Commit? && r !in images {
        MaxDepthBound(r.parents, MaxDepth(c.parents));
      }
    }
  }

  /** Pruning and truncation are visible in the number of parents. */
  lemma KeptAll(images: seq<Oid>, linear: bool)
    ensures KeptParents(images, linear) == images
        <==> Zero !in images && !MixedUnrelated(images) && !(linear && |images| > 1)
    ensures |KeptParents(images, linear)| == |images| ==> KeptParents(images, linear) == images
  {
    hide ShareRoot;
    NonZeroAll(images);
  }

  lemma {:induction false} NonZeroAll(cs: seq<Oid>)
    ensures Zero !in cs ==> NonZero(cs) == cs
  {
    if cs != [] && Zero !in cs {
      NonZeroAll(cs[1..]);
      assert cs == [cs[0]] + cs[1..];
    }
  }

  // ------------------------------------------------------------------ the identity filter

  ghost predicate IsIdentity(f: Filter) {
    f.options == Options(false, false) && forall t :: f.apply(t) == t
  }

  /** No merge below `c` joins unrelated histories with empty and non-empty tips. */
  ghost predicate Unmixed(c: Oid) {
    forall a :: Below(c, a) && a.Commit? ==> !MixedUnrelated(a.parents)
  }

  lemma UnmixedParents(c: Oid)
    requires c.Commit?
    ensures Unmixed(c) <==> !MixedUnrelated(c.parents) && forall p :: p in c.parents ==> Unmixed(p)
  {
    hide MixedUnrelated;
    assert Below(c, c);
    if Unmixed(c) {
      forall p, a | p in c.parents && Below(p, a) && a.Commit? ensures !MixedUnrelated(a.parents) {
        assert Below(c, a);
      }
    }
  }

  /** Without options, filtering with the identity keeps a history exactly as it is (empty
      commits, trivial merges and empty roots included) unless it has such a merge. */
  lemma {:induction false} IdentityImage(f: Filter, c: Oid)
    requires IsIdentity(f) && forall x :: Below(c, x) ==> x.Commit?
    ensures Image(f, c) == c <==> Unmixed(c)
    decreases c
  {
    hide MixedUnrelated, FilterCommit, Unmixed, Image;
    assert Below(c, c);
    forall p | p in c.parents ensures (Image(f, p) == p <==> Unmixed(p)) && p != Zero {
      forall x | Below(p, x) ensures x.Commit? {
        assert Below(c, x);
      }
      assert Below(p, p);
      IdentityImage(f, p);
    }
    UnmixedParents(c);
    if Image(f, c) == c {
      IdentityNeedsParents(f, c);
    }
    if Images(f, c.parents) == c.parents {
      forall p | p in c.parents ensures Image(f, p) == p {
      }
      IdentityStep(f, c);
    }
  }

  lemma IdentityNeedsParents(f: Filter, c: Oid)
    requires c.Commit? && Image(f, c) == c
    ensures Images(f, c.parents) == c.parents
  {
    hide FilterCommit;
    var images := Images(f, c.parents);
    forall x | x in images ensures Depth(x) < Depth(c) {
      var i :| 0 <= i < |images| && images[i] == x;
      ImageNotDeeper(f, c.parents[i]);
      assert c.parents[i] in c.parents;
    }
    WrittenKept(c, images, f.apply(c.tree), f.options);
    KeptAll(images, f.options.linear);
  }

  lemma WrittenKept(c: Oid, images: seq<Oid>, tree: Tree, options: Options)
    requires c.Commit?
    ensures var r := FilterCommit(c, images, tree, options);
      r == Zero || r in images || r == Commit(tree, KeptParents(images, options.linear), c.meta)
  {
    hide MixedUnrelated, ShareRoot;
  }

  lemma IdentityStep(f: Filter, c: Oid)
    requires IsIdentity(f) && c.Commit? && Images(f, c.parents) == c.parents
    requires Zero !in c.parents
    ensures Image(f, c) == c <==> !MixedUnrelated(c.parents)
  {
    hide MixedUnrelated, ShareRoot, KeptParents;
    KeptAll(c.parents, false);
    NotOwnParent(c);
  }

  // ------------------------------------------------------------------ rebuilt commits

  /** When a commit `o`, whose tree and parents filter to those of `rev`, filters to `rev`. */
  predicate Rebuilds(options: Options, o: Oid, rev: Oid)
    requires o.Commit? && rev.Commit? && |o.parents| == |rev.parents|
  {
    && !MixedUnrelated(rev.parents)
    && (|rev.parents| > 1 ==> !options.linear)
    && (|rev.parents| > 1 && !options.keepTrivialMerges && TreeOf(rev.parents[0]) == rev.tree ==>
          TreeOf(o.parents[0]) == o.tree)
    && (rev.parents != [] && ChangesNothing(rev) ==> ChangesNothing(o))
    && (rev.parents == [] && rev.tree == EMPTY_TREE ==> IsEmptyRoot(o.tree))
  }

  lemma RebuiltImage(f: Filter, o: Oid, rev: Oid)
    requires o.Commit? && rev.Commit? && o.meta == rev.meta && f.apply(o.tree) == rev.tree
    requires Images(f, o.parents) == rev.parents && Zero !in rev.parents
    ensures Image(f, o) == rev <==> Rebuilds(f.options, o, rev)
  {
    hide MixedUnrelated, ShareRoot, KeptParents, IsEmptyRoot;
    KeptAll(rev.parents, f.options.linear);
    NotOwnParent(rev);
  }

  /** A merge that is not rebuilt is lost: it filters to its first parent. */
  lemma LostMerge(f: Filter, o: Oid, rev: Oid)
    requires o.Commit? && rev.Commit? && o.meta == rev.meta && f.apply(o.tree) == rev.tree
    requires Images(f, o.parents) == rev.parents && Zero !in rev.parents && |rev.parents| > 1
    requires !f.options.linear && !MixedUnrelated(rev.parents) && !Rebuilds(f.options, o, rev)
    ensures Image(f, o) == rev.parents[0] != rev
  {
    hide MixedUnrelated, ShareRoot, KeptParents;
    KeptAll(rev.parents, false);
    NotOwnParent(rev);
  }

  /** A commit that does not have more parents than `rev` only filters to `rev` if they filter to those
      of `rev`, or one of them to `rev` itself. */
  lemma WrongParents(f: Filter, o: Oid, rev: Oid)
    requires o.Commit? && rev.Commit? && |o.parents| <= |rev.parents|
    requires Images(f, o.parents) != rev.parents && rev !in Images(f, o.parents)
    ensures Image(f, o) != rev
  {
    hide MixedUnrelated, ShareRoot, KeptParents, IsEmptyRoot;
    KeptAll(Images(f, o.parents), f.options.linear);
  }

  // ------------------------------------------------------------------ the rewriting step

  lemma {:induction false} NonZeroSnoc(cs: seq<Oid>, c: Oid)
    ensures NonZero(cs + [c]) == NonZero(cs) + (if c == Zero then [] else [c])
  {
    if cs == [] {
      assert cs + [c] == [c] && [c][1..] == [];
    } else {
      assert (cs + [c])[1..] == cs[1..] + [c];
      NonZeroSnoc(cs[1..], c);
    }
  }

  lemma {:induction false} WithContentSnoc(cs: seq<Oid>, c: Oid)
    ensures WithContent(cs + [c]) == WithContent(cs) + (if TreeOf(c) == EMPTY_TREE then [] else [c])
  {
    if cs == [] {
      assert cs + [c] == [c] && [c][1..] == [];
    } else {
      assert (cs + [c])[1..] == cs[1..] + [c];
      WithContentSnoc(cs[1..], c);
    }
  }

  method PresentParents(images: seq<Oid>) returns (ps: seq<Oid>)
    ensures ps == NonZero(images)
  {
    hide NonZero;
    ps := [];
    for i := 0 to |images|
      invariant ps == NonZero(images[..i])
    {
      NonZeroSnoc(images[..i], images[i]);
      assert images[..i + 1] == images[..i] + [images[i]];
      if images[i] != Zero {
        ps := ps + [images[i]];
      }
    }
    assert images[..|images|] == images;
  }

  method RetainContent(ps: seq<Oid>) returns (rs: seq<Oid>)
    ensures rs == WithContent(ps)
  {
    hide WithContent;
    rs := [];
    for i := 0 to |ps|
      invariant rs == WithContent(ps[..i])
    {
      WithContentSnoc(ps[..i], ps[i]);
      assert ps[..i + 1] == ps[..i] + [ps[i]];
      if TreeOf(ps[i]) != EMPTY_TREE {
        rs := rs + [ps[i]];
      }
    }
    assert ps[..|ps|] == ps;
  }

  /** The parents a written commit gets; none means the commit is dropped. */
  method SelectParentCommits(c: Oid, tree: Tree, ps: seq<Oid>) returns (selected: seq<Oid>)
    requires c.Commit?
    ensures selected == if (exists p :: p in ps && TreeOf(p) != tree) || ChangesNothing(c) then ps else []
  {
    var affects := exists p :: p in ps && TreeOf(p) != tree;
    var allDiffsEmpty := true;
    for i := 0 to |c.parents|
      invariant allDiffsEmpty
      invariant forall k :: 0 <= k < i ==> TreeOf(c.parents[k]) == c.tree
    {
      if TreeOf(c.parents[i]) != c.tree {
        allDiffsEmpty := false;
        assert c.parents[i] in c.parents;
        break;
      }
    }
    selected := if affects || allDiffsEmpty then ps else [];
  }

  /** Prune the empty side of an initial merge, then truncate for linear history. */
  method KeepParents(images: seq<Oid>, linear: bool) returns (ps: seq<Oid>)
    ensures ps == KeptParents(images, linear)
  {
    hide ShareRoot, NonZero, WithContent;
    ps := PresentParents(images);
    if exists p :: p in ps && TreeOf(p) == EMPTY_TREE {
      var isInitialMerge := |ps| > 1 && !ShareRoot(ps);
      if isInitialMerge && exists p :: p in ps && TreeOf(p) != EMPTY_TREE {
        ps := RetainContent(ps);
      }
    }
    if linear && |ps| > 1 {
      ps := ps[..1];
    }
  }

  method CreateFilteredCommit(c: Oid, images: seq<Oid>, tree: Tree, options: Options)
    returns (r: Oid, isNew: bool)
    requires c.Commit?
    ensures r == FilterCommit(c, images, tree, options)
    ensures isNew ==> r.Commit? && r.tree == tree && r.meta == c.meta
    ensures !isNew ==> r == Zero || r in images
  {
    hide KeptParents, IsEmptyRoot;
    var ps := KeepParents(images, options.linear);
    if !options.keepTrivialMerges && |ps| > 1 {
      var isTrivialMerge := TreeOf(ps[0]) == tree;
      var wasTrivialMerge := c.parents != [] && TreeOf(c.parents[0]) == c.tree;
      if isTrivialMerge && !wasTrivialMerge {
        assert ps[0] in ps;
        return ps[0], false;
      }
    }
    var selected := SelectParentCommits(c, tree, ps);
    if selected == [] && !(c.parents == [] && IsEmptyRoot(c.tree)) {
      if ps != [] {
        assert ps[0] in ps;
        return ps[0], false;
      }
      if tree == EMPTY_TREE {
        return Zero, false;
      }
    }
    return Commit(tree, selected, c.meta), true;
  }
}
