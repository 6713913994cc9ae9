/** The push itself: the commits between the old and the new tip are found and replayed. */
module Pushing {
  import opened Objects
  import opened RevWalks
  import opened RangeWalks
  import opened Filtering
  import opened Searches
  import opened Unapplying
  import opened ExactRuns
  import opened MergedTrees

  // ------------------------------------------------------------------ one commit

  /** Look up the originals of `ps`, dropping the ones that are not found. */
  method LookUpParents(odb: Odb, f: Filter, cache: Cache, target: Oid, ps: seq<Oid>)
    returns (ok: bool, os: seq<Oid>, cache': Cache)
    ensures ok ==> (os, cache') == Originals(f, cache, target, ps)
    ensures target == Zero || Complete(odb, target) ==> ok
  {
    hide Image, BaseOf, CacheAfter, Complete, Originals;
    ok, os, cache' := true, [], cache;
    ghost var all := Originals(f, cache, target, ps);
    assert ps[0..] == ps && [] + all.0 == all.0;
    for i := 0 to |ps|
      invariant all.0 == os + Originals(f, cache', target, ps[i..]).0
      invariant all.1 == Originals(f, cache', target, ps[i..]).1
    {
      OriginalsStep(f, cache', target, os, ps[i..]);
      assert ps[i..][1..] == ps[i + 1..];
      var b;
      b, cache' := FindUnapplyBase(odb, f, cache', target, ps[i]);
      if b.Err? {
        return false, os, cache';
      }
      if b.value != Zero {
        os := os + [b.value];
      }
    }
    OriginalsDone(f, cache', target, ps[|ps|..]);
    assert os + [] == os;
  }

  lemma OriginalsStep(f: Filter, cache: Cache, target: Oid, os: seq<Oid>, ps: seq<Oid>)
    requires ps != []
    ensures var b := BaseOf(f, cache, target, ps[0]);
      var rest := Originals(f, CacheAfter(f, cache, target, ps[0]), target, ps[1..]);
      var all := Originals(f, cache, target, ps);
      os + all.0 == (if b == Zero then os else os + [b]) + rest.0 && all.1 == rest.1
  {
    hide BaseOf, CacheAfter;
    var b := BaseOf(f, cache, target, ps[0]);
    var rest := Originals(f, CacheAfter(f, cache, target, ps[0]), target, ps[1..]).0;
    assert os + ([b] + rest) == (os + [b]) + rest && [] + rest == rest;
  }

  method UnapplyOntoParents(e: Push, tree: Tree, os: seq<Oid>) returns (trees: Option<seq<Tree>>)
    ensures trees == NewTrees(e, tree, os)
  {
    var out: seq<Tree> := [];
    assert os[0..] == os;
    PrependedNothing(NewTrees(e, tree, os));
    for i := 0 to |os|
      invariant |out| == i
      invariant NewTrees(e, tree, os) == Prepended(out, NewTrees(e, tree, os[i..]))
    {
      assert os[i..][1..] == os[i + 1..];
      var t := e.unapply(tree, TreeOf(os[i]));
      if t.None? {
        return None;
      }
      PrependedStep(out, t.value, NewTrees(e, tree, os[i + 1..]));
      out := out + [t.value];
    }
    assert os[|os|..] == [] && out + [] == out;
    trees := Some(out);
  }

  ghost function Prepended<T>(a: seq<T>, b: Option<seq<T>>): Option<seq<T>> {
    if b.None? then None else Some(a + b.value)
  }

  lemma PrependedNothing<T>(b: Option<seq<T>>)
    ensures Prepended([], b) == b
  {
    assert b.Some? ==> [] + b.value == b.value;
  }

  lemma PrependedStep<T>(a: seq<T>, x: T, b: Option<seq<T>>)
    ensures Prepended(a, if b.None? then None else Some([x] + b.value)) == Prepended(a + [x], b)
  {
    if b.Some? {
      assert a + ([x] + b.value) == (a + [x]) + b.value;
    }
  }

  method ChooseTree(e: Push, target: Oid, tree: Tree, os: seq<Oid>, trees: seq<Tree>)
    returns (r: Option<Tree>)
    requires |trees| == |os|
    ensures r == PickTree(e, target, tree, os, trees)
  {
    ToSetSize(trees);
    var distinct := |ToSet(trees)|;
    if trees == [] {
      return e.unapply(tree, EMPTY_TREE);
    }
    assert trees[0] in ToSet(trees);
    if distinct == 1 {
      return Some(trees[0]);
    }
    if !target.Commit? {
      return None;
    }
    for i := 0 to distinct
      invariant FirstOnTarget(target, os, i) == i
    {
      if target in History(os[i]) {
        FirstOnTargetStays(target, os, i, distinct);
        return Some(trees[i]);
      }
    }
    if distinct == 2 {
      r := MergeBoth(e, tree, os[0], os[1]);
    } else {
      r := None;
    }
  }

  lemma {:induction false} FirstOnTargetStays(target: Oid, os: seq<Oid>, i: nat, n: nat)
    requires i < n <= |os| && FirstOnTarget(target, os, i) == i && target in History(os[i])
    ensures FirstOnTarget(target, os, n) == i
    decreases n
  {
    if n > i + 1 {
      FirstOnTargetStays(target, os, i, n - 1);
    }
  }

  /** The commit that stands for `rev` on the originals `os`. */
  method Rebuild(e: Push, target: Oid, rev: Oid, os: seq<Oid>) returns (o: Option<Oid>)
    requires rev.Commit?
    ensures var tree := Picked(e, target, rev, os);
      o == if tree.None? then None
           else Some(if Collapses(rev, os, tree.value) then os[0] else Commit(tree.value, os, rev.meta))
  {
    hide NewTrees, PickTree, TreeOf;
    var trees := UnapplyOntoParents(e, rev.tree, os);
    if trees.None? {
      return None;
    }
    var tree := ChooseTree(e, target, rev.tree, os, trees.value);
    if tree.None? {
      return None;
    }
    if |os| == 1 && tree.value == TreeOf(os[0]) && (rev.parents == [] || rev.tree != TreeOf(rev.parents[0])) {
      return Some(os[0]);
    }
    o := Some(Commit(tree.value, os, rev.meta));
  }

  /** Replay one pushed commit. */
  method ReplayCommit(odb: Odb, e: Push, cache: Cache, target: Oid, rev: Oid) returns (r: Option<(Oid, Cache)>)
    requires rev.Commit?
    ensures r.Some? ==> r == Replayed(e, cache, target, rev)
    ensures target == Zero || Complete(odb, target) ==> r == Replayed(e, cache, target, rev)
  {
    hide Image, Originals, NewTrees, PickTree, Complete, BaseOf, CacheAfter, Collapses;
    var ps := rev.parents;
    if |ps| > 1 && !e.related(ps) {
      if e.orphans == Reject {
        return None;
      }
      if e.orphans == Remove {
        ps := ps[..|ps| - 1];
      }
    }
    assert PushedParents(e, rev) == Some(ps);
    var ok, os, after := LookUpParents(odb, e.filter, cache, target, ps);
    if !ok {
      return None;
    }
    if os == [] && e.reparent.Some? {
      os := [e.reparent.value];
    }
    var o := Rebuild(e, target, rev, os);
    if o.None? {
      return None;
    }
    r := Some((o.value, after[rev := o.value]));
  }

  /** The replay loop, over a children-first list back to front. */
  method ReplayAll(odb: Odb, e: Push, start: Cache, target: Oid, out: seq<Oid>) returns (r: Result<Oid>)
    requires forall rev :: rev in out ==> rev.Commit?
    ensures forall rev :: rev in Reverse(out) ==> rev.Commit?
    ensures r.Ok? ==> Run(e, start, target, target, Reverse(out)).Some?
    ensures r.Ok? ==> r.value == Run(e, start, target, target, Reverse(out)).value.0
    ensures Run(e, start, target, target, Reverse(out)).Some? && (target == Zero || Complete(odb, target)) ==> r.Ok?
  {
    hide Image, Replayed, Complete;
    ReverseSame(out);
    var revs := Reverse(out);
    var cache, ret := start, target;
    for i := 0 to |revs|
      invariant forall rev :: rev in revs[i..] ==> rev.Commit?
      invariant Run(e, start, target, target, revs) == Run(e, cache, ret, target, revs[i..])
    {
      var rev := revs[i];
      assert rev in revs && revs[i..][1..] == revs[i + 1..];
      if rev in cache {
        continue;
      }
      var step := ReplayCommit(odb, e, cache, target, rev);
      if step.None? {
        return Err;
      }
      ret, cache := step.value.0, step.value.1;
    }
    assert revs[|revs|..] == [];
    r := Ok(ret);
  }

  // ------------------------------------------------------------------ the pushed range

  /** Everything below an image of the target's history is one. */
  lemma OldBelow(f: Filter, target: Oid, base: Oid, p: Oid)
    requires IsOld(f, target, base) && Below(base, p)
    ensures p.Commit? && IsOld(f, target, p)
  {
    hide Image;
    var a :| Below(target, a) && a != Zero && Image(f, a) == base;
    ImagesAreCommits(f, a, p);
    var x := AncestorsAreImages(f, a, p);
    BelowTransitive(target, a, x);
    ZeroImage(f);
  }

  /** The replay order of a pushed range has every parent replayed before, remembered, or waiting
      in the history of the target. */
  lemma RangeFeasible(f: Filter, cache: Cache, target: Oid, bases: set<Oid>, tip: Oid, out: seq<Oid>)
    requires Topological(out, false) && forall c :: c in out <==> Between(tip, bases, c)
    requires forall c :: c in out ==> c.Commit?
    requires forall b :: b in bases ==> IsOld(f, target, b)
    ensures Feasible(f, cache, target, Reverse(out))
  {
    hide Image, IsOld, Below, Distinct;
    var revs := Reverse(out);
    forall i, p | 0 <= i < |revs| && revs[i].Commit? && p in revs[i].parents
      ensures p.Commit? && (p in cache || p in revs[..i] || IsOld(f, target, p))
    {
      var k := |out| - 1 - i;
      assert out[k] == revs[i] && out[k] in out;
      ParentBetween(tip, bases, out[k], p);
      if p in out {
        var j := ParentPlace(out, k, p);
        assert revs[..i][|out| - 1 - j] == p;
      } else {
        var b :| b in bases && Below(b, p);
        OldBelow(f, target, b, p);
      }
    }
  }

  /** A parent is listed after its child. */
  lemma ParentPlace(out: seq<Oid>, k: nat, p: Oid) returns (j: nat)
    requires Topological(out, false) && k < |out| && out[k].Commit? && p in out[k].parents && p in out
    ensures k < j < |out| && out[j] == p
  {
    hide Distinct;
    j :| 0 <= j < |out| && out[j] == p;
    assert Edge(out[k], out[j], false);
  }

  lemma ParentBetween(tip: Oid, bases: set<Oid>, c: Oid, p: Oid)
    requires Between(tip, bases, c) && c.Commit? && p in c.parents
    ensures Between(tip, bases, p) || exists b :: b in bases && Below(b, p)
  {
    ParentsBelow(tip, c);
  }

  /** The tip of a range is replayed last and not skipped. */
  lemma RangeSure(e: Push, cache: Cache, target: Oid, bases: set<Oid>, tip: Oid, out: seq<Oid>)
    requires Topological(out, false) && forall c :: c in out <==> Between(tip, bases, c)
    requires tip in out && tip !in cache && tip != Image(e.filter, target)
    ensures Reverse(out) != [] && Last(Reverse(out)) == tip && SureToRun(e, cache, target, Reverse(out))
  {
    hide Image, Below;
    TipFirst(out, tip, bases);
    ReverseSame(out);
    var revs := Reverse(out);
    var n := |revs| - 1;
    assert revs[n] == out[0];
    forall rev | rev in Init(revs) ensures rev != tip && (rev.Commit? ==> tip !in rev.parents) {
      var i :| 0 <= i < n && revs[i] == rev;
      assert rev in out;
      BelowShallower(tip, rev);
    }
  }

  /** The commits the pushed range starts from: the base, if it is there. */
  function Bases(odb: Odb, base: Oid): set<Oid> {
    if Readable(odb, base) then {base} else {}
  }

  /** In a pushed range a descendant is listed before its ancestors. */
  lemma {:induction false} DescendantFirst(tip: Oid, bases: set<Oid>, out: seq<Oid>, i: nat, j: nat)
    requires Topological(out, false) && forall c :: c in out <==> Between(tip, bases, c)
    requires i < |out| && j < |out| && Below(out[i], out[j])
    ensures i <= j
    decreases out[i]
  {
    hide Distinct;
    assert out[i] in out && out[j] in out;
    if out[i] == out[j] {
      assert i == j by { OncePlaced(out, i, j); }
    } else {
      var p :| p in out[i].parents && Below(p, out[j]);
      InBetween(tip, bases, out[i], p, out[j]);
      var k :| 0 <= k < |out| && out[k] == p;
      assert Edge(out[i], out[k], false);
      DescendantFirst(tip, bases, out, k, j);
    }
  }

  lemma OncePlaced(out: seq<Oid>, i: nat, j: nat)
    requires Topological(out, false) && i < |out| && j < |out| && out[i] == out[j]
    ensures i == j
  {
  }

  /** What lies between two commits of a pushed range is in it. */
  lemma InBetween(tip: Oid, bases: set<Oid>, c: Oid, p: Oid, x: Oid)
    requires Between(tip, bases, c) && Between(tip, bases, x) && c.Commit? && p in c.parents && Below(p, x)
    ensures Between(tip, bases, p)
  {
    ParentsBelow(tip, c);
    forall b | b in bases ensures !Below(b, p) {
      if Below(b, p) {
        BelowTransitive(b, p, x);
      }
    }
  }

  /** A pushed range in replay order is woven together under its tip. */
  lemma RangeWoven(tip: Oid, bases: set<Oid>, out: seq<Oid>)
    requires Topological(out, false) && forall c :: c in out <==> Between(tip, bases, c)
    requires tip in out
    ensures Woven(Reverse(out))
  {
    hide Below, Distinct, Topological, Between;
    TipFirst(out, tip, bases);
    var revs, n := Reverse(out), |out| - 1;
    assert Last(revs) == tip;
    forall j | 0 <= j < |revs| ensures Below(tip, revs[j]) {
      assert revs[j] == out[n - j] && out[n - j] in out;
      BetweenIsBelow(tip, bases, revs[j]);
    }
    forall j, i, p | 0 <= j <= i < |revs| && revs[i].Commit? && p in revs[i].parents && Below(p, revs[j])
      ensures p in revs[j..i]
    {
      BetweenPlaces(tip, bases, out, j, i, p);
    }
  }

  lemma BetweenPlaces(tip: Oid, bases: set<Oid>, out: seq<Oid>, j: nat, i: nat, p: Oid)
    requires Topological(out, false) && forall c :: c in out <==> Between(tip, bases, c)
    requires j <= i < |out| && Reverse(out)[i].Commit? && p in Reverse(out)[i].parents && Below(p, Reverse(out)[j])
    ensures p in Reverse(out)[j..i]
  {
    hide Below, Distinct, Topological, Between;
    var revs, n := Reverse(out), |out| - 1;
    assert revs[i] == out[n - i] && revs[j] == out[n - j] && out[n - i] in out && out[n - j] in out;
    assert p in out by { InBetween(tip, bases, revs[i], p, revs[j]); }
    var k := ParentPlace(out, n - i, p);
    DescendantFirst(tip, bases, out, k, n - j);
    assert revs[n - k] == p && revs[j..i][n - k - j] == p;
  }

  lemma BetweenIsBelow(tip: Oid, bases: set<Oid>, c: Oid)
    requires Between(tip, bases, c)
    ensures Below(tip, c)
  {
  }

  /** None of a pushed range is replayed twice or before its parents. */
  lemma RangeFresh(f: Filter, cache: Cache, target: Oid, out: seq<Oid>)
    requires Topological(out, false) && forall c :: c in out ==> c !in cache && c != Image(f, target)
    ensures Fresh(f, cache, target, Reverse(out))
  {
    hide Image, Topological;
    ReverseSame(out);
    var revs, n := Reverse(out), |out| - 1;
    forall i, j | 0 <= i < j < |revs|
      ensures revs[i] != revs[j] && (revs[i].Commit? ==> revs[j] !in revs[i].parents)
    {
      assert revs[i] == out[n - i] && revs[j] == out[n - j];
      NoParentEarlier(out, n - i, n - j);
    }
  }

  lemma NoParentEarlier(out: seq<Oid>, i: nat, j: nat)
    requires Topological(out, false) && j < i < |out|
    ensures out[i] != out[j] && (out[i].Commit? ==> out[j] !in out[i].parents)
  {
    assert Edge(out[i], out[j], false) <==> out[i].Commit? && out[j] in out[i].parents;
  }

  // ------------------------------------------------------------------ what comes back

  /** A push of something new: what it starts from is an image of the target's history, and the tip
      is neither below that nor the target's own image. A push of the base itself needs an original. */
  ghost predicate Pushable(e: Push, odb: Odb, target: Oid, base: Oid, tip: Oid) {
    && LensLaws(e)
    && if tip == base then
         IsOld(e.filter, target, tip) && !e.isNop
       else
         && (forall b :: b in Bases(odb, base) ==> IsOld(e.filter, target, b) && !Below(b, tip))
         && tip != Image(e.filter, target)
  }

  /** Every commit of the range, listed children first by `out`, comes back when its turn comes. */
  ghost predicate AllComeBack(e: Push, start: Cache, target: Oid, out: seq<Oid>) {
    (forall rev :: rev in Reverse(out) ==> rev.Commit?) && RunComesBack(e, start, target, Reverse(out))
  }

  /** The target's own image is not among the pushed commits, and no pushed root is moved. */
  ghost predicate Undisturbed(e: Push, target: Oid, out: seq<Oid>) {
    Image(e.filter, target) !in out && RootsStay(e, out)
  }

  /** Filtering the result of a replay gives the pushed tip if every commit comes back, in particular
      if every commit is plain; in an undisturbed push it does so only then. */
  lemma PushedTip(r: Oid, e: Push, odb: Odb, cache: Cache, target: Oid, base: Oid, tip: Oid, out: seq<Oid>)
    requires Pushable(e, odb, target, base, tip) && tip != base
    requires SoundCache(e.filter, cache) && tip !in cache
    requires IsReplay(r, e, cache, target, Bases(odb, base), tip, out)
    ensures AllComeBack(e, cache, target, out) ==> Image(e.filter, r) == tip
    ensures (forall rev :: rev in out ==> Plain(e, rev)) ==> AllComeBack(e, cache, target, out)
    ensures Undisturbed(e, target, out) && (forall k :: k in cache ==> k !in out) && Image(e.filter, r) == tip ==>
      AllComeBack(e, cache, target, out)
    ensures HasAllParents(e, tip) && e.reparent != Some(Zero) ==> ReplayedAs(e, target, tip, r)
  {
    hide Image, Run, RunComesBack, Plain, SureToRun, Feasible, Fresh, Woven, IsOld, Topological, Bases,
         LensLaws, ReplayedAs;
    var bases, revs := Bases(odb, base), Reverse(out);
    assert Between(tip, bases, tip) by { BelowSelf(tip); }
    ReverseSame(out);
    RangeFeasible(e.filter, cache, target, bases, tip, out);
    RangeSure(e, cache, target, bases, tip, out);
    if RunComesBack(e, cache, target, revs) {
      RunRoundTrip(e, cache, target, target, revs);
    }
    if forall rev :: rev in out ==> Plain(e, rev) {
      PlainRun(e, cache, target, revs);
    }
    if Undisturbed(e, target, out) && forall k :: k in cache ==> k !in out {
      RangeFresh(e.filter, cache, target, out);
      RangeWoven(tip, bases, out);
      RunExactly(e, cache, target, target, revs);
    }
    if HasAllParents(e, tip) && e.reparent != Some(Zero) {
      TipTree(e, cache, target, target, revs);
    }
  }

  // ------------------------------------------------------------------ the push

  /** The pushed range, children first. */
  method PushedRange(odb: Odb, number: Oid -> nat, known: Oid -> bool, base: Oid, tip: Oid)
    returns (r: Result<seq<Oid>>)
    requires Numbering(number)
    ensures r.Ok? ==> Topological(r.value, false) && forall c :: c in r.value ==> c.Commit?
    ensures r.Ok? ==> forall c :: c in r.value <==> Between(tip, Bases(odb, base), c)
    ensures r.Err? ==>
      exists x :: (Below(tip, x) || (Readable(odb, base) && Below(base, x))) && (!Readable(odb, x) || !known(x))
  {
    hide Below, Distinct;
    if base in odb && base.Commit? {
      var walk := new RangeWalk(odb, number, known);
      r := walk.IntoTopoVec(tip, base);
      if r.Err? {
        ghost var x :| walk.Blind(x, tip, base);
      }
    } else {
      var walk := new RevWalk(odb);
      var ok := walk.Push(tip, []);
      BelowSelf(tip);
      if !ok {
        return Err;
      }
      assert [] + [tip] == [tip];
      ghost var asked;
      r, asked := walk.IntoTopoVec(NO_PRUNE, [tip]);
      forall c ensures Reaches([tip], c, EVERYTHING) <==> Below(tip, c) {
        ReachesIsBelow(tip, c);
      }
    }
  }

  /** `r` is the result of replaying the range, listed children first by `out`. */
  ghost predicate IsReplay(r: Oid, e: Push, start: Cache, target: Oid, bases: set<Oid>, tip: Oid, out: seq<Oid>) {
    && Topological(out, false) && (forall c :: c in out <==> Between(tip, bases, c))
    && (forall rev :: rev in Reverse(out) ==> rev.Commit?)
    && Run(e, start, target, target, Reverse(out)).Some?
    && Run(e, start, target, target, Reverse(out)).value.0 == r
  }

  /** A linear push of history that can be read and numbered. */
  ghost predicate LinearPush(odb: Odb, known: Oid -> bool, e: Push, target: Oid, base: Oid, tip: Oid) {
    && Total(e) && Complete(odb, target) && Complete(odb, tip)
    && (base != Zero ==> Complete(odb, base)) && (forall c :: known(c))
    && (forall rev :: Between(tip, Bases(odb, base), rev) ==> rev.Commit? && |rev.parents| == 1)
  }

  /** Replay everything between `base` and `tip`. */
  method ReplayRange(odb: Odb, number: Oid -> nat, known: Oid -> bool, e: Push, start: Cache,
                     target: Oid, base: Oid, tip: Oid)
    returns (r: Result<Oid>, ghost out: seq<Oid>)
    requires Numbering(number)
    ensures r.Ok? ==> IsReplay(r.value, e, start, target, Bases(odb, base), tip, out)
    ensures r.Ok? && Readable(odb, base) && Below(base, tip) ==> r.value == target
    ensures LinearPush(odb, known, e, target, base, tip) ==> r.Ok?
  {
    hide Image, Below, Complete, Run, Topological, Bases, Total;
    var range := PushedRange(odb, number, known, base, tip);
    out := [];
    if range.Err? {
      if Complete(odb, tip) && (base != Zero ==> Complete(odb, base)) {
        CompleteBelow(odb, tip);
        CompleteBelow(odb, base);
        assert !Readable(odb, Zero);
      }
      r := Err;
      return;
    }
    out := range.value;
    r := ReplayAll(odb, e, start, target, range.value);
    ReverseSame(out);
    if Total(e) && forall rev :: rev in out ==> |rev.parents| == 1 {
      ChainRuns(e, start, target, target, Reverse(out));
    }
    if Readable(odb, base) && Below(base, tip) {
      NothingBetween(e, odb, start, target, base, tip, out);
    }
  }

  /** `o` stands for `rev` in the history of the target: the first commit that is not just like its single
      parent to the filter, or zero if there is none. */
  ghost predicate StandsFor(e: Push, target: Oid, rev: Oid, o: Oid) {
    if target == Zero then o == Zero
    else if e.isNop then o == rev
    else if o == Zero then forall c :: Below(target, c) ==> Image(e.filter, c) != rev
    else exists k :: FirstOwnAt(e.filter, TopoOrder([target], Rule(NO_PRUNE, false)), rev, k, o)
  }

  lemma OriginalStands(e: Push, target: Oid, rev: Oid, o: Oid)
    requires target == Zero ==> o == Zero
    requires target != Zero && e.isNop ==> o == rev
    requires target != Zero && !e.isNop ==>
      && (o != Zero <==> exists c :: Searched(target, c, false) && Image(e.filter, c) == rev)
      && (o != Zero ==> exists k :: FirstOwnAt(e.filter, TopoOrder([target], Rule(NO_PRUNE, false)), rev, k, o))
    ensures StandsFor(e, target, rev, o)
  {
    hide Image, Below, TopoOrder, FirstOwnAt;
    assert forall c :: Searched(target, c, false) <==> Below(target, c);
  }

  /** Replay the commits pushed between `oldTip` and `newTip` onto the history of `target`. The base
      of the push is `oldTip`, or, for a new branch, the newest pushed commit with an original. */
  method UnapplyFilter(odb: Odb, number: Oid -> nat, known: Oid -> bool, e: Push,
                       target: Oid, oldTip: Oid, newTip: Oid)
    returns (r: Result<Oid>, base: Oid, ghost start: Cache, ghost out: seq<Oid>)
    requires Numbering(number)
    ensures oldTip != Zero ==> base == oldTip && start == map[]
    ensures oldTip == Zero && base != Zero ==> IsOld(e.filter, target, base) && Below(newTip, base)
    // A new branch starts at the newest pushed commit that has an original, and the oldest similar
    // one stands for it; pushing just that commit returns it.
    ensures oldTip == Zero && base != Zero ==>
      && (exists k :: FirstOld(e.filter, target, TopoOrder([newTip], EVERYTHING), k, base))
      && base in start && OldestSimilar(e.filter, target, base, start[base])
      && (newTip == base ==> r == Ok(start[base]))
    ensures SoundCache(e.filter, start) && OldKeys(e.filter, start, target)
    ensures r.Ok? && newTip != base ==> IsReplay(r.value, e, start, target, Bases(odb, base), newTip, out)
    // Filtering the result gives back what was pushed if every commit comes back, and only then.
    ensures r.Ok? && Pushable(e, odb, target, base, newTip) ==>
      && (newTip == base || AllComeBack(e, start, target, out) ==> Image(e.filter, r.value) == newTip)
      && (newTip != base && Undisturbed(e, target, out) && Image(e.filter, r.value) == newTip ==>
            AllComeBack(e, start, target, out))
      && (newTip != base && (forall rev :: rev in out ==> Plain(e, rev)) ==> AllComeBack(e, start, target, out))
    // Pushing nothing gives what stands for the tip.
    ensures r.Ok? && oldTip != Zero && newTip == oldTip ==> StandsFor(e, target, newTip, r.value)
    // What the pushed tip becomes: put onto its parent's original or onto nothing, or given the tree of a merge.
    ensures r.Ok? && newTip != base && Pushable(e, odb, target, base, newTip) ==>
      HasAllParents(e, newTip) && e.reparent != Some(Zero) ==> ReplayedAs(e, target, newTip, r.value)
    // Pushing something that is already below the base leaves the target where it is.
    ensures r.Ok? && newTip != base && Readable(odb, base) && Below(base, newTip) ==> r.value == target
    // A linear push is never rejected.
    ensures LinearPush(odb, known, e, target, base, newTip) ==> r.Ok?
  {
    hide Image, Below, Complete, Plain, IsOld, SoundCache, IsReplay, LensLaws, Bases, OldKeys, LinearPush,
         AllComeBack, Undisturbed, FirstOld, OldestSimilar, ReplayedAs, HasAllParents, StandsFor;
    start, base, out := map[], oldTip, [];
    var cache: Cache := map[];
    EmptyCache(e.filter, target);
    if oldTip == Zero {
      var found;
      found, cache := FindNewBranchBase(odb, e.filter, target, newTip);
      start, base := cache, if found.Ok? then found.value else oldTip;
      if base != Zero {
        CachedIsOld(e.filter, cache, target, base);
      }
    }
    if newTip == base {
      if newTip in cache {
        CachedIsOld(e.filter, cache, target, newTip);
        r := Ok(cache[newTip]);
      } else {
        OldIsReached(e.filter, target, newTip);
        LinearIsComplete(odb, known, e, target, base, newTip);
        r := FindOriginal(odb, e.filter, e.isNop, target, newTip, false);
        if r.Ok? {
          OriginalStands(e, target, newTip, r.value);
        }
      }
      return;
    }
    r, out := ReplayRange(odb, number, known, e, cache, target, base, newTip);
    if r.Ok? && Pushable(e, odb, target, base, newTip) {
      PushedTip(r.value, e, odb, cache, target, base, newTip, out);
      StartIsOutside(r.value, e, odb, cache, target, base, newTip, out);
    }
  }

  lemma LinearIsComplete(odb: Odb, known: Oid -> bool, e: Push, target: Oid, base: Oid, tip: Oid)
    ensures LinearPush(odb, known, e, target, base, tip) ==> Complete(odb, target)
  {
  }

  /** What a search for the base remembers is not replayed, unless it is the target's own image. */
  lemma StartIsOutside(r: Oid, e: Push, odb: Odb, cache: Cache, target: Oid, base: Oid, tip: Oid, out: seq<Oid>)
    requires base != Zero ==> Readable(odb, base) || cache == map[]
    requires forall k :: k in cache ==> k == Image(e.filter, target) || k == base
    requires IsReplay(r, e, cache, target, Bases(odb, base), tip, out)
    ensures Undisturbed(e, target, out) ==> forall k :: k in cache ==> k !in out
  {
    hide Image, Run, Topological;
    ReverseSame(out);
    assert Readable(odb, base) ==> base in Bases(odb, base) && Below(base, base);
  }

  lemma CachedIsOld(f: Filter, cache: Cache, target: Oid, k: Oid)
    requires SoundCache(f, cache) && OldKeys(f, cache, target) && k in cache
    ensures IsOld(f, target, k) && Image(f, cache[k]) == k
  {
    hide Image, IsOld;
  }

  lemma OldIsReached(f: Filter, target: Oid, rev: Oid)
    ensures IsOld(f, target, rev) ==>
      target != Zero && exists c :: Searched(target, c, false) && Image(f, c) == rev
  {
    hide Image, Below;
    if IsOld(f, target, rev) {
      ZeroIsNotOld(f, rev);
      var a :| Below(target, a) && a != Zero && Image(f, a) == rev;
      assert Searched(target, a, false);
    }
  }

  lemma NothingBetween(e: Push, odb: Odb, cache: Cache, target: Oid, base: Oid, tip: Oid, out: seq<Oid>)
    requires Readable(odb, base) && Below(base, tip)
    requires forall c :: c in out <==> Between(tip, Bases(odb, base), c)
    ensures out == [] && Reverse(out) == [] && Run(e, cache, target, target, []) == Some((target, cache))
  {
    forall c | Below(tip, c) ensures Below(base, c) {
      BelowTransitive(base, tip, c);
    }
    assert base in Bases(odb, base);
    HasMember(out);
  }
}
