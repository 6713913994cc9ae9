/** A pushed commit that does not come back spoils everything pushed on top of it. */
module ExactRuns {
  import opened Objects
  import opened RevWalks
  import opened Filtering
  import opened Searches
  import opened Unapplying

  /** Remembered originals need not filter to their keys, but to nothing deeper. */
  ghost predicate Loose(f: Filter, cache: Cache) {
    forall k :: k in cache ==> cache[k] != Zero && Depth(Image(f, cache[k])) <= Depth(k)
  }

  /** From `before` to `after` nothing is forgotten, and only the target's image may be remembered
      anew. */
  ghost predicate Keeps(f: Filter, before: Cache, after: Cache, target: Oid) {
    forall k :: k in before ==> k in after && (k != Image(f, target) ==> after[k] == before[k])
  }

  // ------------------------------------------------------------------ one search, one step

  lemma SearchIsLoose(f: Filter, cache: Cache, target: Oid, p: Oid)
    requires Loose(f, cache) && p != Zero && (p in cache || IsOld(f, target, p))
    ensures var after, b := CacheAfter(f, cache, target, p), BaseOf(f, cache, target, p);
      && Loose(f, after) && Keeps(f, cache, after, target) && Adds(f, cache, after, target, [p])
      && b != Zero && Depth(Image(f, b)) <= Depth(p) && (p in cache ==> b == cache[p])
  {
    hide Image, Depth, FirstMatch, PreOrder, Found, IsOld;
    FoundIffOld(f, target, p);
  }

  /** The originals of parents that all have one, right or wrong. */
  lemma {:induction false} OriginalsAreLoose(f: Filter, cache: Cache, target: Oid, ps: seq<Oid>, bound: nat)
    requires Loose(f, cache) && Resolvable(f, cache, target, ps) && forall p :: p in ps ==> Depth(p) <= bound
    ensures var (os, after) := Originals(f, cache, target, ps);
      && Loose(f, after) && Keeps(f, cache, after, target) && Adds(f, cache, after, target, ps)
      && |os| == |ps| && (forall o :: o in os ==> o != Zero && Depth(Image(f, o)) <= bound)
      && (forall i :: 0 <= i < |ps| && ps[i] in cache && ps[i] != Image(f, target) ==> os[i] == cache[ps[i]])
    decreases |ps|
  {
    hide Image, Depth, BaseOf, CacheAfter, IsOld, Loose, Adds;
    if ps == [] {
      AddsNothing(f, cache, target);
    } else {
      assert ps[0] in ps;
      var after, b := CacheAfter(f, cache, target, ps[0]), BaseOf(f, cache, target, ps[0]);
      SearchIsLoose(f, cache, target, ps[0]);
      AddsKeeps(f, cache, after, target, [ps[0]]);
      OriginalsAreLoose(f, after, target, ps[1..], bound);
      var rest := Originals(f, after, target, ps[1..]);
      AddsThen(f, cache, after, rest.1, target, ps[0], ps[1..]);
      assert ps == [ps[0]] + ps[1..];
      assert Originals(f, cache, target, ps).0 == [b] + rest.0;
    }
  }

  /** A commit filters to nothing that is much deeper than what its parents filter to. */
  lemma ImageBounded(f: Filter, o: Oid, bound: nat)
    requires o.Commit? && forall q :: q in o.parents ==> Depth(Image(f, q)) <= bound
    ensures Depth(Image(f, o)) <= 1 + bound
  {
    hide FilterCommit, Depth;
    var images := Images(f, o.parents);
    FilterCommitCases(o, images, f.apply(o.tree), f.options);
    forall q | q in images ensures Depth(q) <= bound {
      var i :| 0 <= i < |images| && images[i] == q;
      assert o.parents[i] in o.parents;
    }
    var r := Image(f, o);
    if r.Commit? && r !in images {
      CommitBounded(r, bound);
    } else if r == Zero {
      ZeroDepth();
    }
  }

  lemma CommitBounded(c: Oid, bound: nat)
    requires c.Commit? && forall p :: p in c.parents ==> Depth(p) <= bound
    ensures Depth(c) <= 1 + bound
  {
    MaxDepthBound(c.parents, bound);
  }

  lemma ZeroDepth()
    ensures Depth(Zero) == 1
  {
  }

  /** What a step makes of a commit, whether or not its parents came back. */
  ghost predicate Stepped(f: Filter, cache: Cache, after: Cache, target: Oid, rev: Oid, o: Oid)
    requires rev.Commit?
  {
    && Loose(f, after) && rev in after && after[rev] == o
    && Adds(f, cache, after, target, [rev] + rev.parents)
    && forall k :: k in cache && k != rev && k != Image(f, target) ==> after[k] == cache[k]
  }

  lemma StepIsLoose(e: Push, cache: Cache, target: Oid, rev: Oid)
    requires rev.Commit? && Loose(e.filter, cache) && Resolvable(e.filter, cache, target, rev.parents)
    requires (rev.parents == [] ==> e.reparent.None?) && Replayed(e, cache, target, rev).Some?
    ensures var (o, after) := Replayed(e, cache, target, rev).value;
      Stepped(e.filter, cache, after, target, rev, o)
  {
    hide Image, Originals, NewTrees, PickTree, Loose, Adds, Resolvable;
    var f, ps, bound := e.filter, PushedParents(e, rev).value, MaxDepth(rev.parents);
    assert forall p :: p in ps ==> p in rev.parents;
    ResolvableSome(f, cache, target, rev.parents, ps);
    OriginalsAreLoose(f, cache, target, ps, bound);
    var (os, found) := Originals(f, cache, target, ps);
    var (o, after) := Replayed(e, cache, target, rev).value;
    assert Depth(Image(f, o)) <= Depth(rev) by {
      if o.Commit? && o.parents == os {
        ImageBounded(f, o, bound);
      } else {
        assert o == os[0];
      }
    }
    AddsLoosely(f, cache, found, target, rev, o, ps);
  }

  lemma AddsLoosely(f: Filter, cache: Cache, found: Cache, target: Oid, rev: Oid, o: Oid, ps: seq<Oid>)
    requires rev.Commit? && Loose(f, found) && Keeps(f, cache, found, target) && Adds(f, cache, found, target, ps)
    requires o != Zero && Depth(Image(f, o)) <= Depth(rev) && forall p :: p in ps ==> p in rev.parents
    ensures Stepped(f, cache, found[rev := o], target, rev, o)
  {
    hide Image, Depth;
  }

  /** A commit does not come back if one of its parents did not. */
  lemma SpoiledStep(e: Push, cache: Cache, target: Oid, rev: Oid, p: Oid)
    requires rev.Commit? && Loose(e.filter, cache) && Resolvable(e.filter, cache, target, rev.parents)
    requires p in rev.parents && p in cache && p != Image(e.filter, target) && Image(e.filter, cache[p]) != p
    requires Replayed(e, cache, target, rev).Some?
    ensures Image(e.filter, Replayed(e, cache, target, rev).value.0) != rev
  {
    hide Image, Originals, NewTrees, PickTree, Loose, Adds, Resolvable;
    var f, ps, bound := e.filter, PushedParents(e, rev).value, MaxDepth(rev.parents);
    assert forall q :: q in ps ==> q in rev.parents;
    ResolvableSome(f, cache, target, rev.parents, ps);
    OriginalsAreLoose(f, cache, target, ps, bound);
    var os := Originals(f, cache, target, ps).0;
    var o := Replayed(e, cache, target, rev).value.0;
    assert os[0] in os && Image(f, os[0]) != rev;
    if o.Commit? && o.parents == os {
      forall q | q in Images(f, os) ensures q != rev {
        var i :| 0 <= i < |os| && Images(f, os)[i] == q;
        assert os[i] in os;
      }
      assert Images(f, os) != rev.parents by {
        var i :| 0 <= i < |rev.parents| && rev.parents[i] == p;
        if |ps| == |rev.parents| {
          assert ps[i] == p && os[i] == cache[p];
        }
      }
      WrongParents(f, o, rev);
    }
  }

  // ------------------------------------------------------------------ whole runs

  /** None of the commits has an original yet, and each is listed once, after its parents. */
  ghost predicate Fresh(f: Filter, cache: Cache, target: Oid, revs: seq<Oid>) {
    && (forall rev :: rev in revs ==> rev !in cache && rev != Image(f, target))
    && forall i, j :: 0 <= i < j < |revs| ==>
      revs[i] != revs[j] && (revs[i].Commit? ==> revs[j] !in revs[i].parents)
  }

  lemma FreshTail(f: Filter, cache: Cache, after: Cache, target: Oid, revs: seq<Oid>)
    requires revs != [] && revs[0].Commit? && Fresh(f, cache, target, revs)
    requires Adds(f, cache, after, target, [revs[0]] + revs[0].parents)
    ensures Fresh(f, after, target, revs[1..])
  {
    hide Image;
    var rest := revs[1..];
    forall i, j | 0 <= i < j < |rest|
      ensures rest[i] != rest[j] && (rest[i].Commit? ==> rest[j] !in rest[i].parents)
    {
      assert rest[i] == revs[i + 1] && rest[j] == revs[j + 1];
    }
    forall rev | rev in rest ensures rev !in after {
      var i :| 0 <= i < |rest| && rest[i] == rev;
      assert rev == revs[i + 1] && rev in revs;
    }
  }

  /** No pushed root is moved onto another commit. */
  ghost predicate RootsStay(e: Push, revs: seq<Oid>) {
    forall rev :: rev in revs && rev.Commit? && rev.parents == [] ==> e.reparent.None?
  }

  /** Everything in `done` that is built on `b` did not come back. */
  ghost predicate Spoiled(f: Filter, cache: Cache, target: Oid, b: Oid, done: set<Oid>) {
    forall x :: x in done && Below(x, b) ==> x in cache && x != Image(f, target) && Image(f, cache[x]) != x
  }

  /** Whatever of `revs` is built on `b` is so through `done` and what comes before it. */
  ghost predicate BuiltOn(b: Oid, done: set<Oid>, revs: seq<Oid>) {
    forall i, p :: 0 <= i < |revs| && revs[i].Commit? && p in revs[i].parents && Below(p, b) ==>
      p in done || p in revs[..i]
  }

  lemma BuiltOnTail(b: Oid, done: set<Oid>, revs: seq<Oid>)
    requires revs != [] && BuiltOn(b, done, revs)
    ensures BuiltOn(b, done + {revs[0]}, revs[1..])
  {
    hide Below;
    var rest := revs[1..];
    forall i, p | 0 <= i < |rest| && rest[i].Commit? && p in rest[i].parents && Below(p, b)
      ensures p in done + {revs[0]} || p in rest[..i]
    {
      assert rest[i] == revs[i + 1] && revs[..i + 1] == [revs[0]] + rest[..i];
    }
  }

  lemma SpoiledMore(e: Push, cache: Cache, target: Oid, b: Oid, done: set<Oid>, revs: seq<Oid>)
    requires revs != [] && revs[0].Commit? && Loose(e.filter, cache)
    requires Resolvable(e.filter, cache, target, revs[0].parents) && Replayed(e, cache, target, revs[0]).Some?
    requires Fresh(e.filter, cache, target, revs) && RootsStay(e, revs) && b !in revs
    requires Spoiled(e.filter, cache, target, b, done) && BuiltOn(b, done, revs)
    ensures Spoiled(e.filter, Replayed(e, cache, target, revs[0]).value.1, target, b, done + {revs[0]})
  {
    hide Image, Replayed, Loose, Adds, Resolvable;
    var f, rev := e.filter, revs[0];
    assert rev in revs;
    var (o, after) := Replayed(e, cache, target, rev).value;
    StepIsLoose(e, cache, target, rev);
    AddsKeeps(f, cache, after, target, [rev] + rev.parents);
    if Below(rev, b) {
      var p :| p in rev.parents && Below(p, b);
      assert revs[..0] == [];
      SpoiledStep(e, cache, target, rev, p);
    }
  }

  /** One commit that did not come back keeps the tip from coming back. */
  lemma {:induction false} SpoiledTip(e: Push, cache: Cache, ret: Oid, target: Oid, revs: seq<Oid>, b: Oid,
                                      done: set<Oid>)
    requires (forall rev :: rev in revs ==> rev.Commit?) && revs != [] && b !in revs
    requires Loose(e.filter, cache) && Feasible(e.filter, cache, target, revs)
    requires Fresh(e.filter, cache, target, revs) && RootsStay(e, revs)
    requires Spoiled(e.filter, cache, target, b, done) && BuiltOn(b, done, revs) && Below(Last(revs), b)
    requires Run(e, cache, ret, target, revs).Some?
    ensures Image(e.filter, Run(e, cache, ret, target, revs).value.0) != Last(revs)
    decreases |revs|
  {
    hide Image, Replayed, Below, Loose, Feasible, Fresh, Adds, Spoiled, BuiltOn;
    var f, rev, rest := e.filter, revs[0], revs[1..];
    assert rev in revs && rev !in cache by { FreshHead(f, cache, target, revs); }
    FeasibleHead(f, cache, target, revs);
    StepIsLoose(e, cache, target, rev);
    SpoiledMore(e, cache, target, b, done, revs);
    var (o, after) := Replayed(e, cache, target, rev).value;
    if rest == [] {
      assert Run(e, after, o, target, rest) == Some((o, after));
      assert Last(revs) in done + {rev};
      SpoiledAt(f, after, target, b, done + {rev}, rev);
    } else {
      AddsKeeps(f, cache, after, target, [rev] + rev.parents);
      FeasibleTail(f, cache, after, target, revs);
      FreshTail(f, cache, after, target, revs);
      BuiltOnTail(b, done, revs);
      SpoiledTip(e, after, o, target, rest, b, done + {rev});
    }
  }

  lemma FreshHead(f: Filter, cache: Cache, target: Oid, revs: seq<Oid>)
    requires revs != [] && Fresh(f, cache, target, revs)
    ensures revs[0] !in cache && revs[0] != Image(f, target) && revs[0] !in revs[1..]
  {
    hide Image;
    assert revs[0] in revs;
  }

  lemma SpoiledAt(f: Filter, cache: Cache, target: Oid, b: Oid, done: set<Oid>, x: Oid)
    requires Spoiled(f, cache, target, b, done) && x in done && Below(x, b)
    ensures x in cache && Image(f, cache[x]) != x
  {
  }

  /** Whatever is pushed is below the last commit, and built on what is listed in between. */
  ghost predicate Woven(revs: seq<Oid>) {
    && (forall j :: 0 <= j < |revs| ==> Below(Last(revs), revs[j]))
    && forall j, i, p :: 0 <= j <= i < |revs| && revs[i].Commit? && p in revs[i].parents && Below(p, revs[j]) ==>
      p in revs[j..i]
  }

  lemma WovenHead(revs: seq<Oid>)
    requires revs != [] && Woven(revs)
    ensures BuiltOn(revs[0], {revs[0]}, revs[1..])
    ensures |revs| > 1 ==> Woven(revs[1..]) && Below(Last(revs[1..]), revs[0])
  {
    hide Below;
    var rest := revs[1..];
    forall i, p | 0 <= i < |rest| && rest[i].Commit? && p in rest[i].parents && Below(p, revs[0])
      ensures p in {revs[0]} || p in rest[..i]
    {
      assert rest[i] == revs[i + 1] && revs[0..i + 1] == [revs[0]] + rest[..i];
    }
    forall j, i, p | 0 <= j <= i < |rest| && rest[i].Commit? && p in rest[i].parents && Below(p, rest[j])
      ensures p in rest[j..i]
    {
      assert rest[i] == revs[i + 1] && rest[j] == revs[j + 1] && revs[j + 1..i + 1] == rest[j..i];
    }
    assert forall j :: 0 <= j < |rest| ==> rest[j] == revs[j + 1];
  }

  /** A push comes back exactly when every commit of it does. */
  lemma {:induction false} RunExactly(e: Push, cache: Cache, ret: Oid, target: Oid, revs: seq<Oid>)
    requires LensLaws(e) && SoundCache(e.filter, cache)
    requires (forall rev :: rev in revs ==> rev.Commit?) && revs != [] && Woven(revs) && RootsStay(e, revs)
    requires Feasible(e.filter, cache, target, revs) && Fresh(e.filter, cache, target, revs)
    requires Run(e, cache, ret, target, revs).Some?
    ensures Image(e.filter, Run(e, cache, ret, target, revs).value.0) == Last(revs)
       <==> RunComesBack(e, cache, target, revs)
    decreases |revs|
  {
    hide Image, Replayed, ComesBack, Below, LensLaws, SoundCache, Loose, Feasible, Fresh, Adds, Woven, BuiltOn,
         Resolvable;
    var f, rev, rest := e.filter, revs[0], revs[1..];
    assert rev in revs && rev !in cache && rev !in rest && rev != Image(f, target) by {
      FreshHead(f, cache, target, revs);
    }
    FeasibleHead(f, cache, target, revs);
    var (o, after) := Replayed(e, cache, target, rev).value;
    StepExactly(e, cache, target, rev);
    assert Loose(f, cache) by { SoundIsLoose(f, cache); }
    StepIsLoose(e, cache, target, rev);
    if rest == [] {
      assert Run(e, after, o, target, rest) == Some((o, after)) && RunComesBack(e, after, target, rest);
    } else {
      AddsKeeps(f, cache, after, target, [rev] + rev.parents);
      FeasibleTail(f, cache, after, target, revs);
      FreshTail(f, cache, after, target, revs);
      WovenHead(revs);
      if ComesBack(e, cache, target, rev) {
        StepRoundTrip(e, cache, target, rev);
        RunExactly(e, after, o, target, rest);
      } else {
        assert Spoiled(f, after, target, rev, {rev});
        SpoiledTip(e, after, o, target, rest, rev, {rev});
      }
    }
  }

  lemma SoundIsLoose(f: Filter, cache: Cache)
    requires SoundCache(f, cache)
    ensures Loose(f, cache)
  {
    hide Image, Depth;
  }
}
