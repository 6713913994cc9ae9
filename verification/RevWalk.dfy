/** The pruned topological walk: an iterative depth-first search with an explicit stack,
    proved to compute recursive depth-first order, and that order proved to be exactly the
    commits reachable along unpruned paths, children before parents. */
module RevWalks {
  import opened Objects
  import opened NodeTables

  // ------------------------------------------------------------------ specification

  /** `p` is a parent of `c` that a walk goes on to: any parent, or the first one only. */
  ghost predicate Edge(c: Oid, p: Oid, firstParent: bool) {
    c.Commit? && if firstParent then c.parents != [] && p == c.parents[0] else p in c.parents
  }

  /** The parents a walk goes on to from `c`, in parent order. */
  function Follow(c: Oid, firstParent: bool): (ps: seq<Oid>)
    ensures forall p :: p in ps <==> Edge(c, p, firstParent)
    ensures forall p :: p in ps ==> Depth(p) < Depth(c)
    ensures MaxDepth(ps) < Depth(c)
  {
    if !c.Commit? then []
    else if firstParent && |c.parents| > 1 then
      MaxDepthBound(c.parents[..1], MaxDepth(c.parents));
      c.parents[..1]
    else c.parents
  }

  /** What a walk has done: the commits it has seen, the order in which it asked `prune`
      about them, and the unpruned ones in pre-order and in post-order. */
  datatype Trail = Trail(seen: set<Oid>, asked: seq<Oid>, pre: seq<Oid>, post: seq<Oid>)

  function Then(a: Trail, b: Trail): Trail {
    Trail(b.seen, a.asked + b.asked, a.pre + b.pre, a.post + b.post)
  }

  datatype Rule = Rule(prune: Oid -> bool, firstParent: bool)

  /** Recursive depth-first search from `cs`, left to right, skipping what is in `seen`. */
  function Walk(cs: seq<Oid>, seen: set<Oid>, w: Rule): Trail
    decreases MaxDepth(cs), |cs|
  {
    if cs == [] then Trail(seen, [], [], [])
    else Then(Visit(cs[0], seen, w), Walk(cs[1..], Visit(cs[0], seen, w).seen, w))
  }

  function Visit(c: Oid, seen: set<Oid>, w: Rule): Trail
    decreases Depth(c), 0
  {
    if c in seen then Trail(seen, [], [], [])
    else if w.prune(c) then Trail(seen + {c}, [c], [], [])
    else
      Around(c, Walk(Follow(c, w.firstParent), seen + {c}, w))
  }

  /** Visiting `c` first and finishing it last. */
  function Around(c: Oid, below: Trail): Trail {
    Trail(below.seen, [c] + below.asked, [c] + below.pre, below.post + [c])
  }

  /** `t` asked about each commit at most once, only about unseen ones, and kept the
      unpruned ones. */
  ghost predicate Tidy(t: Trail, seen: set<Oid>, w: Rule) {
    && Distinct(t.asked)
    && (forall c :: c in t.seen <==> c in seen || c in t.asked)
    && (forall c :: c in t.asked ==> c !in seen)
    && Distinct(t.pre)
    && (forall c :: c in t.pre <==> c in t.asked && !w.prune(c))
    && Distinct(t.post)
    && (forall c :: c in t.post <==> c in t.pre)
  }

  lemma ThenTidy(a: Trail, b: Trail, seen: set<Oid>, w: Rule)
    requires Tidy(a, seen, w) && Tidy(b, a.seen, w)
    ensures Tidy(Then(a, b), seen, w)
  {
    DistinctConcat(a.asked, b.asked);
    DistinctConcat(a.pre, b.pre);
    DistinctConcat(a.post, b.post);
  }

  lemma {:induction false} WalkTidy(cs: seq<Oid>, seen: set<Oid>, w: Rule)
    ensures Tidy(Walk(cs, seen, w), seen, w)
    ensures forall c :: c in cs ==> c in Walk(cs, seen, w).seen
    ensures forall c :: c in Walk(cs, seen, w).asked ==> Depth(c) <= MaxDepth(cs)
    decreases MaxDepth(cs), |cs|
  {
    if cs == [] {
    } else {
      var a := Visit(cs[0], seen, w);
      VisitTidy(cs[0], seen, w);
      WalkTidy(cs[1..], a.seen, w);
      ThenTidy(a, Walk(cs[1..], a.seen, w), seen, w);
    }
  }

  lemma {:induction false} VisitTidy(c: Oid, seen: set<Oid>, w: Rule)
    ensures Tidy(Visit(c, seen, w), seen, w)
    ensures c in Visit(c, seen, w).seen
    ensures forall x :: x in Visit(c, seen, w).asked ==> Depth(x) <= Depth(c)
    decreases Depth(c), 0
  {
    if c !in seen && !w.prune(c) {
      WalkTidy(Follow(c, w.firstParent), seen + {c}, w);
    }
  }

  /** Everything an unpruned commit points at has been seen. */
  lemma {:induction false} WalkClosed(cs: seq<Oid>, seen: set<Oid>, w: Rule)
    ensures forall c, p :: c in Walk(cs, seen, w).pre && Edge(c, p, w.firstParent)
                           ==> p in Walk(cs, seen, w).seen
    decreases MaxDepth(cs), |cs|
  {
    if cs == [] {
    } else {
      VisitClosed(cs[0], seen, w);
      WalkClosed(cs[1..], Visit(cs[0], seen, w).seen, w);
      WalkTidy(cs[1..], Visit(cs[0], seen, w).seen, w);
    }
  }

  lemma {:induction false} VisitClosed(c: Oid, seen: set<Oid>, w: Rule)
    ensures forall x, p :: x in Visit(c, seen, w).pre && Edge(x, p, w.firstParent)
                           ==> p in Visit(c, seen, w).seen
    decreases Depth(c), 0
  {
    if c !in seen && !w.prune(c) {
      WalkClosed(Follow(c, w.firstParent), seen + {c}, w);
      WalkTidy(Follow(c, w.firstParent), seen + {c}, w);
    }
  }

  /** In post-order a commit comes after every parent the walk keeps. */
  ghost predicate ParentsFirst(t: Trail, seen: set<Oid>, w: Rule) {
    forall k, p :: 0 <= k < |t.post| && Edge(t.post[k], p, w.firstParent)
                   ==> p in seen || w.prune(p) || p in t.post[..k]
  }

  lemma ThenParentsFirst(a: Trail, b: Trail, seen: set<Oid>, w: Rule)
    requires Tidy(a, seen, w) && ParentsFirst(a, seen, w) && ParentsFirst(b, a.seen, w)
    ensures ParentsFirst(Then(a, b), seen, w)
  {
    var t := Then(a, b);
    forall k, p | 0 <= k < |t.post| && Edge(t.post[k], p, w.firstParent)
      ensures p in seen || w.prune(p) || p in t.post[..k]
    {
      if k < |a.post| {
        assert t.post[..k] == a.post[..k];
      } else {
        var j := k - |a.post|;
        assert t.post[k] == b.post[j];
        assert t.post[..k] == a.post + b.post[..j];
      }
    }
  }

  lemma {:induction false} WalkParentsFirst(cs: seq<Oid>, seen: set<Oid>, w: Rule)
    ensures ParentsFirst(Walk(cs, seen, w), seen, w)
    decreases MaxDepth(cs), |cs|
  {
    if cs == [] {
    } else {
      var a := Visit(cs[0], seen, w);
      VisitParentsFirst(cs[0], seen, w);
      VisitTidy(cs[0], seen, w);
      WalkParentsFirst(cs[1..], a.seen, w);
      ThenParentsFirst(a, Walk(cs[1..], a.seen, w), seen, w);
    }
  }

  lemma {:induction false} VisitParentsFirst(c: Oid, seen: set<Oid>, w: Rule)
    ensures ParentsFirst(Visit(c, seen, w), seen, w)
    decreases Depth(c), 0
  {
    if c !in seen && !w.prune(c) {
      var ps := Follow(c, w.firstParent);
      var below := Walk(ps, seen + {c}, w);
      WalkParentsFirst(ps, seen + {c}, w);
      WalkTidy(ps, seen + {c}, w);
      var t := Visit(c, seen, w);
      forall k, p | 0 <= k < |t.post| && Edge(t.post[k], p, w.firstParent)
        ensures p in seen || w.prune(p) || p in t.post[..k]
      {
        if k < |below.post| {
          assert t.post[k] in below.post;
          assert p != c;
          assert t.post[..k] == below.post[..k];
        } else {
          assert t.post[..k] == below.post;
        }
      }
    }
  }

  // ------------------------------------------------------------------ reachability

  /** `path` follows parent edges and meets no pruned commit. */
  ghost predicate IsPath(path: seq<Oid>, w: Rule) {
    && path != []
    && (forall i :: 0 <= i < |path| ==> !w.prune(path[i]))
    && (forall i :: 0 <= i < |path| - 1 ==> Edge(path[i], path[i + 1], w.firstParent))
  }

  /** `c` is at the end of an unpruned path from one of the tips. */
  ghost predicate Reaches(tips: seq<Oid>, c: Oid, w: Rule) {
    exists path :: IsPath(path, w) && path[0] in tips && Last(path) == c
  }

  lemma PathsJoin(a: seq<Oid>, b: seq<Oid>, w: Rule)
    requires IsPath(a, w) && IsPath(b, w) && Edge(Last(a), b[0], w.firstParent)
    ensures IsPath(a + b, w) && (a + b)[0] == a[0] && Last(a + b) == Last(b)
  {
    var ab := a + b;
    forall i | 0 <= i < |ab| - 1 ensures Edge(ab[i], ab[i + 1], w.firstParent) {
      if i < |a| - 1 {
        assert ab[i + 1] == a[i + 1];
      } else if i == |a| - 1 {
        assert ab[i + 1] == b[0];
      } else {
        assert ab[i] == b[i - |a|] && ab[i + 1] == b[i - |a| + 1];
      }
    }
  }

  lemma ReachesStep(tips: seq<Oid>, c: Oid, p: Oid, w: Rule)
    requires Reaches(tips, c, w) && Edge(c, p, w.firstParent) && !w.prune(p)
    ensures Reaches(tips, p, w)
  {
    var path :| IsPath(path, w) && path[0] in tips && Last(path) == c;
    assert IsPath([p], w);
    PathsJoin(path, [p], w);
  }

  lemma ReachesTip(tips: seq<Oid>, c: Oid, w: Rule)
    requires c in tips && !w.prune(c)
    ensures Reaches(tips, c, w)
  {
    assert IsPath([c], w) && Last([c]) == c;
  }

  lemma ReachesVia(tips: seq<Oid>, m: Oid, c: Oid, w: Rule)
    requires Reaches(tips, m, w) && Reaches(Follow(m, w.firstParent), c, w)
    ensures Reaches(tips, c, w)
  {
    var a :| IsPath(a, w) && a[0] in tips && Last(a) == m;
    var b :| IsPath(b, w) && Edge(m, b[0], w.firstParent) && Last(b) == c;
    PathsJoin(a, b, w);
  }

  lemma {:induction false} WalkReaches(cs: seq<Oid>, seen: set<Oid>, w: Rule, c: Oid)
    requires c in Walk(cs, seen, w).pre
    ensures Reaches(cs, c, w)
    decreases MaxDepth(cs), |cs|
  {
    var a := Visit(cs[0], seen, w);
    if c in a.pre {
      VisitReaches(cs[0], seen, w, c);
      var path :| IsPath(path, w) && path[0] in [cs[0]] && Last(path) == c;
      assert path[0] in cs;
    } else {
      WalkReaches(cs[1..], a.seen, w, c);
      var path :| IsPath(path, w) && path[0] in cs[1..] && Last(path) == c;
      assert path[0] in cs;
    }
  }

  lemma {:induction false} VisitReaches(c: Oid, seen: set<Oid>, w: Rule, x: Oid)
    requires x in Visit(c, seen, w).pre
    ensures Reaches([c], x, w)
    decreases Depth(c), 0
  {
    ReachesTip([c], c, w);
    if x != c {
      WalkReaches(Follow(c, w.firstParent), seen + {c}, w, x);
      ReachesVia([c], c, x, w);
    }
  }

  lemma {:induction false} PathIsWalked(path: seq<Oid>, cs: seq<Oid>, w: Rule)
    requires IsPath(path, w) && path[0] in cs
    ensures Last(path) in Walk(cs, {}, w).pre
    decreases |path|
  {
    WalkTidy(cs, {}, w);
    if |path| == 1 {
    } else {
      var prefix := path[..|path| - 1];
      PathIsWalked(prefix, cs, w);
      WalkClosed(cs, {}, w);
      assert Edge(Last(prefix), Last(path), w.firstParent);
    }
  }

  const NO_PRUNE: Oid -> bool := _ => false

  /** All parents, nothing pruned. */
  const EVERYTHING := Rule(NO_PRUNE, false)

  /** Paths and ancestry are the same thing. */
  lemma {:induction false} ReachesIsBelow(tip: Oid, c: Oid)
    ensures Reaches([tip], c, EVERYTHING) <==> Below(tip, c)
    decreases tip
  {
    if Below(tip, c) {
      ReachesTip([tip], tip, EVERYTHING);
      if c != tip {
        var p :| p in tip.parents && Below(p, c);
        ReachesIsBelow(p, c);
        var path :| IsPath(path, EVERYTHING) && path[0] in [p] && Last(path) == c;
        assert Edge(tip, path[0], false);
        ReachesVia([tip], tip, c, EVERYTHING);
      }
    }
    if Reaches([tip], c, EVERYTHING) {
      var path :| IsPath(path, EVERYTHING) && path[0] in [tip] && Last(path) == c;
      PathIsBelow(path, EVERYTHING);
    }
  }

  lemma {:induction false} PathIsBelow(path: seq<Oid>, w: Rule)
    requires IsPath(path, w)
    ensures Below(path[0], Last(path))
    decreases |path|
  {
    if |path| == 1 {
    } else {
      assert Edge(path[0], path[1], w.firstParent);
      PathIsBelow(path[1..], w);
    }
  }

  /** Children before parents, no repetition. */
  ghost predicate Topological(out: seq<Oid>, firstParent: bool) {
    && Distinct(out)
    && forall i, j :: 0 <= i < |out| && 0 <= j < |out| && Edge(out[i], out[j], firstParent) ==> i < j
  }

  /** Below `tip` but not below any of `bases`. */
  ghost predicate Between(tip: Oid, bases: set<Oid>, c: Oid) {
    Below(tip, c) && forall b :: b in bases ==> !Below(b, c)
  }

  lemma {:induction false} BelowLastEdge(tip: Oid, c: Oid) returns (x: Oid)
    requires Below(tip, c) && c != tip
    ensures Below(tip, x) && x.Commit? && c in x.parents
    decreases tip
  {
    var p :| p in tip.parents && Below(p, c);
    if p == c {
      x := tip;
    } else {
      x := BelowLastEdge(p, c);
    }
  }

  /** A topological listing of a range starts at its tip. */
  lemma TipFirst(out: seq<Oid>, tip: Oid, bases: set<Oid>)
    requires Topological(out, false) && forall c :: c in out <==> Between(tip, bases, c)
    ensures out != [] ==> out[0] == tip
  {
    if out != [] && out[0] != tip {
      assert out[0] in out;
      var x := BelowLastEdge(tip, out[0]);
      forall b | b in bases ensures !Below(b, x) {
        if Below(b, x) {
          assert Below(out[0], out[0]) && Below(x, out[0]);
          BelowTransitive(b, x, out[0]);
        }
      }
      assert Between(tip, bases, x);
    }
  }

  /** The yield of a walk from `tips`: recursive post-order read backwards. */
  function TopoOrder(tips: seq<Oid>, w: Rule): seq<Oid> {
    Reverse(Walk(tips, {}, w).post)
  }

  /** The commits below `tips` in the order a depth-first search first meets them. */
  function PreOrder(tips: seq<Oid>, firstParent: bool): seq<Oid> {
    Walk(tips, {}, Rule(NO_PRUNE, firstParent)).pre
  }

  /** Every commit of a pre-order is a start or a parent of an earlier one. */
  ghost predicate Linked(pre: seq<Oid>, cs: seq<Oid>, firstParent: bool) {
    forall i :: 0 <= i < |pre| ==>
      pre[i] in cs || exists k :: 0 <= k < i && Edge(pre[k], pre[i], firstParent)
  }

  lemma LinkedConcat(a: seq<Oid>, b: seq<Oid>, cs: seq<Oid>, ds: seq<Oid>, firstParent: bool)
    requires Linked(a, cs, firstParent) && Linked(b, ds, firstParent)
    requires forall d :: d in ds ==> d in cs || exists k :: 0 <= k < |a| && Edge(a[k], d, firstParent)
    ensures Linked(a + b, cs, firstParent)
  {
    var ab := a + b;
    forall i | 0 <= i < |ab|
      ensures ab[i] in cs || exists k :: 0 <= k < i && Edge(ab[k], ab[i], firstParent)
    {
      if i < |a| {
        if a[i] !in cs {
          var k :| 0 <= k < i && Edge(a[k], a[i], firstParent);
          assert Edge(ab[k], ab[i], firstParent);
        }
      } else if b[i - |a|] in ds {
        if ab[i] !in cs {
          var k :| 0 <= k < |a| && Edge(a[k], ab[i], firstParent);
          assert Edge(ab[k], ab[i], firstParent);
        }
      } else {
        var k :| 0 <= k < i - |a| && Edge(b[k], b[i - |a|], firstParent);
        assert Edge(ab[|a| + k], ab[i], firstParent);
      }
    }
  }

  lemma {:induction false} WalkLinked(cs: seq<Oid>, seen: set<Oid>, w: Rule)
    ensures Linked(Walk(cs, seen, w).pre, cs, w.firstParent)
    decreases MaxDepth(cs), |cs|
  {
    hide Linked;
    if cs != [] {
      var a := Visit(cs[0], seen, w);
      VisitLinked(cs[0], seen, w);
      WalkLinked(cs[1..], a.seen, w);
      LinkedWeaken(a.pre, [cs[0]], cs, w.firstParent);
      LinkedConcat(a.pre, Walk(cs[1..], a.seen, w).pre, cs, cs[1..], w.firstParent);
    } else {
      LinkedNone(cs, w.firstParent);
    }
  }

  lemma {:induction false} VisitLinked(c: Oid, seen: set<Oid>, w: Rule)
    ensures Linked(Visit(c, seen, w).pre, [c], w.firstParent)
    decreases Depth(c), 0
  {
    hide Linked;
    LinkedNone([c], w.firstParent);
    if c !in seen && !w.prune(c) {
      var ps := Follow(c, w.firstParent);
      WalkLinked(ps, seen + {c}, w);
      LinkedSelf(c, w.firstParent);
      assert [c][0] == c;
      LinkedConcat([c], Walk(ps, seen + {c}, w).pre, [c], ps, w.firstParent);
    }
  }

  lemma LinkedNone(cs: seq<Oid>, firstParent: bool)
    ensures Linked([], cs, firstParent)
  {
  }

  lemma LinkedSelf(c: Oid, firstParent: bool)
    ensures Linked([c], [c], firstParent)
  {
  }

  lemma LinkedWeaken(pre: seq<Oid>, cs: seq<Oid>, ds: seq<Oid>, firstParent: bool)
    requires Linked(pre, cs, firstParent) && forall c :: c in cs ==> c in ds
    ensures Linked(pre, ds, firstParent)
  {
  }

  /** The pre-order below `tip` lists its history, each commit once and linked to the start. */
  lemma PreOrderFacts(tip: Oid)
    ensures forall c :: c in PreOrder([tip], false) <==> Below(tip, c)
    ensures Distinct(PreOrder([tip], false))
    ensures Linked(PreOrder([tip], false), [tip], false)
  {
    WalkSummary([tip], EVERYTHING);
    WalkTidy([tip], {}, EVERYTHING);
    WalkLinked([tip], {}, EVERYTHING);
    forall c ensures Reaches([tip], c, EVERYTHING) <==> Below(tip, c) {
      ReachesIsBelow(tip, c);
    }
  }

  /** The yield set is exactly what unpruned paths reach... */
  lemma TopoOrderReaches(tips: seq<Oid>, w: Rule, c: Oid)
    ensures c in TopoOrder(tips, w) <==> Reaches(tips, c, w)
  {
    var t := Walk(tips, {}, w);
    WalkTidy(tips, {}, w);
    ReverseSame(t.post);
    if c in t.pre {
      WalkReaches(tips, {}, w, c);
    }
    if Reaches(tips, c, w) {
      var path :| IsPath(path, w) && path[0] in tips && Last(path) == c;
      PathIsWalked(path, tips, w);
    }
  }

  /** ...each commit once, children before parents. */
  lemma TopoOrderTopological(tips: seq<Oid>, w: Rule)
    ensures Topological(TopoOrder(tips, w), w.firstParent)
  {
    var t := Walk(tips, {}, w);
    var out := TopoOrder(tips, w);
    WalkTidy(tips, {}, w);
    ReverseSame(t.post);
    WalkParentsFirst(tips, {}, w);
    forall i, j | 0 <= i < |out| && 0 <= j < |out| && Edge(out[i], out[j], w.firstParent)
      ensures i < j
    {
      var k := |out| - 1 - i;
      assert t.post[k] == out[i];
      assert out[j] in t.post && !w.prune(out[j]);
      assert out[j] in t.post[..k];
    }
  }

  lemma WalkSummary(tips: seq<Oid>, w: Rule)
    ensures TopoOrder(tips, w) == Reverse(Walk(tips, {}, w).post)
    ensures forall c :: c in TopoOrder(tips, w) <==> Reaches(tips, c, w)
    ensures forall c :: c in Walk(tips, {}, w).pre <==> Reaches(tips, c, w)
    ensures Topological(TopoOrder(tips, w), w.firstParent)
    ensures Distinct(Walk(tips, {}, w).asked)
  {
    TopoOrderTopological(tips, w);
    WalkTidy(tips, {}, w);
    ReverseSame(Walk(tips, {}, w).post);
    forall c ensures c in TopoOrder(tips, w) <==> Reaches(tips, c, w) {
      TopoOrderReaches(tips, w, c);
    }
  }

  // ------------------------------------------------------------------ the first-parent line

  /** `c` is met going from `tip` to its first parent, and on to that one's, up to a pruned commit. */
  ghost predicate OnFirstLine(tip: Oid, c: Oid, prune: Oid -> bool) {
    && !prune(tip)
    && (c == tip || (tip.Commit? && tip.parents != [] && OnFirstLine(tip.parents[0], c, prune)))
  }

  /** In first-parent mode a walk yields the first-parent lines of its tips and nothing else. */
  lemma FirstParentYield(tips: seq<Oid>, prune: Oid -> bool, c: Oid)
    ensures Reaches(tips, c, Rule(prune, true)) <==> exists t :: t in tips && OnFirstLine(t, c, prune)
  {
    hide OnFirstLine;
    var w := Rule(prune, true);
    if Reaches(tips, c, w) {
      var path :| IsPath(path, w) && path[0] in tips && Last(path) == c;
      PathIsFirstLine(path, prune);
    }
    if t :| t in tips && OnFirstLine(t, c, prune) {
      var path := FirstLineIsPath(t, c, prune);
    }
  }

  lemma {:induction false} PathIsFirstLine(path: seq<Oid>, prune: Oid -> bool)
    requires IsPath(path, Rule(prune, true))
    ensures OnFirstLine(path[0], Last(path), prune)
    decreases |path|
  {
    if |path| == 1 {
    } else {
      PathIsFirstLine(path[1..], prune);
      assert Edge(path[0], path[1], true);
    }
  }

  lemma {:induction false} FirstLineIsPath(tip: Oid, c: Oid, prune: Oid -> bool) returns (path: seq<Oid>)
    requires OnFirstLine(tip, c, prune)
    ensures IsPath(path, Rule(prune, true)) && path[0] == tip && Last(path) == c
    decreases tip
  {
    if c == tip {
      path := [c];
    } else {
      var rest := FirstLineIsPath(tip.parents[0], c, prune);
      path := [tip] + rest;
      PathsJoin([tip], rest, Rule(prune, true));
    }
  }

  // ------------------------------------------------------------------ the order of a walk

  ghost predicate ComesBefore(s: seq<Oid>, x: Oid, y: Oid) {
    exists i, j :: 0 <= i < j < |s| && s[i] == x && s[j] == y
  }

  lemma BeforeConcat(a: seq<Oid>, b: seq<Oid>, x: Oid, y: Oid)
    requires x in a && y in b
    ensures ComesBefore(a + b, x, y) && ComesBefore(Reverse(a + b), y, x)
  {
    var ab := a + b;
    var i :| 0 <= i < |a| && a[i] == x;
    var j :| 0 <= j < |b| && b[j] == y;
    assert ab[i] == x && ab[|a| + j] == y;
    assert Reverse(ab)[|ab| - 1 - i] == x && Reverse(ab)[|ab| - 1 - (|a| + j)] == y;
  }

  lemma {:induction false} WalkSplit(a: seq<Oid>, b: seq<Oid>, seen: set<Oid>, w: Rule)
    ensures Walk(a + b, seen, w) == Then(Walk(a, seen, w), Walk(b, Walk(a, seen, w).seen, w))
    decreases |a|
  {
    if a == [] {
      var t := Walk(b, seen, w);
      assert a + b == b;
      assert [] + t.asked == t.asked && [] + t.pre == t.pre && [] + t.post == t.post;
    } else {
      var first := Visit(a[0], seen, w);
      assert (a + b)[1..] == a[1..] + b;
      WalkSplit(a[1..], b, first.seen, w);
      var rest := Walk(a[1..], first.seen, w);
      ThenAssociative(first, rest, Walk(b, rest.seen, w));
    }
  }

  /** Tips are walked in their order: what the first `k` of them reach is met and finished before
      anything that only later ones reach, and so is yielded after it. */
  lemma TipsInOrder(tips: seq<Oid>, k: nat, w: Rule, x: Oid, y: Oid)
    requires k <= |tips| && Reaches(tips[..k], x, w) && Reaches(tips, y, w) && !Reaches(tips[..k], y, w)
    ensures ComesBefore(Walk(tips, {}, w).pre, x, y)
    ensures ComesBefore(TopoOrder(tips, w), y, x)
  {
    hide Walk, Reaches, ComesBefore;
    var a := Walk(tips[..k], {}, w);
    var b := Walk(tips[k..], a.seen, w);
    assert tips == tips[..k] + tips[k..];
    WalkSplit(tips[..k], tips[k..], {}, w);
    WalkTidy(tips, {}, w);
    WalkTidy(tips[..k], {}, w);
    WalkSummary(tips[..k], w);
    WalkSummary(tips, w);
    assert x in a.pre && x in a.post && y !in a.pre && y !in a.post;
    assert y in b.pre && y in b.post;
    BeforeConcat(a.pre, b.pre, x, y);
    BeforeConcat(a.post, b.post, x, y);
  }

  /** A commit is not below anything shallower than itself. */
  lemma {:induction false} WalkIgnores(cs: seq<Oid>, seen: set<Oid>, w: Rule, c: Oid)
    requires MaxDepth(cs) < Depth(c)
    ensures Walk(cs, seen + {c}, w) == Walk(cs, seen, w).(seen := Walk(cs, seen, w).seen + {c})
    decreases MaxDepth(cs), |cs|
  {
    if cs == [] {
    } else {
      VisitIgnores(cs[0], seen, w, c);
      WalkIgnores(cs[1..], Visit(cs[0], seen, w).seen, w, c);
    }
  }

  lemma {:induction false} VisitIgnores(x: Oid, seen: set<Oid>, w: Rule, c: Oid)
    requires Depth(x) < Depth(c)
    ensures Visit(x, seen + {c}, w) == Visit(x, seen, w).(seen := Visit(x, seen, w).seen + {c})
    decreases Depth(x), 0
  {
    if x !in seen && !w.prune(x) {
      WalkIgnores(Follow(x, w.firstParent), seen + {x}, w, c);
      assert seen + {c} + {x} == seen + {x} + {c};
    } else {
      assert seen + {c} + {x} == seen + {x} + {c};
    }
  }

  /** A walk from one commit is that commit and then the walk from its parents, or from its first
      parent only. */
  lemma TipThenParents(c: Oid, w: Rule)
    requires !w.prune(c) && c.Commit?
    ensures var ps := if w.firstParent && c.parents != [] then [c.parents[0]] else c.parents;
      && Walk([c], {}, w).pre == [c] + Walk(ps, {}, w).pre
      && TopoOrder([c], w) == [c] + TopoOrder(ps, w)
  {
    var ps := Follow(c, w.firstParent);
    assert w.firstParent && c.parents != [] ==> ps == [c.parents[0]];
    WalkIgnores(ps, {}, w, c);
    assert {} + {c} == {c};
    var t := Walk(ps, {}, w);
    var none := Trail(t.seen + {c}, [], [], []);
    assert Walk([c], {}, w) == Then(Around(c, t.(seen := t.seen + {c})), none);
    assert Walk([c], {}, w).pre == [c] + t.pre && Walk([c], {}, w).post == t.post + [c];
    ReverseSnoc(t.post, c);
  }

  lemma ReverseSnoc(s: seq<Oid>, c: Oid)
    ensures Reverse(s + [c]) == [c] + Reverse(s)
  {
  }

  // ------------------------------------------------------------------ stack refinement

  datatype Frame<T> = Explore(c: T) | Emit(c: T)

  /** What is left to do when the stack (top at the end) is `stack`. */
  function Finish(stack: seq<Frame<Oid>>, seen: set<Oid>, w: Rule): Trail {
    if stack == [] then Trail(seen, [], [], [])
    else
      var rest := stack[..|stack| - 1];
      match Last(stack)
      case Explore(c) => Then(Visit(c, seen, w), Finish(rest, Visit(c, seen, w).seen, w))
      case Emit(c) =>
        var t := Finish(rest, seen, w);
        t.(post := [c] + t.post)
  }

  /** One `Explore` frame per commit, the first commit on top. */
  function Frames<T>(cs: seq<T>): (fs: seq<Frame<T>>)
    ensures |fs| == |cs|
    ensures forall i :: 0 <= i < |cs| ==> fs[i] == Explore(cs[|cs| - 1 - i])
  {
    if cs == [] then [] else Frames(cs[1..]) + [Explore(cs[0])]
  }

  lemma ThenAssociative(a: Trail, b: Trail, c: Trail)
    ensures Then(Then(a, b), c) == Then(a, Then(b, c))
  {
    assert (a.asked + b.asked) + c.asked == a.asked + (b.asked + c.asked);
    assert (a.pre + b.pre) + c.pre == a.pre + (b.pre + c.pre);
    assert (a.post + b.post) + c.post == a.post + (b.post + c.post);
  }

  lemma ThenNothing(t: Trail)
    ensures Then(t, Trail(t.seen, [], [], [])) == t
  {
  }

  /** Finishing a pile of `Explore` frames is one recursive walk. */
  lemma {:induction false} FinishFrames(stack: seq<Frame<Oid>>, cs: seq<Oid>, seen: set<Oid>, w: Rule)
    ensures Finish(stack + Frames(cs), seen, w)
         == Then(Walk(cs, seen, w), Finish(stack, Walk(cs, seen, w).seen, w))
    decreases |cs|
  {
    if cs == [] {
      var t := Finish(stack, seen, w);
      assert stack + Frames(cs) == stack;
      assert [] + t.asked == t.asked && [] + t.pre == t.pre && [] + t.post == t.post;
    } else {
      var a := Visit(cs[0], seen, w);
      var full := stack + Frames(cs);
      assert Last(full) == Explore(cs[0]);
      assert full[..|full| - 1] == stack + Frames(cs[1..]);
      FinishFrames(stack, cs[1..], a.seen, w);
      var b := Walk(cs[1..], a.seen, w);
      ThenAssociative(a, b, Finish(stack, b.seen, w));
    }
  }

  lemma FinishExplore(rest: seq<Frame<Oid>>, c: Oid, seen: set<Oid>, w: Rule)
    ensures Finish(rest + [Explore(c)], seen, w)
         == Then(Visit(c, seen, w), Finish(rest, Visit(c, seen, w).seen, w))
  {
    assert (rest + [Explore(c)])[..|rest|] == rest;
  }

  lemma FinishEmit(rest: seq<Frame<Oid>>, c: Oid, seen: set<Oid>, w: Rule)
    ensures Finish(rest + [Emit(c)], seen, w)
         == Finish(rest, seen, w).(post := [c] + Finish(rest, seen, w).post)
  {
    assert (rest + [Emit(c)])[..|rest|] == rest;
  }

  /** The stack after the top frame of an unseen, unpruned commit is replaced by its `Emit`
      frame and one frame per parent. */
  function Expanded(rest: seq<Frame<Oid>>, c: Oid, firstParent: bool): seq<Frame<Oid>> {
    rest + [Emit(c)] + Frames(Follow(c, firstParent))
  }

  /** ...leaves the rest of the walk as it was. */
  lemma FinishExpand(rest: seq<Frame<Oid>>, c: Oid, seen: set<Oid>, w: Rule, after: Trail)
    requires c !in seen && !w.prune(c)
    requires after == Finish(Expanded(rest, c, w.firstParent), seen + {c}, w)
    ensures Finish(rest + [Explore(c)], seen, w)
         == Trail(after.seen, [c] + after.asked, [c] + after.pre, after.post)
  {
    var below := Walk(Follow(c, w.firstParent), seen + {c}, w);
    var tail := Finish(rest, below.seen, w);
    assert after == Then(below, tail.(post := [c] + tail.post)) by {
      FinishFrames(rest + [Emit(c)], Follow(c, w.firstParent), seen + {c}, w);
      FinishEmit(rest, c, below.seen, w);
    }
    assert Finish(rest + [Explore(c)], seen, w) == Then(Around(c, below), tail) by {
      FinishExplore(rest, c, seen, w);
    }
    AroundThen(c, below, tail);
  }

  lemma AroundThen(c: Oid, below: Trail, tail: Trail)
    ensures var after := Then(below, tail.(post := [c] + tail.post));
      Then(Around(c, below), tail) == Trail(after.seen, [c] + after.asked, [c] + after.pre, after.post)
  {
    assert below.post + ([c] + tail.post) == (below.post + [c]) + tail.post;
    assert [c] + (below.asked + tail.asked) == ([c] + below.asked) + tail.asked;
    assert [c] + (below.pre + tail.pre) == ([c] + below.pre) + tail.pre;
  }

  /** What has been done so far plus what the stack still holds is the whole walk. */
  ghost predicate Progress(whole: Trail, stack: seq<Frame<Oid>>, done: Trail, w: Rule) {
    whole == Then(done, Finish(stack, done.seen, w))
  }

  /** `done` is an initial part of `whole`. */
  ghost predicate Before(done: Trail, whole: Trail) {
    done.asked <= whole.asked && done.pre <= whole.pre && done.post <= whole.post
  }

  lemma ProgressIsBefore(whole: Trail, stack: seq<Frame<Oid>>, done: Trail, w: Rule)
    requires Progress(whole, stack, done, w)
    ensures Before(done, whole)
  {
  }

  lemma ProgressStart(tips: seq<Oid>, w: Rule)
    ensures Progress(Walk(tips, {}, w), Frames(tips), Trail({}, [], [], []), w)
  {
    var t := Walk(tips, {}, w);
    assert [] + Frames(tips) == Frames(tips);
    FinishFrames([], tips, {}, w);
    ThenNothing(t);
  }

  lemma ProgressDone(whole: Trail, done: Trail, w: Rule)
    requires Progress(whole, [], done, w)
    ensures done == whole
  {
    ThenNothing(done);
  }

  lemma ProgressEmit(whole: Trail, rest: seq<Frame<Oid>>, c: Oid, done: Trail, w: Rule)
    requires Progress(whole, rest + [Emit(c)], done, w)
    ensures Progress(whole, rest, done.(post := done.post + [c]), w)
  {
    FinishEmit(rest, c, done.seen, w);
    var tail := Finish(rest, done.seen, w);
    assert done.post + ([c] + tail.post) == (done.post + [c]) + tail.post;
  }

  lemma ProgressSkip(whole: Trail, rest: seq<Frame<Oid>>, c: Oid, done: Trail, w: Rule)
    requires Progress(whole, rest + [Explore(c)], done, w)
    requires c in done.seen || w.prune(c)
    ensures Progress(whole, rest, if c in done.seen then done
                                  else done.(seen := done.seen + {c}, asked := done.asked + [c]), w)
  {
    FinishExplore(rest, c, done.seen, w);
    var a := Visit(c, done.seen, w);
    var tail := Finish(rest, a.seen, w);
    ThenAssociative(done, a, tail);
    assert done.asked + [] == done.asked && done.pre + [] == done.pre && done.post + [] == done.post;
  }

  lemma ProgressExpand(whole: Trail, rest: seq<Frame<Oid>>, c: Oid, done: Trail, w: Rule)
    requires Progress(whole, rest + [Explore(c)], done, w)
    requires c !in done.seen && !w.prune(c)
    ensures Progress(whole, Expanded(rest, c, w.firstParent),
                     Trail(done.seen + {c}, done.asked + [c], done.pre + [c], done.post), w)
  {
    var after := Finish(Expanded(rest, c, w.firstParent), done.seen + {c}, w);
    FinishExpand(rest, c, done.seen, w, after);
    assert done.asked + ([c] + after.asked) == (done.asked + [c]) + after.asked;
    assert done.pre + ([c] + after.pre) == (done.pre + [c]) + after.pre;
  }

  // ------------------------------------------------------------------ the walker

  /** A node of this walk; the flag says whether the commit was visited. */
  type Mark = Node<bool>

  datatype Answer = Continue | Break | Fail

  ghost predicate FramesDenote(stack: seq<Frame<nat>>, names: seq<Frame<Oid>>, nodes: seq<Mark>) {
    && |stack| == |names|
    && forall i :: 0 <= i < |stack| ==>
         && stack[i].c < |nodes| && nodes[stack[i].c].oid == names[i].c
         && stack[i].Explore? == names[i].Explore?
  }

  lemma FramesDenoteExpand(rest: seq<Frame<nat>>, names: seq<Frame<Oid>>, c: nat, ids: seq<nat>,
                           cs: seq<Oid>, nodes: seq<Mark>)
    requires FramesDenote(rest, names, nodes) && c < |nodes| && Denotes(ids, cs, nodes)
    ensures FramesDenote(rest + [Emit(c)] + Frames(ids), names + [Emit(nodes[c].oid)] + Frames(cs), nodes)
  {
  }

  function Visited(nodes: seq<Mark>): set<Oid> {
    set i | 0 <= i < |nodes| && nodes[i].flags :: nodes[i].oid
  }

  lemma GrownKeeps(before: seq<Mark>, after: seq<Mark>)
    requires Grown(before, after, false)
    ensures Visited(after) == Visited(before)
  {
    forall c | c in Visited(before) ensures c in Visited(after) {
      var i :| 0 <= i < |before| && before[i].flags && before[i].oid == c;
      assert after[i].flags && after[i].oid == c;
    }
  }

  lemma VisitedFlag(nodes: seq<Mark>, byOid: map<Oid, nat>, odb: Odb, i: nat)
    requires Consistent(nodes, byOid, odb) && i < |nodes|
    ensures nodes[i].flags <==> nodes[i].oid in Visited(nodes)
    ensures Visited(WithFlags(nodes, i, true)) == Visited(nodes) + {nodes[i].oid}
    ensures Consistent(WithFlags(nodes, i, true), byOid, odb)
  {
    var after := WithFlags(nodes, i, true);
    forall c | c in Visited(nodes) + {nodes[i].oid} ensures c in Visited(after) {
      var k :| 0 <= k < |nodes| && nodes[k].oid == c && (nodes[k].flags || k == i);
      assert after[k].flags && after[k].oid == c;
    }
  }

  /** The walk stops at `c`: the callback says so or the commit cannot be read. */
  predicate Halts(odb: Odb, visit: Oid -> Answer, c: Oid) {
    visit(c) != Continue || !Readable(odb, c)
  }

  /** `visits` is a run of callback calls over `pre`: in order, up to and including the first
      commit that halts the walk. */
  ghost predicate StreamedUpTo(visits: seq<Oid>, pre: seq<Oid>, odb: Odb, visit: Oid -> Answer) {
    && visits <= pre
    && (forall i :: 0 <= i < |visits| - 1 ==> !Halts(odb, visit, visits[i]))
    && (visits == pre || (visits != [] && Halts(odb, visit, Last(visits))))
  }

  ghost predicate HaltsWithin(odb: Odb, visit: Oid -> Answer, cs: seq<Oid>) {
    exists c :: c in cs && Halts(odb, visit, c)
  }

  class RevWalk {
    const odb: Odb
    var nodes: seq<Mark>
    var byOid: map<Oid, nat>
    var tips: seq<nat>
    var firstParent: bool

    ghost predicate Valid()
      reads this
    {
      Consistent(nodes, byOid, odb)
    }

    /** The walker is set up to start from `cs` and has not walked yet. */
    ghost predicate Starts(cs: seq<Oid>)
      reads this
    {
      Valid() && Denotes(tips, cs, nodes) && forall i :: 0 <= i < |nodes| ==> !nodes[i].flags
    }

    constructor (odb: Odb)
      ensures this.odb == odb && Starts([]) && !firstParent
    {
      this.odb := odb;
      nodes, byOid, tips, firstParent := [], map[], [], false;
    }

    method Push(tip: Oid, ghost cs: seq<Oid>) returns (ok: bool)
      requires Starts(cs)
      modifies this
      ensures firstParent == old(firstParent)
      ensures ok <==> Readable(odb, tip)
      ensures Starts(if ok then cs + [tip] else cs)
    {
      ok := tip in odb && tip.Commit?;
      if ok {
        var i := Intern(tip);
        tips := tips + [i];
      }
    }

    method SimplifyFirstParent(ghost cs: seq<Oid>)
      requires Starts(cs)
      modifies this
      ensures Starts(cs) && firstParent
    {
      firstParent := true;
    }

    method Intern(oid: Oid) returns (i: nat)
      requires Valid()
      modifies this
      ensures Valid() && tips == old(tips) && firstParent == old(firstParent)
      ensures i < |nodes| && nodes[i].oid == oid
      ensures old(nodes) <= nodes
      ensures forall k :: |old(nodes)| <= k < |nodes| ==> !nodes[k].flags
    {
      if oid in byOid {
        return byOid[oid];
      }
      ConsistentAdd(nodes, byOid, odb, oid, false);
      i := |nodes|;
      nodes := nodes + [Node(oid, [], false, false)];
      byOid := byOid[oid := i];
    }

    method Parse(commit: nat) returns (ok: bool)
      requires Valid() && commit < |nodes|
      modifies this
      ensures Valid() && tips == old(tips) && firstParent == old(firstParent)
      ensures Grown(old(nodes), nodes, false)
      ensures ok <==> Readable(odb, nodes[commit].oid)
      ensures ok ==> nodes[commit].parsed
    {
      hide Consistent;
      if nodes[commit].parsed {
        ParsedDenotes(nodes, byOid, odb, commit);
        return true;
      }
      var oid := nodes[commit].oid;
      if !(oid in odb && oid.Commit?) {
        return false;
      }
      var ids: seq<nat> := [];
      for k := 0 to |oid.parents|
        invariant Valid() && tips == old(tips) && firstParent == old(firstParent)
        invariant old(nodes) <= nodes
        invariant forall j :: |old(nodes)| <= j < |nodes| ==> !nodes[j].flags
        invariant Denotes(ids, oid.parents[..k], nodes)
      {
        var p := Intern(oid.parents[k]);
        ids := ids + [p];
      }
      assert oid.parents[..|oid.parents|] == oid.parents;
      ConsistentParse(nodes, byOid, odb, commit, ids);
      nodes := nodes[commit := nodes[commit].(parents := ids, parsed := true)];
      ok := true;
    }

    /** Push the `Emit` frame of `c` and one `Explore` frame per followed parent, first on top. */
    method Schedule(rest: seq<Frame<nat>>, c: nat, ghost names: seq<Frame<Oid>>)
      returns (stack: seq<Frame<nat>>)
      requires Valid() && FramesDenote(rest, names, nodes) && c < |nodes| && nodes[c].parsed
      ensures FramesDenote(stack, Expanded(names, nodes[c].oid, firstParent), nodes)
    {
      hide Consistent;
      ParsedDenotes(nodes, byOid, odb, c);
      var parents := nodes[c].parents;
      var n := if firstParent && |parents| > 1 then 1 else |parents|;
      stack := rest + [Emit(c)];
      assert Frames(parents[n..n]) == [];
      for i := n downto 0
        invariant stack == rest + [Emit(c)] + Frames(parents[i..n])
      {
        assert parents[i..n][1..] == parents[i + 1..n];
        stack := stack + [Explore(parents[i])];
      }
      FramesDenoteExpand(rest, names, c, parents[0..n], Follow(nodes[c].oid, firstParent), nodes);
    }

    /** Process an `Explore` frame: skip a visited commit, drop a pruned one, otherwise call the
        callback, parse and expand. `done` and `after` are the work finished before and after,
        `names` and `next` what the stack stands for. */
    method ExploreFrame(rest: seq<Frame<nat>>, c: nat, prune: Oid -> bool, visit: Oid -> Answer,
                        ghost names: seq<Frame<Oid>>, ghost whole: Trail, ghost done: Trail)
      returns (stack: seq<Frame<nat>>, verdict: Answer, ghost next: seq<Frame<Oid>>, ghost after: Trail)
      requires Valid() && FramesDenote(rest, names, nodes) && c < |nodes| && done.seen == Visited(nodes)
      requires Progress(whole, names + [Explore(nodes[c].oid)], done, Rule(prune, firstParent))
      modifies this
      ensures Valid() && firstParent == old(firstParent) && SameOids(old(nodes), nodes)
      ensures FramesDenote(stack, next, nodes) && after.seen == Visited(nodes) && after.post == done.post
      ensures after.pre == done.pre ==> stack == rest
      ensures after.pre == done.pre || after.pre == done.pre + [nodes[c].oid]
      ensures verdict == Continue ==>
        && Progress(whole, next, after, Rule(prune, firstParent))
        && (after.pre != done.pre ==> !Halts(odb, visit, nodes[c].oid))
      ensures verdict != Continue ==>
        && after.pre != done.pre && Halts(odb, visit, nodes[c].oid)
        && (verdict == Break <==> visit(nodes[c].oid) == Break)
        && Before(after, whole)
    {
      hide Finish, Walk, Visit, Consistent, Progress, Expanded;
      ghost var w := Rule(prune, firstParent);
      var oid := nodes[c].oid;
      stack, verdict, next, after := rest, Continue, names, done;
      VisitedFlag(nodes, byOid, odb, c);
      if nodes[c].flags {
        ProgressSkip(whole, names, oid, done, w);
        return;
      }
      nodes := WithFlags(nodes, c, true);
      if prune(oid) {
        ProgressSkip(whole, names, oid, done, w);
        after := done.(seen := done.seen + {oid}, asked := done.asked + [oid]);
        return;
      }
      ProgressExpand(whole, names, oid, done, w);
      ProgressIsBefore(whole, Expanded(names, oid, firstParent),
                       Trail(done.seen + {oid}, done.asked + [oid], done.pre + [oid], done.post), w);
      after := Trail(done.seen + {oid}, done.asked + [oid], done.pre + [oid], done.post);
      verdict := visit(oid);
      if verdict == Continue {
        ghost var before := nodes;
        var ok := Parse(c);
        GrownKeeps(before, nodes);
        if ok {
          next := Expanded(names, oid, firstParent);
          stack := Schedule(rest, c, names);
        } else {
          verdict := Fail;
        }
      }
    }

    /** Run the stack down until it is empty or the walk halts. */
    method Drain(start: seq<Frame<nat>>, prune: Oid -> bool, visit: Oid -> Answer,
                 ghost names: seq<Frame<Oid>>, ghost whole: Trail)
      returns (post: seq<nat>, verdict: Answer, at: Oid, ghost done: Trail)
      requires Valid() && FramesDenote(start, names, nodes) && Visited(nodes) == {}
      requires Progress(whole, names, Trail({}, [], [], []), Rule(prune, firstParent))
      modifies this
      ensures Valid() && Denotes(post, done.post, nodes) && Before(done, whole)
      ensures verdict == Continue ==> done == whole && !HaltsWithin(odb, visit, done.pre)
      ensures verdict != Continue ==>
        && done.pre != [] && Halts(odb, visit, Last(done.pre)) && at == Last(done.pre)
        && (verdict == Break <==> visit(Last(done.pre)) == Break)
        && !HaltsWithin(odb, visit, done.pre[..|done.pre| - 1])
    {
      hide Finish, Walk, Visit;
      var stack := start;
      ghost var w, left := Rule(prune, firstParent), names;
      post, verdict, at, done := [], Continue, Zero, Trail({}, [], [], []);
      while stack != []
        invariant Valid() && firstParent == w.firstParent && verdict == Continue
        invariant FramesDenote(stack, left, nodes) && Denotes(post, done.post, nodes)
        invariant done.seen == Visited(nodes)
        invariant Progress(whole, left, done, w)
        invariant !HaltsWithin(odb, visit, done.pre)
        decreases |whole.pre| - |done.pre|, |stack|
      {
        var frame, rest := Last(stack), stack[..|stack| - 1];
        ghost var under := left[..|left| - 1];
        assert left == under + [Last(left)];
        match frame
        case Emit(c) =>
          ProgressEmit(whole, under, nodes[c].oid, done, w);
          post, stack, left := post + [c], rest, under;
          done := done.(post := done.post + [nodes[c].oid]);
        case Explore(c) =>
          ghost var was := done.pre;
          at := nodes[c].oid;
          stack, verdict, left, done := ExploreFrame(rest, c, prune, visit, under, whole, done);
          if verdict != Continue {
            assert done.pre == was + [at] && nodes[c].oid == at;
            assert done.pre[..|done.pre| - 1] == was;
            return;
          }
      }
      ProgressDone(whole, done, w);
    }

    method Oids(ids: seq<nat>, ghost cs: seq<Oid>) returns (oids: seq<Oid>)
      requires Denotes(ids, cs, nodes)
      ensures oids == cs
    {
      oids := [];
      for i := 0 to |ids|
        invariant oids == cs[..i]
      {
        oids := oids + [nodes[ids[i]].oid];
      }
    }

    /** Depth-first search from the tips. `visit` fires in pre-order and `Break` stops the walk
        with the partial result; `asked` and `visits` log the calls of the two callbacks. `at` is
        the commit for which `visit` said `Break`, which the callback can keep for its caller. */
    method Dfs(prune: Oid -> bool, visit: Oid -> Answer, ghost cs: seq<Oid>)
      returns (r: Result<seq<Oid>>, at: Option<Oid>, ghost asked: seq<Oid>, ghost visits: seq<Oid>)
      requires Starts(cs)
      modifies this
      ensures
        var whole := Walk(cs, {}, Rule(prune, old(firstParent)));
        && asked <= whole.asked
        && StreamedUpTo(visits, whole.pre, odb, visit)
        && (if visits != [] && Halts(odb, visit, Last(visits)) then
              && (r.Ok? <==> visit(Last(visits)) == Break)
              && (r.Ok? ==> r.value <= whole.post && at == Some(Last(visits)))
            else
              r == Ok(whole.post) && at == None && asked == whole.asked)
    {
      ghost var whole := Walk(cs, {}, Rule(prune, firstParent));
      ProgressStart(cs, Rule(prune, firstParent));
      assert Visited(nodes) == {};
      var post, verdict, stop;
      ghost var done;
      post, verdict, stop, done := Drain(Frames(tips), prune, visit, Frames(cs), whole);
      asked, visits := done.asked, done.pre;
      assert forall i :: 0 <= i < |visits| - 1 ==> visits[i] in visits[..|visits| - 1];
      if verdict == Fail {
        return Err, None, asked, visits;
      }
      var oids := Oids(post, done.post);
      r, at := Ok(oids), if verdict == Break then Some(stop) else None;
    }

    /** The complete walk, children before parents. */
    method IntoTopoVec(prune: Oid -> bool, ghost cs: seq<Oid>)
      returns (r: Result<seq<Oid>>, ghost asked: seq<Oid>)
      requires Starts(cs)
      modifies this
      ensures var w := Rule(prune, old(firstParent));
        && Distinct(asked)
        && (r.Ok? <==> forall c :: Reaches(cs, c, w) ==> Readable(odb, c))
        && (r.Ok? ==>
              && r.value == TopoOrder(cs, w)
              && (forall c :: c in r.value <==> Reaches(cs, c, w))
              && Topological(r.value, w.firstParent))
        && (r.Ok? && w.firstParent ==>
              forall c :: c in r.value <==> exists t :: t in cs && OnFirstLine(t, c, prune))
    {
      hide Walk, TopoOrder, Reaches, Topological, Tidy, Starts;
      var post, at;
      ghost var visits;
      ghost var w := Rule(prune, firstParent);
      post, at, asked, visits := Dfs(prune, _ => Continue, cs);
      WalkSummary(cs, w);
      if visits != [] {
        assert Last(visits) in Walk(cs, {}, w).pre;
      }
      DistinctPrefix(asked, Walk(cs, {}, w).asked);
      r := if post.Ok? then Ok(Reverse(post.value)) else Err;
      if w.firstParent {
        forall c ensures Reaches(cs, c, w) <==> exists t :: t in cs && OnFirstLine(t, c, prune) {
          FirstParentYield(cs, prune, c);
        }
      }
    }

    /** Streams commits in pre-order to `visit`, and stops as soon as it says so. */
    method Discover(visit: Oid -> Answer, ghost cs: seq<Oid>)
      returns (r: Result<Option<Oid>>, ghost visits: seq<Oid>)
      requires Starts(cs)
      modifies this
      ensures
        var pre := PreOrder(cs, old(firstParent));
        && StreamedUpTo(visits, pre, odb, visit)
        && (r.Ok? <==> visits == [] || !Halts(odb, visit, Last(visits)) || visit(Last(visits)) == Break)
        && (r.Ok? ==> r.value == if visits != [] && Halts(odb, visit, Last(visits)) then Some(Last(visits)) else None)
    {
      var post, at;
      ghost var asked;
      post, at, asked, visits := Dfs(NO_PRUNE, visit, cs);
      r := if post.Ok? then Ok(at) else Err;
    }
  }
}
