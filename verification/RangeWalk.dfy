/** The `base..tip` walk: the commits reachable from a tip but not from a base. A single-parent
    chain is followed directly; anything else goes through a frontier that is processed highest
    sequence number first while hidden marks spread from the base. Both are exact. */
module RangeWalks {
  import opened Objects
  import opened NodeTables
  import opened RevWalks

  const FAST_FORWARD_PROBE_LIMIT: nat := 1000

  // ------------------------------------------------------------------ specification

  /** `out` lists exactly the commits of `base..tip`, each once, children before parents. */
  ghost predicate IsRange(out: seq<Oid>, tip: Oid, base: Oid) {
    && (forall c :: c in out <==> Below(tip, c) && !Below(base, c))
    && Topological(out, false)
  }

  /** A commit's sequence number is greater than every parent's. */
  ghost predicate Numbering(number: Oid -> nat) {
    forall c: Oid, p: Oid :: c.Commit? && p in c.parents ==> number(p) < number(c)
  }

  lemma {:induction false} NumberBelow(number: Oid -> nat, tip: Oid, c: Oid)
    requires Numbering(number) && Below(tip, c)
    ensures c == tip || number(c) < number(tip)
  {
    if c == tip {
    } else {
      var p :| p in tip.parents && Below(p, c);
      NumberBelow(number, p, c);
    }
  }

  /** A list sorted by falling sequence number is in topological order. */
  lemma FallingIsTopological(out: seq<Oid>, number: Oid -> nat)
    requires Numbering(number) && Distinct(out)
    requires forall i, j :: 0 <= i < j < |out| ==> number(out[i]) >= number(out[j])
    ensures Topological(out, false)
  {
    forall i, j | 0 <= i < |out| && 0 <= j < |out| && Edge(out[i], out[j], false) ensures i < j {
      assert number(out[j]) < number(out[i]);
    }
  }

  // ------------------------------------------------------------------ fast-forward chains

  /** `out` runs from `tip` down single-parent commits and stops just above `end`. */
  ghost predicate Chain(out: seq<Oid>, tip: Oid, end: Oid) {
    if out == [] then tip == end
    else
      && tip == out[0] && tip.Commit? && |tip.parents| == 1
      && Chain(out[1..], tip.parents[0], end)
  }

  lemma {:induction false} ChainExtend(out: seq<Oid>, tip: Oid, end: Oid)
    requires Chain(out, tip, end) && end.Commit? && |end.parents| == 1
    ensures Chain(out + [end], tip, end.parents[0])
  {
    if out != [] {
      ChainExtend(out[1..], tip.parents[0], end);
      assert (out + [end])[1..] == out[1..] + [end];
    } else {
      assert (out + [end])[1..] == [];
    }
  }

  /** A chain that ends at the base is the whole range: the base is an ancestor of every commit
      on it, so none of them can be an ancestor of the base. */
  lemma {:induction false} ChainIsRange(out: seq<Oid>, tip: Oid, base: Oid)
    requires Chain(out, tip, base)
    ensures Below(tip, base)
    ensures forall c :: c in out <==> Below(tip, c) && !Below(base, c)
    ensures forall i :: 0 <= i < |out| ==> Depth(base) < Depth(out[i]) <= Depth(tip)
    ensures forall i, j :: 0 <= i < j < |out| ==> Depth(out[i]) > Depth(out[j])
  {
    if out != [] {
      var next := tip.parents[0];
      ChainIsRange(out[1..], next, base);
      BelowShallower(next, base);
      forall c ensures c in out <==> Below(tip, c) && !Below(base, c) {
        if Below(base, tip) {
          BelowShallower(base, tip);
        }
        assert c in out <==> c == tip || c in out[1..];
        assert Below(tip, c) <==> c == tip || Below(next, c);
      }
      assert out == [tip] + out[1..];
    } else {
      forall c | Below(tip, c) ensures Below(base, c) {
      }
    }
  }

  lemma ChainIsTopological(out: seq<Oid>, tip: Oid, base: Oid)
    requires Chain(out, tip, base)
    ensures IsRange(out, tip, base)
  {
    ChainIsRange(out, tip, base);
    forall i, j | 0 <= i < |out| && 0 <= j < |out| && Edge(out[i], out[j], false) ensures i < j {
      assert Depth(out[j]) < Depth(out[i]);
    }
  }

  /** The base lies down a readable single-parent chain that is short enough to be probed. */
  ghost predicate Direct(odb: Odb, out: seq<Oid>, tip: Oid, base: Oid) {
    && Chain(out, tip, base) && |out| < FAST_FORWARD_PROBE_LIMIT
    && forall c :: c in out ==> Readable(odb, c)
  }

  /** Every direct chain to the base begins with `done` and goes on at `next`. */
  ghost predicate Heads(odb: Odb, tip: Oid, base: Oid, done: seq<Oid>, next: Oid) {
    forall out :: Direct(odb, out, tip, base) ==> done <= out && Chain(out[|done|..], next, base)
  }

  ghost predicate IsDirect(odb: Odb, tip: Oid, base: Oid) {
    exists out :: Direct(odb, out, tip, base)
  }

  lemma HeadsNone(odb: Odb, tip: Oid, base: Oid)
    ensures Chain([], tip, tip) && Heads(odb, tip, base, [], tip)
  {
    forall out | Direct(odb, out, tip, base) ensures Chain(out[0..], tip, base) {
      assert out[0..] == out;
    }
  }

  lemma HeadsOn(odb: Odb, tip: Oid, base: Oid, done: seq<Oid>, next: Oid)
    requires Heads(odb, tip, base, done, next) && next != base
    ensures IsDirect(odb, tip, base) ==> Readable(odb, next) && |next.parents| == 1
    ensures next.Commit? && |next.parents| == 1 ==> Heads(odb, tip, base, done + [next], next.parents[0])
  {
    forall out | Direct(odb, out, tip, base)
      ensures done + [next] <= out && Readable(odb, next) && |next.parents| == 1
      ensures Chain(out[|done| + 1..], next.parents[0], base)
    {
      assert out[|done|..][0] == out[|done|] && out[|done|..][1..] == out[|done| + 1..];
    }
  }

  lemma HeadsFull(odb: Odb, tip: Oid, base: Oid, done: seq<Oid>, next: Oid)
    requires Heads(odb, tip, base, done, next) && |done| >= FAST_FORWARD_PROBE_LIMIT
    ensures !IsDirect(odb, tip, base)
  {
  }

  /** At the base there is nothing left of a direct chain. */
  lemma HeadsEnd(odb: Odb, tip: Oid, base: Oid, done: seq<Oid>, out: seq<Oid>)
    requires Heads(odb, tip, base, done, base) && Direct(odb, out, tip, base)
    ensures out == done
  {
    ChainIsRange(out[|done|..], base, base);
    assert out == done + out[|done|..];
  }

  lemma EmptyRange(odb: Odb, tip: Oid)
    ensures IsRange([], tip, tip)
    ensures forall out :: Direct(odb, out, tip, tip) ==> out == []
  {
    HeadsNone(odb, tip, tip);
    ChainIsTopological([], tip, tip);
    forall out | Direct(odb, out, tip, tip) ensures out == [] {
      HeadsEnd(odb, tip, tip, [], out);
    }
  }

  // ------------------------------------------------------------------ the ranked frontier

  /** The frontier in terms of commits: everything ever ranked, the part still queued, the
      commits marked hidden, and the commits emitted. */
  datatype Frontier = Frontier(ranked: set<Oid>, queued: set<Oid>, hidden: set<Oid>, out: seq<Oid>)

  ghost predicate Explored(f: Frontier, tip: Oid, base: Oid) {
    && tip in f.ranked && base in f.ranked && base in f.hidden
    && f.queued <= f.ranked
    && (forall c :: c in f.ranked ==> Below(tip, c) || Below(base, c))
    && (forall c :: c in f.hidden ==> Below(base, c))
    // Everything popped has its parents ranked, and passes its hidden mark on.
    && (forall c, p :: c in f.ranked && c !in f.queued && c.Commit? && p in c.parents ==>
          p in f.ranked && (c in f.hidden ==> p in f.hidden))
  }

  /** Hidden marks arrive before the pop, and the output is what was popped unmarked. */
  ghost predicate Settled(f: Frontier, base: Oid) {
    && (forall c :: c in f.ranked && c !in f.queued && Below(base, c) ==> c in f.hidden)
    && (forall c :: c in f.out <==> c in f.ranked && c !in f.queued && c !in f.hidden)
  }

  ghost predicate Descending(f: Frontier, number: Oid -> nat) {
    && Distinct(f.out)
    && (forall i, j :: 0 <= i < j < |f.out| ==> number(f.out[i]) >= number(f.out[j]))
    && (forall q, x :: q in f.queued && x in f.ranked && x !in f.queued ==> number(q) <= number(x))
  }

  /** No queued commit outranks `c`. */
  ghost predicate Highest(f: Frontier, number: Oid -> nat, c: Oid) {
    c in f.queued && forall q :: q in f.queued ==> number(q) <= number(c)
  }

  /** The heart of the matter: when `c` is the highest queued commit, every hidden commit above
      it has been popped, so its mark has reached `c`. */
  lemma {:induction false} MarkArrives(f: Frontier, number: Oid -> nat, tip: Oid, base: Oid, x: Oid, c: Oid)
    requires Numbering(number) && Explored(f, tip, base) && Highest(f, number, c)
    requires x in f.ranked && x in f.hidden && Below(x, c)
    ensures c in f.hidden
    decreases x
  {
    if x == c {
    } else {
      NumberBelow(number, x, c);
      var p :| p in x.parents && Below(p, c);
      MarkArrives(f, number, tip, base, p, c);
    }
  }

  /** The frontier after `c` is popped and its parents `ps` are ranked. */
  function Popped(f: Frontier, c: Oid, ps: set<Oid>): Frontier {
    Frontier(f.ranked + ps,
             f.queued - {c} + (ps - f.ranked),
             if c in f.hidden then f.hidden + ps else f.hidden,
             if c in f.hidden then f.out else f.out + [c])
  }

  function Parents(c: Oid): set<Oid> {
    if c.Commit? then ToSet(c.parents) else {}
  }

  lemma ParentsBelow(tip: Oid, c: Oid)
    requires Below(tip, c)
    ensures forall p :: p in Parents(c) ==> Below(tip, p)
  {
    forall p | p in Parents(c) ensures Below(tip, p) {
      assert Below(p, p) && Below(c, p);
      BelowTransitive(tip, c, p);
    }
  }

  lemma PopKeepsExplored(f: Frontier, tip: Oid, base: Oid, c: Oid)
    requires Explored(f, tip, base) && Settled(f, base) && c in f.queued
    ensures Explored(Popped(f, c, Parents(c)), tip, base)
  {
    hide Below;
    var g := Popped(f, c, Parents(c));
    if Below(tip, c) { ParentsBelow(tip, c); }
    if Below(base, c) { ParentsBelow(base, c); }
    assert forall x :: x in g.ranked ==> Below(tip, x) || Below(base, x);
    assert forall x :: x in g.hidden ==> Below(base, x);
    forall x, p | x in g.ranked && x !in g.queued && x.Commit? && p in x.parents
      ensures p in g.ranked && (x in g.hidden ==> p in g.hidden)
    {
      // A popped commit newly marked through `c` would be below the base, hence marked before.
      assert x == c || (x in f.ranked && x !in f.queued);
    }
  }

  lemma PopKeepsSettled(f: Frontier, number: Oid -> nat, tip: Oid, base: Oid, c: Oid)
    requires Numbering(number) && Explored(f, tip, base) && Settled(f, base) && Highest(f, number, c)
    ensures Settled(Popped(f, c, Parents(c)), base)
  {
    if Below(base, c) {
      MarkArrives(f, number, tip, base, base, c);
    }
    assert forall p :: p in f.hidden ==> p in Popped(f, c, Parents(c)).hidden;
    assert forall x :: x in Popped(f, c, Parents(c)).out <==> x in f.out || (x == c && c !in f.hidden);
    if c in f.hidden {
      // A popped commit below `c` was already below the base, so it is hidden already.
      ParentsBelow(base, c);
    }
  }

  lemma PopKeepsDescending(f: Frontier, number: Oid -> nat, tip: Oid, base: Oid, c: Oid)
    requires Numbering(number) && Explored(f, tip, base) && Settled(f, base)
    requires Descending(f, number) && Highest(f, number, c)
    ensures Descending(Popped(f, c, Parents(c)), number)
  {
    var g := Popped(f, c, Parents(c));
    forall p | p in Parents(c) ensures number(p) < number(c) {
    }
    forall i, j | 0 <= i < j < |g.out| ensures number(g.out[i]) >= number(g.out[j]) && g.out[i] != g.out[j] {
      if j == |f.out| {
        assert g.out[i] in f.out;
      }
    }
  }

  /** Popping `c` ranks ancestors of the tip or the base only. */
  lemma RankedInHistory(f: Frontier, tip: Oid, base: Oid, c: Oid)
    requires Explored(f, tip, base) && c in f.ranked
    ensures f.ranked + Parents(c) <= History(tip) + History(base)
  {
    hide Below;
    forall x | x in f.ranked + Parents(c) ensures x in History(tip) + History(base) {
      if Below(tip, c) { ParentsBelow(tip, c); }
      if Below(base, c) { ParentsBelow(base, c); }
      HistoryIsBelow(tip, x);
      HistoryIsBelow(base, x);
    }
  }

  /** Everything that holds of the frontier between rounds. */
  ghost predicate Ordered(f: Frontier, number: Oid -> nat, tip: Oid, base: Oid) {
    Explored(f, tip, base) && Settled(f, base) && Descending(f, number)
  }

  lemma QueuedIsRanked(f: Frontier, tip: Oid, base: Oid)
    requires Explored(f, tip, base)
    ensures f.queued <= f.ranked
  {
  }

  lemma StartIsOrdered(number: Oid -> nat, tip: Oid, base: Oid)
    ensures Ordered(Frontier({tip, base}, {tip, base}, {base}, []), number, tip, base)
  {
    assert Below(tip, tip) && Below(base, base);
  }

  lemma PopKeepsOrder(f: Frontier, number: Oid -> nat, tip: Oid, base: Oid, c: Oid)
    requires Numbering(number) && Ordered(f, number, tip, base) && Highest(f, number, c)
    ensures Ordered(Popped(f, c, Parents(c)), number, tip, base)
    ensures var g := Popped(f, c, Parents(c)); g.ranked - g.queued == f.ranked - f.queued + {c}
  {
    PopKeepsExplored(f, tip, base, c);
    PopKeepsSettled(f, number, tip, base, c);
    PopKeepsDescending(f, number, tip, base, c);
    forall p | p in Parents(c) ensures p != c {
      assert number(p) < number(c);
    }
  }

  lemma {:induction false} VisiblePathIsOut(f: Frontier, tip: Oid, base: Oid, x: Oid, c: Oid)
    requires Explored(f, tip, base) && Settled(f, base) && f.queued <= f.hidden
    requires x in f.ranked && Below(x, c) && !Below(base, c)
    ensures c in f.out
    decreases x
  {
    if Below(base, x) {
      BelowTransitive(base, x, c);
    }
    if x == c {
    } else {
      var p :| p in x.parents && Below(p, c);
      VisiblePathIsOut(f, tip, base, p, c);
    }
  }

  /** Once only hidden commits are queued, the output is the whole range. */
  lemma OnlyHiddenLeft(f: Frontier, number: Oid -> nat, tip: Oid, base: Oid)
    requires Numbering(number) && Explored(f, tip, base) && Settled(f, base) && Descending(f, number)
    requires f.queued <= f.hidden
    ensures IsRange(f.out, tip, base)
  {
    forall c ensures c in f.out <==> Below(tip, c) && !Below(base, c) {
      if Below(tip, c) && !Below(base, c) {
        VisiblePathIsOut(f, tip, base, tip, c);
      }
    }
    FallingIsTopological(f.out, number);
  }

  // ------------------------------------------------------------------ the walker

  /** `hidden`: below the base. `enqueued`: has entered the frontier. `queuedVisible`: pending
      in the frontier as a visible entry. */
  datatype Flags = Flags(hidden: bool, enqueued: bool, queuedVisible: bool)

  const BLANK := Flags(false, false, false)

  type RangeNode = Node<Flags>

  /** What the heap orders its nodes by: highest number first, earliest arrival among equals. */
  datatype Key = Key(number: nat, arrival: nat)

  predicate Precedes(a: Key, b: Key) {
    a.number > b.number || (a.number == b.number && a.arrival <= b.arrival)
  }

  /** The max-heap, as its entries: a node is pushed at most once. */
  type Heap = map<nat, Key>

  /** `top` is the node that popping `heap` returns. */
  predicate Tops(top: nat, heap: Heap) {
    top in heap && forall i :: i in heap ==> Precedes(heap[top], heap[i])
  }

  lemma {:induction false} HeapHasTop(heap: Heap)
    requires heap != map[]
    ensures exists top :: Tops(top, heap)
    decreases |heap|
  {
    var x :| x in heap;
    var rest := heap - {x};
    if rest == map[] {
      forall i | i in heap ensures i == x {
        assert i != x ==> i in rest;
      }
      assert Tops(x, heap);
    } else {
      HeapHasTop(rest);
      var y :| Tops(y, rest);
      var top := if Precedes(heap[x], heap[y]) then x else y;
      forall i | i in heap ensures Precedes(heap[top], heap[i]) {
        assert i == x || i in rest;
      }
      assert Tops(top, heap);
    }
  }

  function VisibleNodes(nodes: seq<RangeNode>): set<nat> {
    set i | 0 <= i < |nodes| && nodes[i].flags.queuedVisible
  }

  /** The per-node flags describe the frontier `f`. */
  ghost predicate Flagged(nodes: seq<RangeNode>, f: Frontier) {
    forall i :: 0 <= i < |nodes| ==>
      nodes[i].flags == Flags(nodes[i].oid in f.hidden, nodes[i].oid in f.ranked,
                              nodes[i].oid in f.queued && nodes[i].oid !in f.hidden)
  }

  /** The heap holds the queued commits of `f`. */
  ghost predicate Heaped(nodes: seq<RangeNode>, heap: Heap, f: Frontier, number: Oid -> nat) {
    && (forall i :: i in heap ==>
          i < |nodes| && nodes[i].oid in f.queued && heap[i].number == number(nodes[i].oid))
    && (forall i :: 0 <= i < |nodes| && nodes[i].oid in f.queued ==> i in heap)
  }

  ghost predicate Describes(nodes: seq<RangeNode>, heap: Heap, f: Frontier, number: Oid -> nat) {
    Flagged(nodes, f) && Heaped(nodes, heap, f, number)
  }

  /** The log of sequence number lookups: every ranked commit, once. */
  ghost predicate Logged(asked: seq<Oid>, ranked: set<Oid>) {
    Distinct(asked) && ToSet(asked) == ranked
  }

  lemma LogOne(asked: seq<Oid>, ranked: set<Oid>, c: Oid)
    requires Logged(asked, ranked)
    ensures c !in ranked ==> Logged(asked + [c], ranked + {c})
    ensures c in ranked ==> ranked + {c} == ranked
  {
    if c !in ranked {
      DistinctConcat(asked, [c]);
    }
  }

  /** No commit has its sequence number looked up twice, and none outside the two histories. */
  ghost predicate LooksUpOnce(asked: seq<Oid>, tip: Oid, base: Oid) {
    Distinct(asked) && ToSet(asked) <= History(tip) + History(base)
  }

  lemma LoggedOnce(asked: seq<Oid>, ranked: set<Oid>, tip: Oid, base: Oid)
    requires Logged(asked, ranked) && ranked <= History(tip) + History(base)
    ensures LooksUpOnce(asked, tip, base)
  {
  }

  ghost predicate Tabled(f: Frontier, byOid: map<Oid, nat>) {
    f.queued <= f.ranked <= byOid.Keys && f.hidden <= byOid.Keys
  }

  /** Ranking `p`, and marking it hidden if `hide`. */
  function Touched(f: Frontier, p: Oid, hiding: bool): Frontier {
    Frontier(f.ranked + {p}, if p in f.ranked then f.queued else f.queued + {p},
             if hiding then f.hidden + {p} else f.hidden, f.out)
  }

  function TouchedAll(f: Frontier, ps: set<Oid>, hiding: bool): Frontier {
    Frontier(f.ranked + ps, f.queued + (ps - f.ranked), if hiding then f.hidden + ps else f.hidden, f.out)
  }

  /** Touching the first `n` of `ps` one after the other. */
  ghost function TouchedSome(f: Frontier, ps: seq<Oid>, n: nat, hiding: bool): Frontier
    requires n <= |ps|
  {
    if n == 0 then f else Touched(TouchedSome(f, ps, n - 1, hiding), ps[n - 1], hiding)
  }

  lemma TouchedNone(f: Frontier, ps: seq<Oid>, hiding: bool)
    ensures TouchedSome(f, ps, 0, hiding) == f
  {
  }

  lemma TouchedSomeStep(f: Frontier, ps: seq<Oid>, n: nat, hiding: bool)
    requires n < |ps|
    ensures TouchedSome(f, ps, n + 1, hiding) == Touched(TouchedSome(f, ps, n, hiding), ps[n], hiding)
  {
  }

  lemma {:induction false} TouchedSomeIsAll(f: Frontier, ps: seq<Oid>, n: nat, hiding: bool)
    requires n <= |ps|
    ensures TouchedSome(f, ps, n, hiding) == TouchedAll(f, ToSet(ps[..n]), hiding)
    ensures n == |ps| ==> ps[..n] == ps
  {
    if n == 0 {
    } else {
      TouchedSomeIsAll(f, ps, n - 1, hiding);
      assert ps[..n] == ps[..n - 1] + [ps[n - 1]];
      assert ToSet(ps[..n]) == ToSet(ps[..n - 1]) + {ps[n - 1]};
    }
  }

  lemma TouchedSomeRanks(f: Frontier, ps: seq<Oid>, n: nat, hiding: bool)
    requires n <= |ps|
    ensures TouchedSome(f, ps, n, hiding).ranked <= f.ranked + ToSet(ps)
  {
    hide TouchedSome;
    TouchedSomeIsAll(f, ps, n, hiding);
  }

  /** The frontier with `c` taken off the queue. */
  function Taken(f: Frontier, c: Oid): Frontier {
    f.(queued := f.queued - {c}, out := if c in f.hidden then f.out else f.out + [c])
  }

  lemma TakeDescribes(nodes: seq<RangeNode>, byOid: map<Oid, nat>, odb: Odb, heap: Heap, f: Frontier,
                      number: Oid -> nat, c: nat)
    requires Consistent(nodes, byOid, odb) && Tabled(f, byOid) && Describes(nodes, heap, f, number)
    requires c in heap
    ensures Tabled(Taken(f, nodes[c].oid), byOid)
    ensures Describes(WithFlags(nodes, c, nodes[c].flags.(queuedVisible := false)), heap - {c},
                      Taken(f, nodes[c].oid), number)
    ensures nodes[c].flags.hidden <==> nodes[c].oid in f.hidden
    ensures nodes[c].flags.hidden <==> !nodes[c].flags.queuedVisible
  {
    OtherNodes(nodes, byOid, odb, c);
  }

  /** The heap's top is the highest queued commit. */
  lemma TopIsHighest(nodes: seq<RangeNode>, byOid: map<Oid, nat>, odb: Odb, heap: Heap, f: Frontier,
                     number: Oid -> nat, c: nat)
    requires Consistent(nodes, byOid, odb) && Tabled(f, byOid) && Describes(nodes, heap, f, number)
    requires Tops(c, heap)
    ensures c < |nodes| && Highest(f, number, nodes[c].oid)
  {
    forall q | q in f.queued ensures number(q) <= number(nodes[c].oid) {
      assert byOid[q] in heap;
    }
  }

  function TouchedFlags(flags: Flags, hiding: bool): Flags {
    var marked := if hiding then flags.(hidden := true, queuedVisible := false) else flags;
    if marked.enqueued then marked else marked.(enqueued := true, queuedVisible := !marked.hidden)
  }

  lemma TouchFlags(nodes: seq<RangeNode>, f: Frontier, p: nat, hiding: bool)
    requires Flagged(nodes, f) && f.queued <= f.ranked && p < |nodes|
    requires forall i :: 0 <= i < |nodes| && i != p ==> nodes[i].oid != nodes[p].oid
    ensures nodes[p].flags.enqueued <==> nodes[p].oid in f.ranked
    ensures nodes[p].flags.hidden || !nodes[p].flags.enqueued ==> !nodes[p].flags.queuedVisible
    ensures Flagged(WithFlags(nodes, p, TouchedFlags(nodes[p].flags, hiding)), Touched(f, nodes[p].oid, hiding))
  {
  }

  lemma TouchHeap(nodes: seq<RangeNode>, heap: Heap, f: Frontier, number: Oid -> nat, p: nat, flags: Flags,
                  hiding: bool, arrival: nat)
    requires Heaped(nodes, heap, f, number) && f.queued <= f.ranked && p < |nodes|
    requires forall i :: 0 <= i < |nodes| && i != p ==> nodes[i].oid != nodes[p].oid
    ensures nodes[p].oid !in f.ranked ==> p !in heap
    ensures Heaped(WithFlags(nodes, p, flags),
                   if nodes[p].oid in f.ranked then heap else heap[p := Key(number(nodes[p].oid), arrival)],
                   Touched(f, nodes[p].oid, hiding), number)
  {
  }

  lemma TouchDescribes(nodes: seq<RangeNode>, byOid: map<Oid, nat>, odb: Odb, heap: Heap, f: Frontier,
                       number: Oid -> nat, p: nat, hiding: bool, arrival: nat)
    requires Consistent(nodes, byOid, odb) && Tabled(f, byOid) && Describes(nodes, heap, f, number)
    requires p < |nodes|
    ensures nodes[p].flags.enqueued <==> nodes[p].oid in f.ranked
    ensures !nodes[p].flags.enqueued ==> p !in heap
    ensures nodes[p].flags.hidden || !nodes[p].flags.enqueued ==> !nodes[p].flags.queuedVisible
    ensures Tabled(Touched(f, nodes[p].oid, hiding), byOid)
    ensures Describes(WithFlags(nodes, p, TouchedFlags(nodes[p].flags, hiding)),
                      if nodes[p].flags.enqueued then heap
                      else heap[p := Key(number(nodes[p].oid), arrival)],
                      Touched(f, nodes[p].oid, hiding), number)
  {
    hide Flagged, Heaped, WithFlags;
    OtherNodes(nodes, byOid, odb, p);
    TouchFlags(nodes, f, p, hiding);
    TouchHeap(nodes, heap, f, number, p, TouchedFlags(nodes[p].flags, hiding), hiding, arrival);
  }

  lemma TouchCounts(nodes: seq<RangeNode>, p: nat, flags: Flags)
    requires p < |nodes|
    ensures |VisibleNodes(WithFlags(nodes, p, flags))| == |VisibleNodes(nodes)|
      + (if flags.queuedVisible then 1 else 0) - (if nodes[p].flags.queuedVisible then 1 else 0)
  {
    var was := VisibleNodes(nodes);
    assert p in was <==> nodes[p].flags.queuedVisible;
    assert VisibleNodes(WithFlags(nodes, p, flags)) == if flags.queuedVisible then was + {p} else was - {p};
  }

  lemma SomeVisible(nodes: seq<RangeNode>, heap: Heap, f: Frontier, number: Oid -> nat)
    requires Describes(nodes, heap, f, number) && |VisibleNodes(nodes)| > 0
    ensures heap != map[]
  {
    var v :| v in VisibleNodes(nodes);
    assert v in heap;
  }

  /** When no node is pending as visible, everything queued is hidden. */
  lemma NoneVisible(nodes: seq<RangeNode>, byOid: map<Oid, nat>, odb: Odb, heap: Heap, f: Frontier,
                    number: Oid -> nat)
    requires Consistent(nodes, byOid, odb) && Tabled(f, byOid) && Describes(nodes, heap, f, number)
    requires |VisibleNodes(nodes)| == 0
    ensures f.queued <= f.hidden
  {
    forall q | q in f.queued ensures q in f.hidden {
      assert byOid[q] !in VisibleNodes(nodes);
    }
  }

  class RangeWalk {
    const odb: Odb
    const number: Oid -> nat
    /** Whether the sequence number lookup succeeds. */
    const known: Oid -> bool
    var nodes: seq<RangeNode>
    var byOid: map<Oid, nat>
    /** The commits whose sequence number was looked up, in order. */
    ghost var asked: seq<Oid>

    ghost predicate Valid()
      reads this
    {
      Consistent(nodes, byOid, odb)
    }

    /** A commit the walk might meet and cannot read or number. */
    ghost predicate Blind(x: Oid, tip: Oid, base: Oid) {
      (Below(tip, x) || Below(base, x)) && (!Readable(odb, x) || !known(x))
    }

    lemma ParentsBlind(c: Oid, f: Frontier, tip: Oid, base: Oid)
      requires Explored(f, tip, base) && c in f.ranked
      ensures !Readable(odb, c) ==> Blind(c, tip, base)
      ensures forall p :: p in Parents(c) && !known(p) ==> Blind(p, tip, base)
    {
      if Below(tip, c) { ParentsBelow(tip, c); }
      if Below(base, c) { ParentsBelow(base, c); }
    }

    ghost predicate Synced(heap: Heap, visible: nat, f: Frontier)
      reads this
    {
      && Valid() && Tabled(f, byOid)
      && Describes(nodes, heap, f, number)
      && visible == |VisibleNodes(nodes)|
      && Logged(asked, f.ranked)
    }

    constructor (odb: Odb, number: Oid -> nat, known: Oid -> bool)
      ensures this.odb == odb && this.number == number && this.known == known
      ensures Valid() && nodes == [] && asked == []
    {
      this.odb, this.number, this.known := odb, number, known;
      nodes, byOid, asked := [], map[], [];
    }

    method Intern(oid: Oid) returns (i: nat)
      requires Valid()
      modifies this`nodes, this`byOid
      ensures Valid()
      ensures i < |nodes| && nodes[i].oid == oid
      ensures old(nodes) <= nodes && old(byOid.Keys) <= byOid.Keys
      ensures forall k :: |old(nodes)| <= k < |nodes| ==> nodes[k].flags == BLANK && nodes[k].oid !in old(byOid)
    {
      if oid in byOid {
        return byOid[oid];
      }
      ConsistentAdd(nodes, byOid, odb, oid, BLANK);
      i := |nodes|;
      nodes := nodes + [Node(oid, [], false, BLANK)];
      byOid := byOid[oid := i];
    }

    method Parse(commit: nat) returns (ok: bool)
      requires Valid() && commit < |nodes|
      modifies this`nodes, this`byOid
      ensures Valid() && Grown(old(nodes), nodes, BLANK) && old(byOid.Keys) <= byOid.Keys
      ensures forall k :: |old(nodes)| <= k < |nodes| ==> nodes[k].oid !in old(byOid)
      ensures ok <==> Readable(odb, nodes[commit].oid)
      ensures ok ==> nodes[commit].parsed
    {
      hide Consistent;
      if nodes[commit].parsed {
        ParsedDenotes(nodes, byOid, odb, commit);
        return true;
      }
      var oid := nodes[commit].oid;
      if !(oid in odb && oid.Commit?) {
        return false;
      }
      var ids: seq<nat> := [];
      for k := 0 to |oid.parents|
        invariant Valid() && old(nodes) <= nodes && old(byOid.Keys) <= byOid.Keys
        invariant forall j :: |old(nodes)| <= j < |nodes| ==>
          nodes[j].flags == BLANK && nodes[j].oid !in old(byOid)
        invariant Denotes(ids, oid.parents[..k], nodes)
      {
        var p := Intern(oid.parents[k]);
        ids := ids + [p];
      }
      assert oid.parents[..|oid.parents|] == oid.parents;
      ConsistentParse(nodes, byOid, odb, commit, ids);
      nodes := nodes[commit := nodes[commit].(parents := ids, parsed := true)];
      ok := true;
    }

    /** Parsing does not disturb the frontier. */
    method ParseSynced(commit: nat, heap: Heap, visible: nat, ghost f: Frontier) returns (ok: bool)
      requires Synced(heap, visible, f) && commit < |nodes|
      modifies this`nodes, this`byOid
      ensures Synced(heap, visible, f) && SameOids(old(nodes), nodes)
      ensures ok <==> Readable(odb, nodes[commit].oid)
      ensures ok ==> nodes[commit].parsed
    {
      ok := Parse(commit);
      assert VisibleNodes(nodes) == VisibleNodes(old(nodes));
    }

    /** Meeting the parent `p` of a popped commit: mark it hidden if the commit was hidden, and
        rank it unless it has been ranked before. */
    method Touch(p: nat, hiding: bool, heap: Heap, arrival: nat, visible: nat, ghost f: Frontier)
      returns (ok: bool, heap': Heap, arrival': nat, visible': nat)
      requires Synced(heap, visible, f) && p < |nodes|
      modifies this
      ensures SameOids(old(nodes), nodes)
      ensures !ok ==> !known(nodes[p].oid)
      ensures ok ==> Synced(heap', visible', Touched(f, nodes[p].oid, hiding))
      ensures Logged(asked, f.ranked + {nodes[p].oid})
    {
      hide Describes, Consistent, Tabled, Logged;
      heap', arrival', visible' := heap, arrival, visible;
      var oid, flags := nodes[p].oid, nodes[p].flags;
      TouchDescribes(nodes, byOid, odb, heap, f, number, p, hiding, arrival);
      TouchCounts(nodes, p, TouchedFlags(flags, hiding));
      LogOne(asked, f.ranked, oid);
      if hiding && !flags.hidden {
        flags := flags.(hidden := true);
        if flags.queuedVisible {
          flags := flags.(queuedVisible := false);
          visible' := visible' - 1;
        }
      }
      var unranked := !flags.enqueued;
      if unranked {
        flags := flags.(enqueued := true);
        if !flags.hidden {
          flags := flags.(queuedVisible := true);
          visible' := visible' + 1;
        }
      }
      assert flags == TouchedFlags(nodes[p].flags, hiding);
      ConsistentFlags(nodes, byOid, odb, p, flags);
      nodes := WithFlags(nodes, p, flags);
      if unranked {
        asked := asked + [oid];
        if !known(oid) {
          return false, heap', arrival', visible';
        }
        assert p !in heap;
        heap' := heap[p := Key(number(oid), arrival)];
        arrival' := arrival + 1;
      }
      ok := true;
    }

    /** Touch every parent of a popped commit. */
    method TouchAll(parents: seq<nat>, hiding: bool, heap: Heap, arrival: nat, visible: nat,
                    ghost ps: seq<Oid>, ghost f: Frontier)
      returns (ok: bool, heap': Heap, arrival': nat, visible': nat, ghost g: Frontier)
      requires Synced(heap, visible, f) && Denotes(parents, ps, nodes)
      modifies this
      ensures !ok ==> exists p :: p in ps && !known(p)
      ensures ok ==> Synced(heap', visible', g) && g == TouchedAll(f, ToSet(ps), hiding)
      ensures Logged(asked, g.ranked) && g.ranked <= f.ranked + ToSet(ps)
    {
      hide Describes, Tabled, Consistent, TouchedSome, VisibleNodes, TouchedAll, Logged;
      ok, heap', arrival', visible', g := true, heap, arrival, visible, f;
      TouchedNone(f, ps, hiding);
      var i := 0;
      while i < |parents| && ok
        invariant 0 <= i <= |parents|
        invariant Denotes(parents, ps, nodes)
        invariant g == TouchedSome(f, ps, i, hiding) && Logged(asked, g.ranked)
        invariant ok ==> Synced(heap', visible', g)
        invariant !ok ==> exists p :: p in ps && !known(p)
        decreases |parents| - i
      {
        ok, heap', arrival', visible' := Touch(parents[i], hiding, heap', arrival', visible', g);
        g := Touched(g, ps[i], hiding);
        TouchedSomeStep(f, ps, i, hiding);
        i := i + 1;
      }
      TouchedSomeIsAll(f, ps, i, hiding);
      TouchedSomeRanks(f, ps, i, hiding);
    }

    /** Pop the highest entry. A visible one is taken off the visible count and emitted. */
    method Pop(heap: Heap, visible: nat, ghost f: Frontier)
      returns (c: nat, heap': Heap, visible': nat, ghost g: Frontier)
      requires Synced(heap, visible, f) && visible > 0
      modifies this
      ensures c < |nodes| && SameOids(old(nodes), nodes) && Highest(f, number, nodes[c].oid)
      ensures nodes[c].flags.hidden <==> nodes[c].oid in f.hidden
      ensures g == Taken(f, nodes[c].oid) && Synced(heap', visible', g)
    {
      hide Describes, Consistent, Tabled, Highest, Logged;
      SomeVisible(nodes, heap, f, number);
      HeapHasTop(heap);
      c :| Tops(c, heap);
      TopIsHighest(nodes, byOid, odb, heap, f, number, c);
      heap', visible', g := heap - {c}, visible, Taken(f, nodes[c].oid);
      TakeDescribes(nodes, byOid, odb, heap, f, number, c);
      TouchCounts(nodes, c, nodes[c].flags.(queuedVisible := false));
      ConsistentFlags(nodes, byOid, odb, c, nodes[c].flags.(queuedVisible := false));
      if !nodes[c].flags.hidden {
        visible' := visible - 1;
      }
      nodes := WithFlags(nodes, c, nodes[c].flags.(queuedVisible := false));
    }

    /** One round of the frontier loop. */
    method Advance(heap: Heap, arrival: nat, visible: nat, ghost f: Frontier, ghost tip: Oid, ghost base: Oid)
      returns (emitted: Option<Oid>, ok: bool, heap': Heap, arrival': nat, visible': nat, ghost g: Frontier)
      requires Synced(heap, visible, f) && visible > 0 && Numbering(number) && Ordered(f, number, tip, base)
      modifies this
      ensures !ok ==> exists x :: Blind(x, tip, base)
      ensures ok ==> Synced(heap', visible', g) && Ordered(g, number, tip, base)
      ensures ok ==> exists c :: c in f.queued && g.ranked - g.queued == f.ranked - f.queued + {c}
      ensures ok ==> g.out == f.out + (if emitted.Some? then [emitted.value] else [])
      ensures ok && emitted.Some? ==> Readable(odb, emitted.value)
      ensures Logged(asked, g.ranked) && g.ranked <= History(tip) + History(base)
    {
      hide Describes, Tabled, Consistent, Logged;
      var c;
      c, heap', visible', g := Pop(heap, visible, f);
      ghost var oid := nodes[c].oid;
      ParentsBlind(oid, f, tip, base);
      RankedInHistory(f, tip, base, oid);
      PopKeepsOrder(f, number, tip, base, oid);
      var hiding := nodes[c].flags.hidden;
      arrival' := arrival;
      emitted := if hiding then None else Some(nodes[c].oid);
      ok := ParseSynced(c, heap', visible', g);
      if ok {
        ParsedDenotes(nodes, byOid, odb, c);
        ok, heap', arrival', visible', g :=
          TouchAll(nodes[c].parents, hiding, heap', arrival', visible', oid.parents, g);
        assert ok ==> g == Popped(f, oid, Parents(oid));
      }
    }

    /** Before anything is ranked the frontier is empty and only the base is hidden. */
    lemma NothingRanked(base: nat)
      requires Valid() && base < |nodes| && asked == []
      requires forall i :: 0 <= i < |nodes| ==> nodes[i].flags == BLANK.(hidden := i == base)
      ensures Synced(map[], 0, Frontier({}, {}, {nodes[base].oid}, []))
    {
      OtherNodes(nodes, byOid, odb, base);
      assert VisibleNodes(nodes) == {};
    }

    /** The ranked strategy. */
    method RankedWalk(tip: nat, base: nat, ghost t: Oid, ghost b: Oid) returns (r: Result<seq<Oid>>)
      requires Valid() && Numbering(number) && tip < |nodes| && base < |nodes|
      requires nodes[tip].oid == t && nodes[base].oid == b && t != b && asked == []
      requires forall i :: 0 <= i < |nodes| ==> nodes[i].flags == BLANK.(hidden := i == base)
      modifies this
      ensures r.Ok? ==> IsRange(r.value, t, b) && forall c :: c in r.value ==> Readable(odb, c)
      ensures r.Err? ==> exists x :: Blind(x, t, b)
      ensures LooksUpOnce(asked, t, b)
    {
      hide Describes, Tabled, Consistent, VisibleNodes, IsRange, Numbering, Logged, LooksUpOnce;
      ghost var f := Frontier({}, {}, {b}, []);
      NothingRanked(base);
      var heap: Heap, arrival, visible, ok := map[], 0, 0, true;
      SelfBlind(t, b);
      ok, heap, arrival, visible := Touch(tip, false, heap, arrival, visible, f);
      if !ok {
        LoggedOnce(asked, {} + {t}, t, b);
        return Err;
      }
      ok, heap, arrival, visible := Touch(base, false, heap, arrival, visible, Touched(f, t, false));
      if !ok {
        LoggedOnce(asked, {} + {t} + {b}, t, b);
        return Err;
      }
      f := Touched(Touched(f, t, false), b, false);
      assert f == Frontier({t, b}, {t, b}, {b}, []);
      StartIsOrdered(number, t, b);
      r := DrainFrontier(heap, arrival, visible, f, t, b);
    }

    lemma SelfBlind(tip: Oid, base: Oid)
      ensures !Readable(odb, tip) || !known(tip) ==> Blind(tip, tip, base)
      ensures !Readable(odb, base) || !known(base) ==> Blind(base, tip, base)
    {
    }

    method DrainFrontier(heap0: Heap, arrival0: nat, visible0: nat, ghost f0: Frontier,
                         ghost tip: Oid, ghost base: Oid)
      returns (r: Result<seq<Oid>>)
      requires Synced(heap0, visible0, f0) && Numbering(number)
      requires Ordered(f0, number, tip, base) && f0.out == []
      modifies this
      ensures r.Ok? ==> IsRange(r.value, tip, base) && forall c :: c in r.value ==> Readable(odb, c)
      ensures r.Err? ==> exists x :: Blind(x, tip, base)
      ensures LooksUpOnce(asked, tip, base)
    {
      hide Describes, Tabled, Consistent, VisibleNodes, IsRange, Numbering, Settled, Descending;
      hide Logged, LooksUpOnce;
      var heap, arrival, visible, out := heap0, arrival0, visible0, [];
      ghost var f, all := f0, History(tip) + History(base);
      RankedInHistory(f, tip, base, tip);
      while visible > 0
        invariant Synced(heap, visible, f) && Ordered(f, number, tip, base) && out == f.out
        invariant f.ranked <= all && forall c :: c in out ==> Readable(odb, c)
        decreases all - (f.ranked - f.queued)
      {
        var emitted, ok;
        ghost var g;
        emitted, ok, heap, arrival, visible, g := Advance(heap, arrival, visible, f, tip, base);
        if !ok {
          LoggedOnce(asked, g.ranked, tip, base);
          return Err;
        }
        QueuedIsRanked(f, tip, base);
        out := out + (if emitted.Some? then [emitted.value] else []);
        f := g;
      }
      NoneVisible(nodes, byOid, odb, heap, f, number);
      OnlyHiddenLeft(f, number, tip, base);
      LoggedOnce(asked, f.ranked, tip, base);
      r := Ok(out);
    }

    /** Follow the parent chain from the tip. `None` sends the caller to the ranked walk: a merge
        commit, a root or an exhausted budget. Sequence numbers are not looked up. */
    method FastForwardWalk(tip: nat, base: nat, ghost t: Oid, ghost b: Oid)
      returns (r: Result<Option<seq<Oid>>>)
      requires Valid() && tip < |nodes| && base < |nodes| && nodes[tip].oid == t && nodes[base].oid == b
      modifies this`nodes, this`byOid
      ensures Valid() && Grown(old(nodes), nodes, BLANK)
      ensures r.Ok? && r.value.Some? ==>
        IsRange(r.value.value, t, b) && forall c :: c in r.value.value ==> Readable(odb, c)
      ensures r.Err? ==> exists x :: Below(t, x) && !Readable(odb, x)
      ensures forall out :: Direct(odb, out, t, b) ==> r == Ok(Some(out))
    {
      hide Consistent, Chain, Direct, Heads, IsRange, Below;
      var out: seq<Oid>, c: nat := [], tip;
      ghost var oid := t;
      HeadsNone(odb, t, b);
      for k := 0 to FAST_FORWARD_PROBE_LIMIT
        invariant Valid() && Grown(old(nodes), nodes, BLANK)
        invariant c < |nodes| && nodes[c].oid == oid && Chain(out, t, oid)
        invariant forall x :: x in out ==> Readable(odb, x)
        invariant |out| == k && Heads(odb, t, b, out, oid)
      {
        if c == base {
          ChainIsTopological(out, t, b);
          forall full | Direct(odb, full, t, b) ensures full == out {
            HeadsEnd(odb, t, b, out, full);
          }
          return Ok(Some(out));
        }
        OtherNodes(nodes, byOid, odb, base);
        ChainIsRange(out, t, oid);
        HeadsOn(odb, t, b, out, oid);
        var ok := Parse(c);
        if !ok {
          return Err;
        }
        ParsedDenotes(nodes, byOid, odb, c);
        if |nodes[c].parents| != 1 {
          return Ok(None);
        }
        ChainExtend(out, t, oid);
        out := out + [nodes[c].oid];
        c := nodes[c].parents[0];
        oid := oid.parents[0];
      }
      HeadsFull(odb, t, b, out, oid);
      r := Ok(None);
    }

    /** The commits of `base..tip`, children before parents. */
    method IntoTopoVec(tip: Oid, base: Oid) returns (r: Result<seq<Oid>>)
      requires Valid() && nodes == [] && asked == [] && Numbering(number)
      modifies this
      ensures r.Ok? ==> Readable(odb, tip) && Readable(odb, base) && IsRange(r.value, tip, base)
      ensures r.Ok? ==> forall c :: c in r.value ==> Readable(odb, c)
      ensures r.Err? ==> exists x :: Blind(x, tip, base)
      ensures LooksUpOnce(asked, tip, base)
      ensures Readable(odb, tip) && Readable(odb, base) ==>
        forall out :: Direct(odb, out, tip, base) ==> r == Ok(out) && asked == []
    {
      hide Consistent, Chain, Direct, IsRange, Numbering, History;
      SelfBlind(tip, base);
      if !(tip in odb && tip.Commit? && base in odb && base.Commit?) {
        return Err;
      }
      if tip == base {
        EmptyRange(odb, tip);
        return Ok([]);
      }
      var t := Intern(tip);
      var b := Intern(base);
      ConsistentFlags(nodes, byOid, odb, b, BLANK.(hidden := true));
      nodes := WithFlags(nodes, b, BLANK.(hidden := true));
      var chain := FastForwardWalk(t, b, tip, base);
      if chain.Err? {
        ghost var x :| Below(tip, x) && !Readable(odb, x);
        assert Blind(x, tip, base);
        return Err;
      }
      if chain.value.Some? {
        return Ok(chain.value.value);
      }
      r := RankedWalk(t, b, tip, base);
    }
  }
}
