/** Commits that wait for their parents to be filtered: who waits for whom, and how what is known
    may grow. */
module Waiting {
  import opened Objects

  /** With every commit `all` has everything below it. */
  ghost predicate Whole(all: set<Oid>) {
    forall x, y :: x in all && Below(x, y) ==> y in all
  }

  /** Everything below one of `tips`. */
  function Scope(tips: set<Oid>): set<Oid> {
    set t, y | t in tips && y in History(t) :: y
  }

  lemma ScopeIsWhole(tips: set<Oid>)
    ensures forall y :: y in Scope(tips) <==> exists t :: t in tips && Below(t, y)
    ensures Whole(Scope(tips)) && tips <= Scope(tips)
  {
    hide Below, History;
    forall t, y ensures y in History(t) <==> Below(t, y) {
      HistoryIsBelow(t, y);
    }
    forall t | t in tips ensures t in Scope(tips) {
      BelowSelf(t);
    }
    forall x, y | x in Scope(tips) && Below(x, y) ensures y in Scope(tips) {
      var t :| t in tips && x in History(t);
      BelowTransitive(t, x, y);
    }
  }

  // ------------------------------------------------------------------ who waits for whom

  /** The place of the first of `ps` that is not known. */
  function FirstUnknown(ps: seq<Oid>, known: set<Oid>): (i: nat)
    ensures i <= |ps| && (i < |ps| ==> ps[i] !in known) && forall k :: 0 <= k < i ==> ps[k] in known
  {
    if ps == [] || ps[0] !in known then 0
    else
      var i := 1 + FirstUnknown(ps[1..], known);
      assert forall k :: 1 <= k < i ==> ps[k] == ps[1..][k - 1];
      i
  }

  predicate Waits(x: Oid, known: set<Oid>) {
    x.Commit? && FirstUnknown(x.parents, known) < |x.parents|
  }

  /** The first parent of `x` that is not known. */
  function Blocker(x: Oid, known: set<Oid>): (p: Oid)
    requires Waits(x, known)
    ensures p in x.parents && p !in known
  {
    x.parents[FirstUnknown(x.parents, known)]
  }

  lemma WaitsForUnknown(x: Oid, known: set<Oid>)
    requires x.Commit?
    ensures Waits(x, known) <==> exists p :: p in x.parents && p !in known
  {
    if Waits(x, known) {
      assert Blocker(x, known) in x.parents;
    }
    if p :| p in x.parents && p !in known {
      var k :| 0 <= k < |x.parents| && x.parents[k] == p;
    }
  }

  /** Going from `x` from one blocker to the next one comes to `y`. */
  ghost predicate Leads(x: Oid, y: Oid, known: set<Oid>)
    decreases x
  {
    x !in known && (y == x || (Waits(x, known) && Leads(Blocker(x, known), y, known)))
  }

  lemma {:induction false} LeadsDown(x: Oid, y: Oid, known: set<Oid>)
    requires Leads(x, y, known)
    ensures x !in known && y !in known && Below(x, y) && (y == x || Depth(y) < Depth(x))
    decreases x
  {
    if y == x {
    } else {
      LeadsDown(Blocker(x, known), y, known);
      BelowShallower(x, y);
    }
  }

  lemma {:induction false} LeadsOn(x: Oid, y: Oid, z: Oid, known: set<Oid>)
    requires Leads(x, y, known) && Leads(y, z, known)
    ensures Leads(x, z, known)
    decreases x
  {
    if y == x {
    } else {
      LeadsOn(Blocker(x, known), y, z, known);
    }
  }

  /** There is only one way to go. */
  lemma {:induction false} LeadsOneWay(c: Oid, x: Oid, y: Oid, known: set<Oid>)
    requires Leads(c, x, known) && Leads(c, y, known)
    ensures Leads(x, y, known) || Leads(y, x, known)
    decreases c
  {
    if x == c || y == c {
    } else {
      LeadsOneWay(Blocker(c, known), x, y, known);
    }
  }

  lemma LeadsToBlocker(x: Oid, known: set<Oid>)
    requires x !in known && Waits(x, known)
    ensures Leads(x, Blocker(x, known), known) && Depth(Blocker(x, known)) < Depth(x)
  {
    LeadsDown(x, Blocker(x, known), known);
    NotOwnParent(x);
  }

  // ------------------------------------------------------------------ growing knowledge

  /** From `a` to `b` commits became known only after their parents. */
  ghost predicate Learned(a: set<Oid>, b: set<Oid>) {
    a <= b && forall x, p :: x in b && x !in a && x.Commit? && p in x.parents ==> p in b
  }

  lemma LearnedNothing(a: set<Oid>)
    ensures Learned(a, a)
  {
  }

  lemma LearnedThen(a: set<Oid>, b: set<Oid>, c: set<Oid>)
    requires Learned(a, b) && Learned(b, c)
    ensures Learned(a, c)
  {
  }

  lemma BlockerStays(x: Oid, a: set<Oid>, b: set<Oid>)
    requires a <= b && Waits(x, a) && Blocker(x, a) !in b
    ensures Waits(x, b) && Blocker(x, b) == Blocker(x, a)
  {
    var i := FirstUnknown(x.parents, a);
    var j := FirstUnknown(x.parents, b);
    assert j == i;
  }

  /** Who still waits waits for the same. */
  lemma {:induction false} LeadsStays(x: Oid, y: Oid, a: set<Oid>, b: set<Oid>)
    requires Learned(a, b) && Leads(x, y, a) && y !in b
    ensures Leads(x, y, b)
    decreases x
  {
    if y == x {
    } else {
      LeadsStays(Blocker(x, a), y, a, b);
      LeadsDown(Blocker(x, a), y, b);
      BlockerStays(x, a, b);
    }
  }

  /** What a known commit was waiting for is known. */
  lemma KnownLeads(x: Oid, y: Oid, a: set<Oid>, b: set<Oid>)
    requires Learned(a, b) && Leads(x, y, a) && x in b
    ensures y in b
  {
    if y !in b {
      LeadsStays(x, y, a, b);
      LeadsDown(x, y, b);
    }
  }

  /** The order on a path from `c` does not change. */
  lemma LeadsBack(c: Oid, x: Oid, y: Oid, a: set<Oid>, b: set<Oid>)
    requires Learned(a, b) && Leads(c, x, a) && Leads(c, y, a) && Leads(x, y, b)
    ensures Leads(x, y, a)
  {
    LeadsOneWay(c, x, y, a);
    LeadsDown(x, y, b);
    if !Leads(x, y, a) {
      LeadsStays(y, x, a, b);
      LeadsDown(y, x, b);
    }
  }

  // ------------------------------------------------------------------ first-parent lines

  /** `y` is on the first-parent line of unknown commits from `x`. */
  ghost predicate OnLine(x: Oid, y: Oid, known: set<Oid>)
    decreases x
  {
    x !in known && (y == x || (x.Commit? && x.parents != [] && OnLine(x.parents[0], y, known)))
  }

  /** Where the first-parent line of unknown commits from `x` ends. */
  function Bottom(x: Oid, known: set<Oid>): Oid
    decreases x
  {
    if x.Commit? && x.parents != [] && x.parents[0] !in known then Bottom(x.parents[0], known) else x
  }

  lemma {:induction false} LeadsToBottom(x: Oid, known: set<Oid>)
    requires x !in known
    ensures Leads(x, Bottom(x, known), known) && Bottom(x, known) !in known
    ensures var m := Bottom(x, known); m.Commit? && m.parents != [] ==> m.parents[0] in known
    decreases x
  {
    if x.Commit? && x.parents != [] && x.parents[0] !in known {
      LeadsToBottom(x.parents[0], known);
      assert FirstUnknown(x.parents, known) == 0;
    }
  }

  lemma {:induction false} BottomStays(x: Oid, a: set<Oid>, b: set<Oid>)
    requires Learned(a, b) && x !in a && Bottom(x, a) !in b
    ensures Bottom(x, b) == Bottom(x, a) && x !in b
    decreases x
  {
    if x.Commit? && x.parents != [] && x.parents[0] !in a {
      BottomStays(x.parents[0], a, b);
      assert x.parents[0] in x.parents;
    }
  }
}
