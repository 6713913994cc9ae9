/** The requests for commits that are still to be filtered, with the nesting level they came up at.
    They lie on the one path of commits that wait for each other, and what is waited for came up later. */
module Requests {
  import opened Objects
  import opened Waiting

  type Requested = map<Oid, nat>

  /** A repeated request keeps its lowest level. */
  function Noted(missing: Requested, c: Oid, level: nat): Requested {
    missing[c := if c in missing && missing[c] < level then missing[c] else level]
  }

  ghost predicate Pending(x: Oid, missing: Requested, known: set<Oid>) {
    x in missing && x !in known
  }

  /** Whoever is requested is waited for by `c`. */
  ghost predicate OnPath(c: Oid, known: set<Oid>, missing: Requested) {
    forall x :: Pending(x, missing, known) ==> Leads(c, x, known)
  }

  ghost predicate IsBlocker(x: Oid, y: Oid, known: set<Oid>) {
    Waits(x, known) && Blocker(x, known) == y
  }

  /** Whoever waits came up earlier than what it waits for, or together with its blocker. */
  ghost predicate Stacked(known: set<Oid>, missing: Requested) {
    forall x, y :: Pending(x, missing, known) && Pending(y, missing, known) && x != y && Leads(x, y, known) ==>
      missing[x] < missing[y] || (missing[x] == missing[y] && IsBlocker(x, y, known))
  }

  /** `c` and its blocker are requested, if anything but `c` is. */
  ghost predicate Rooted(c: Oid, known: set<Oid>, missing: Requested) {
    forall x :: Pending(x, missing, known) && x != c ==>
      Pending(c, missing, known) && Waits(c, known) && Pending(Blocker(c, known), missing, known)
  }

  ghost predicate Queue(c: Oid, known: set<Oid>, missing: Requested) {
    OnPath(c, known, missing) && Stacked(known, missing) && Rooted(c, known, missing)
  }

  ghost predicate Capped(known: set<Oid>, missing: Requested, level: nat) {
    forall x :: Pending(x, missing, known) ==> missing[x] <= level
  }

  /** `u` is where a walk down the first parents of `x` gets stuck, or what it gets stuck for. */
  ghost predicate StopsAt(x: Oid, u: Oid, known: set<Oid>) {
    u == Bottom(x, known) || IsBlocker(Bottom(x, known), u, known)
  }

  ghost predicate RequestedAt(x: Oid, level: nat, missing: Requested, known: set<Oid>) {
    Pending(x, missing, known) && missing[x] == level
  }

  /** What came up while `level` is worked on is where its lowest member gets stuck. */
  ghost predicate Batch(known: set<Oid>, missing: Requested, level: nat) {
    forall u, x :: RequestedAt(u, level + 1, missing, known) && RequestedAt(x, level, missing, known) ==>
      StopsAt(x, u, known) || Paired(x, known, missing, level)
  }

  /** The blocker of `x` is on the same level. */
  ghost predicate Paired(x: Oid, known: set<Oid>, missing: Requested, level: nat) {
    Waits(x, known) && RequestedAt(Blocker(x, known), level, missing, known)
  }

  // ------------------------------------------------------------------ growing knowledge

  lemma QueueGrows(c: Oid, a: set<Oid>, b: set<Oid>, missing: Requested)
    requires Learned(a, b) && Queue(c, a, missing)
    ensures Queue(c, b, missing)
  {
    hide Leads, Waits, Blocker;
    forall x | Pending(x, missing, b) ensures Leads(c, x, b) {
      assert Pending(x, missing, a);
      LeadsStays(c, x, a, b);
    }
    forall x, y | Pending(x, missing, b) && Pending(y, missing, b) && x != y && Leads(x, y, b)
      ensures missing[x] < missing[y] || (missing[x] == missing[y] && IsBlocker(x, y, b))
    {
      assert Pending(x, missing, a) && Pending(y, missing, a);
      LeadsBack(c, x, y, a, b);
      if IsBlocker(x, y, a) {
        BlockerStays(x, a, b);
      }
    }
    forall x | Pending(x, missing, b) && x != c
      ensures Pending(c, missing, b) && Waits(c, b) && Pending(Blocker(c, b), missing, b)
    {
      assert Pending(x, missing, a);
      var p := Blocker(c, a);
      LeadsStays(c, x, a, b);
      LeadsDown(c, x, b);
      LeadsPast(c, x, a);
      if p in b {
        KnownLeads(p, x, a, b);
      } else {
        BlockerStays(c, a, b);
      }
    }
  }

  lemma LeadsPast(c: Oid, x: Oid, known: set<Oid>)
    requires Leads(c, x, known) && x != c
    ensures Waits(c, known) && Leads(Blocker(c, known), x, known)
  {
  }

  lemma BatchGrows(c: Oid, a: set<Oid>, b: set<Oid>, missing: Requested, level: nat)
    requires Learned(a, b) && Queue(c, a, missing) && Batch(a, missing, level)
    ensures Batch(b, missing, level)
  {
    hide Leads, Waits, Blocker, Bottom, OnPath, Rooted;
    forall u, x | RequestedAt(u, level + 1, missing, b) && RequestedAt(x, level, missing, b)
      ensures StopsAt(x, u, b) || Paired(x, b, missing, level)
    {
      assert RequestedAt(u, level + 1, missing, a) && RequestedAt(x, level, missing, a);
      if StopsAt(x, u, a) {
        StopStays(x, u, a, b);
      } else {
        PairStays(c, a, b, missing, level, x, u);
      }
    }
  }

  lemma StopStays(x: Oid, u: Oid, a: set<Oid>, b: set<Oid>)
    requires Learned(a, b) && x !in a && u !in b && StopsAt(x, u, a)
    ensures StopsAt(x, u, b)
  {
    hide Leads, Waits, Blocker, Bottom;
    var m := Bottom(x, a);
    if u == m {
      BottomStays(x, a, b);
    } else {
      LeadsToBottom(x, a);
      LeadsToBlocker(m, a);
      if m in b {
        KnownLeads(m, u, a, b);
      }
      BottomStays(x, a, b);
      BlockerStays(m, a, b);
    }
  }

  lemma PairStays(c: Oid, a: set<Oid>, b: set<Oid>, missing: Requested, level: nat, x: Oid, u: Oid)
    requires Learned(a, b) && Stacked(a, missing) && Batch(a, missing, level) && Paired(x, a, missing, level)
    requires RequestedAt(x, level, missing, a) && RequestedAt(u, level + 1, missing, a) && u !in b
    ensures Paired(x, b, missing, level)
  {
    hide Leads, Waits, Blocker, Bottom;
    var y := Blocker(x, a);
    if y in b {
      // The blocker has no blocker on its level: that would be on one level with `x`, too.
      LeadsToBlocker(x, a);
      if Paired(y, a, missing, level) {
        LeadsToBlocker(y, a);
        LeadsOn(x, y, Blocker(y, a), a);
        LeadsDown(y, Blocker(y, a), a);
      }
      StopIsLed(y, u, a);
      KnownLeads(y, u, a, b);
    } else {
      BlockerStays(x, a, b);
    }
  }

  lemma StopIsLed(x: Oid, u: Oid, known: set<Oid>)
    requires x !in known && StopsAt(x, u, known)
    ensures Leads(x, u, known)
  {
    hide Leads, Waits, Blocker, Bottom;
    LeadsToBottom(x, known);
    if u != Bottom(x, known) {
      LeadsToBlocker(Bottom(x, known), known);
      LeadsOn(x, Bottom(x, known), u, known);
    }
  }

  // ------------------------------------------------------------------ new requests

  /** `more` has the same pending requests as `missing`, on the same levels. */
  ghost predicate SamePending(missing: Requested, more: Requested, known: set<Oid>) {
    forall x :: x !in known ==> (x in more <==> x in missing) && (x in more ==> more[x] == missing[x])
  }

  lemma SamePendingSelf(a: Requested, known: set<Oid>)
    ensures SamePending(a, a, known)
  {
  }

  lemma SamePendingThen(a: Requested, b: Requested, c: Requested, known: set<Oid>, more: set<Oid>)
    requires SamePending(a, b, known) && SamePending(b, c, more) && known <= more
    ensures SamePending(a, c, more)
  {
  }

  lemma SamePendingNoted(a: Requested, b: Requested, known: set<Oid>, m: Oid, q: Oid, level: nat)
    requires SamePending(a, b, known)
    ensures SamePending(Noted(Noted(a, m, level), q, level), Noted(Noted(b, m, level), q, level), known)
  {
  }

  lemma QueueSame(c: Oid, known: set<Oid>, missing: Requested, more: Requested, level: nat)
    requires SamePending(missing, more, known)
    ensures Queue(c, known, missing) ==> Queue(c, known, more)
    ensures Capped(known, missing, level) ==> Capped(known, more, level)
    ensures Batch(known, missing, level) ==> Batch(known, more, level)
  {
    hide Leads, Waits, Blocker, Bottom;
    assert forall x :: Pending(x, missing, known) <==> Pending(x, more, known);
    if Batch(known, missing, level) {
      forall u, x | RequestedAt(u, level + 1, more, known) && RequestedAt(x, level, more, known)
        ensures StopsAt(x, u, known) || Paired(x, known, more, level)
      {
        assert RequestedAt(u, level + 1, missing, known) && RequestedAt(x, level, missing, known);
      }
    }
  }

  /** A walk from `x` that gets stuck requests where and for what. */
  function Stuck(missing: Requested, x: Oid, level: nat, known: set<Oid>): Requested
    requires Waits(Bottom(x, known), known)
  {
    var m := Bottom(x, known);
    Noted(Noted(missing, m, level), Blocker(m, known), level)
  }

  /** The first parent of `c` is requested, unless it is known. */
  ghost predicate Started(c: Oid, known: set<Oid>, missing: Requested) {
    c.Commit? && c.parents != [] && c.parents[0] !in known ==> c.parents[0] in missing
  }

  /** Two members of a level: one is the blocker of the other, and gets stuck at the same place if it
      is its first parent. */
  lemma BottomOfFirst(x: Oid, known: set<Oid>)
    requires Bottom(x, known) != x
    ensures Waits(x, known) && Blocker(x, known) == x.parents[0] && Bottom(Blocker(x, known), known) == Bottom(x, known)
  {
    assert FirstUnknown(x.parents, known) == 0;
  }

  /** Everything that a walk from `x` comes to is new, or was requested when one got stuck there. */
  lemma BelowHighest(c: Oid, known: set<Oid>, missing: Requested, level: nat, x: Oid, u: Oid)
    requires Queue(c, known, missing) && Capped(known, missing, level + 1) && Batch(known, missing, level)
    requires RequestedAt(x, level, missing, known) && Pending(u, missing, known) && u != x && Leads(x, u, known)
    ensures level <= missing[u] <= level + 1 && (missing[u] == level ==> IsBlocker(x, u, known))
    ensures missing[u] == level + 1 ==>
      StopsAt(x, u, known) || (Bottom(x, known) == x && Paired(x, known, missing, level))
  {
    hide Leads, Waits, Blocker, Bottom, OnPath, Rooted;
    if missing[u] == level + 1 {
      assert RequestedAt(u, level + 1, missing, known);
      if Bottom(x, known) != x && Paired(x, known, missing, level) {
        BottomOfFirst(x, known);
        NotPairedTwice(known, missing, level, x);
        assert StopsAt(Blocker(x, known), u, known);
      }
    }
  }

  lemma NotPairedTwice(known: set<Oid>, missing: Requested, level: nat, x: Oid)
    requires Stacked(known, missing) && RequestedAt(x, level, missing, known) && Paired(x, known, missing, level)
    ensures !Paired(Blocker(x, known), known, missing, level)
  {
    hide Leads, Waits, Blocker;
    var y := Blocker(x, known);
    if Paired(y, known, missing, level) {
      LeadsToBlocker(x, known);
      LeadsToBlocker(y, known);
      LeadsOn(x, y, Blocker(y, known), known);
      LeadsDown(y, Blocker(y, known), known);
    }
  }

  /** What a stuck walk adds. */
  ghost predicate Adds(missing: Requested, more: Requested, known: set<Oid>, level: nat, m: Oid, q: Oid) {
    && (forall u :: Pending(u, more, known) <==> Pending(u, missing, known) || u == m || u == q)
    && (forall u :: Pending(u, missing, known) ==> more[u] == missing[u])
    && (forall u :: Pending(u, more, known) && !Pending(u, missing, known) ==> more[u] == level + 1)
  }

  lemma NotedAdds(known: set<Oid>, missing: Requested, level: nat, m: Oid, q: Oid)
    requires Capped(known, missing, level + 1) && m !in known && q !in known && m != q
    ensures Adds(missing, Noted(Noted(missing, m, level + 1), q, level + 1), known, level, m, q)
  {
    var one := Noted(missing, m, level + 1);
    var more := Noted(one, q, level + 1);
    forall u | Pending(u, missing, known) ensures u in more && more[u] == missing[u] {
      assert missing[u] <= level + 1;
    }
    forall u | Pending(u, more, known) && !Pending(u, missing, known)
      ensures (u == m || u == q) && more[u] == level + 1
    {
      assert u in missing || u == m || u == q;
    }
  }

  lemma StuckAdds(known: set<Oid>, missing: Requested, level: nat, x: Oid)
    requires Capped(known, missing, level + 1) && x !in known && Waits(Bottom(x, known), known)
    ensures Adds(missing, Stuck(missing, x, level + 1, known), known, level, Bottom(x, known),
                 Blocker(Bottom(x, known), known))
  {
    hide Bottom, Waits, Blocker, Adds, Noted, Leads;
    LeadsToBottom(x, known);
    LeadsToBlocker(Bottom(x, known), known);
    LeadsDown(Bottom(x, known), Blocker(Bottom(x, known), known), known);
    NotedAdds(known, missing, level, Bottom(x, known), Blocker(Bottom(x, known), known));
  }

  /** A stuck walk changes nothing exactly when where and for what it got stuck were requested before. */
  lemma StuckChangesNothing(known: set<Oid>, missing: Requested, level: nat, x: Oid)
    requires Capped(known, missing, level + 1) && x !in known && Waits(Bottom(x, known), known)
    ensures SamePending(missing, Stuck(missing, x, level + 1, known), known) <==>
      Pending(Bottom(x, known), missing, known) && Pending(Blocker(Bottom(x, known), known), missing, known)
  {
    hide Bottom, Waits, Blocker;
    StuckAdds(known, missing, level, x);
    var m := Bottom(x, known);
    var q, more := Blocker(m, known), Stuck(missing, x, level + 1, known);
    assert Pending(m, more, known) && Pending(q, more, known);
    assert forall u :: u in more && u !in known ==> Pending(u, more, known);
    assert forall u :: u in missing && u !in known ==> Pending(u, missing, known);
  }

  /** The situation in which a walk from `x` gets stuck at `m` for `q`. */
  ghost predicate GetsStuck(c: Oid, known: set<Oid>, missing: Requested, more: Requested, level: nat, x: Oid, m: Oid,
                            q: Oid) {
    && Queue(c, known, missing) && Capped(known, missing, level + 1) && Batch(known, missing, level)
    && RequestedAt(x, level, missing, known) && m == Bottom(x, known) && IsBlocker(m, q, known)
    && Adds(missing, more, known, level, m, q)
    && Leads(x, m, known) && Leads(x, q, known) && Leads(m, q, known) && Depth(q) < Depth(m)
  }

  lemma StackedStuck(c: Oid, known: set<Oid>, missing: Requested, more: Requested, level: nat, x: Oid, m: Oid, q: Oid)
    requires GetsStuck(c, known, missing, more, level, x, m, q)
    ensures Stacked(known, more)
  {
    hide Leads, Waits, Blocker, Bottom, Batch, Stacked, Rooted;
    forall u, v | Pending(u, more, known) && Pending(v, more, known) && u != v && Leads(u, v, known)
      ensures more[u] < more[v] || (more[u] == more[v] && IsBlocker(u, v, known))
    {
      LeadsDown(u, v, known);
      if Pending(u, missing, known) && Pending(v, missing, known) {
        OldPair(known, missing, u, v);
      } else if Pending(u, missing, known) {
        NewBelow(c, known, missing, more, level, x, m, q, u, v);
      } else {
        NewAbove(c, known, missing, more, level, x, m, q, u, v);
      }
    }
    assert Stacked(known, more) by { StackedMeans(known, more); }
  }

  lemma OldPair(known: set<Oid>, missing: Requested, u: Oid, v: Oid)
    requires Stacked(known, missing) && Pending(u, missing, known) && Pending(v, missing, known) && u != v
    requires Leads(u, v, known)
    ensures missing[u] < missing[v] || (missing[u] == missing[v] && IsBlocker(u, v, known))
  {
    hide Leads;
  }

  lemma StackedMeans(known: set<Oid>, missing: Requested)
    requires forall x, y :: Pending(x, missing, known) && Pending(y, missing, known) && x != y && Leads(x, y, known) ==>
      missing[x] < missing[y] || (missing[x] == missing[y] && IsBlocker(x, y, known))
    ensures Stacked(known, missing)
  {
    hide Leads;
  }

  lemma NewBelow(c: Oid, known: set<Oid>, missing: Requested, more: Requested, level: nat, x: Oid, m: Oid, q: Oid,
                 u: Oid, v: Oid)
    requires GetsStuck(c, known, missing, more, level, x, m, q)
    requires Pending(u, missing, known) && Pending(v, more, known) && !Pending(v, missing, known) && Leads(u, v, known)
    ensures more[u] < more[v] || (more[u] == more[v] && IsBlocker(u, v, known))
  {
    hide Leads, Waits, Blocker, Bottom, Batch, Rooted;
    if u != x {
      LeadsOneWay(c, u, x, known);
      if Leads(u, x, known) {
        OldPair(known, missing, u, x);
      } else {
        BelowHighest(c, known, missing, level, x, u);
        LeadsDown(u, v, known);
      }
    }
  }

  lemma NewAbove(c: Oid, known: set<Oid>, missing: Requested, more: Requested, level: nat, x: Oid, m: Oid, q: Oid,
                 u: Oid, v: Oid)
    requires GetsStuck(c, known, missing, more, level, x, m, q)
    requires Pending(u, more, known) && !Pending(u, missing, known) && Pending(v, more, known) && u != v
    requires Leads(u, v, known)
    ensures more[u] < more[v] || (more[u] == more[v] && IsBlocker(u, v, known))
  {
    hide Leads, Waits, Blocker, Bottom, Batch, Rooted;
    LeadsDown(u, v, known);
    if Pending(v, missing, known) {
      LeadsOn(x, u, v, known);
      LeadsDown(x, u, known);
      BelowHighest(c, known, missing, level, x, v);
      if IsBlocker(x, v, known) {
        LeadsPast(x, u, known);
        LeadsDown(v, u, known);
      }
    }
  }

  lemma RootedStuck(c: Oid, known: set<Oid>, missing: Requested, more: Requested, level: nat, x: Oid, m: Oid, q: Oid)
    requires GetsStuck(c, known, missing, more, level, x, m, q) && Started(c, known, missing)
    ensures Rooted(c, known, more) && OnPath(c, known, more)
  {
    hide Leads, Waits, Blocker, Bottom, Batch, Stacked;
    LeadsOn(c, x, m, known);
    LeadsOn(c, x, q, known);
    forall e | Pending(e, more, known) && e != c
      ensures Pending(c, more, known) && Waits(c, known) && Pending(Blocker(c, known), more, known)
    {
      if x != c {
      } else if m != c {
        BottomOfFirst(c, known);
        LeadsToBlocker(c, known);
      }
    }
  }

  lemma BatchStuck(c: Oid, known: set<Oid>, missing: Requested, more: Requested, level: nat, x: Oid, m: Oid, q: Oid)
    requires GetsStuck(c, known, missing, more, level, x, m, q)
    ensures Batch(known, more, level)
  {
    hide Leads, Waits, Blocker, Bottom, Stacked, Rooted;
    forall u, y | RequestedAt(u, level + 1, more, known) && RequestedAt(y, level, more, known)
      ensures StopsAt(y, u, known) || Paired(y, known, more, level)
    {
      assert RequestedAt(y, level, missing, known);
      if Pending(u, missing, known) {
        assert RequestedAt(u, level + 1, missing, known);
      } else if y != x {
        LeadsOneWay(c, x, y, known);
        if Leads(x, y, known) {
          OldPair(known, missing, x, y);
          if m != x {
            BottomOfFirst(x, known);
          }
        } else {
          OldPair(known, missing, y, x);
        }
      }
    }
  }

  /** A stuck walk keeps the order of the requests. */
  lemma QueueStuck(c: Oid, known: set<Oid>, missing: Requested, level: nat, x: Oid)
    requires Queue(c, known, missing) && Capped(known, missing, level + 1) && Batch(known, missing, level)
    requires RequestedAt(x, level, missing, known) && Waits(Bottom(x, known), known) && Started(c, known, missing)
    ensures var more := Stuck(missing, x, level + 1, known);
      Queue(c, known, more) && Capped(known, more, level + 1) && Batch(known, more, level)
  {
    hide Leads, Waits, Blocker, Bottom, Batch, Stacked, Rooted, OnPath, Stuck;
    var m := Bottom(x, known);
    var q, more := Blocker(m, known), Stuck(missing, x, level + 1, known);
    StuckAdds(known, missing, level, x);
    LeadsToBottom(x, known);
    LeadsToBlocker(m, known);
    LeadsOn(x, m, q, known);
    StackedStuck(c, known, missing, more, level, x, m, q);
    RootedStuck(c, known, missing, more, level, x, m, q);
    BatchStuck(c, known, missing, more, level, x, m, q);
  }

  /** The requests are in order while those of `level` are worked on. */
  ghost predicate InOrder(c: Oid, known: set<Oid>, missing: Requested, level: nat) {
    && Queue(c, known, missing) && Started(c, known, missing)
    && Capped(known, missing, level + 1) && Batch(known, missing, level)
  }

  /** Something below `x` is requested. */
  ghost predicate Deeper(x: Oid, missing: Requested, known: set<Oid>) {
    exists q :: Pending(q, missing, known) && Depth(q) < Depth(x)
  }

  /** As long as nothing is learned, something below every walked commit is requested. */
  ghost predicate GotDeeper(walked: set<Oid>, start: set<Oid>, missing: Requested, known: set<Oid>) {
    known == start ==> forall x :: x in walked ==> Deeper(x, missing, known)
  }

  lemma DeeperNone(start: set<Oid>, missing: Requested)
    ensures GotDeeper({}, start, missing, start)
  {
  }

  lemma DeeperStays(walked: set<Oid>, start: set<Oid>, before: set<Oid>, known: set<Oid>, missing: Requested,
                    more: Requested, x: Oid)
    requires start <= before <= known && x !in start && GotDeeper(walked, start, missing, before)
    requires forall e :: Pending(e, missing, before) && e !in known ==> Pending(e, more, known)
    requires x !in known ==> Deeper(x, more, known)
    ensures GotDeeper(walked + {x}, start, more, known)
  {
    hide Depth;
    if known == start {
      assert before == start;
    }
  }

  /** Walking a request of `level` as far as possible keeps the order. */
  lemma InOrderWalked(c: Oid, before: set<Oid>, known: set<Oid>, missing: Requested, more: Requested, level: nat,
                      x: Oid)
    requires InOrder(c, before, missing, level) && Learned(before, known)
    requires x in known ==> SamePending(missing, more, known)
    requires x !in known ==>
      && RequestedAt(x, level, missing, before) && Waits(Bottom(x, known), known)
      && SamePending(Stuck(missing, x, level + 1, known), more, known)
    ensures InOrder(c, known, more, level)
    ensures x !in known ==> Deeper(x, more, known)
  {
    hide Queue, Batch, Stuck, Waits, Blocker, Bottom, Learned, Depth, SamePending;
    QueueGrows(c, before, known, missing);
    BatchGrows(c, before, known, missing, level);
    KeepsBelow(c, before, known, missing, level);
    if x in known {
      QueueSame(c, known, missing, more, level);
      QueueSame(c, known, missing, more, level + 1);
      StartedSame(c, known, missing, more);
    } else {
      assert RequestedAt(x, level, missing, known);
      var stuck := Stuck(missing, x, level + 1, known);
      QueueStuck(c, known, missing, level, x);
      QueueSame(c, known, stuck, more, level);
      QueueSame(c, known, stuck, more, level + 1);
      StuckNotes(c, known, missing, more, level, x);
    }
  }

  /** What a walk from `x` leaves requested: everything still unknown, on its level, and what it got
      stuck for. */
  lemma WalkedRequests(all: set<Oid>, before: set<Oid>, known: set<Oid>, missing: Requested, more: Requested,
                       level: nat, x: Oid)
    requires before <= known && Whole(all) && x in all
    requires forall e :: Pending(e, missing, before) ==> e in all
    requires x in known ==> SamePending(missing, more, known)
    requires x !in known ==>
      Waits(Bottom(x, known), known) && SamePending(Stuck(missing, x, level + 1, known), more, known)
    ensures forall e :: Pending(e, more, known) ==> e in all
    ensures forall e :: Pending(e, missing, before) && e !in known ==> Pending(e, more, known)
    ensures forall e :: RequestedAt(e, level, missing, before) && e !in known ==> RequestedAt(e, level, more, known)
  {
    hide Waits, Bottom, Below, Blocker;
    assert forall e :: Pending(e, missing, known) ==> Pending(e, missing, before);
    if x !in known {
      var m := Bottom(x, known);
      var q := Blocker(m, known);
      LeadsToBottom(x, known);
      LeadsToBlocker(m, known);
      LeadsOn(x, m, q, known);
      LeadsDown(x, m, known);
      LeadsDown(x, q, known);
      assert forall e :: Pending(e, more, known) ==> Pending(e, missing, known) || e == m || e == q;
    }
  }

  lemma KeepsBelow(c: Oid, before: set<Oid>, known: set<Oid>, missing: Requested, level: nat)
    requires Learned(before, known) && Capped(before, missing, level + 1) && Started(c, before, missing)
    ensures Capped(known, missing, level + 1) && Started(c, known, missing)
  {
    assert forall x :: Pending(x, missing, known) ==> Pending(x, missing, before);
  }

  lemma StartedSame(c: Oid, known: set<Oid>, missing: Requested, more: Requested)
    requires Started(c, known, missing) && SamePending(missing, more, known)
    ensures Started(c, known, more)
  {
  }

  lemma StuckNotes(c: Oid, known: set<Oid>, missing: Requested, more: Requested, level: nat, x: Oid)
    requires Started(c, known, missing) && x !in known && Waits(Bottom(x, known), known)
    requires SamePending(Stuck(missing, x, level + 1, known), more, known)
    ensures Started(c, known, more)
    ensures Deeper(x, more, known)
  {
    hide Waits, Bottom, Depth;
    var m := Bottom(x, known);
    var q := Blocker(m, known);
    LeadsToBottom(x, known);
    LeadsToBlocker(m, known);
    LeadsOn(x, m, q, known);
    LeadsDown(m, q, known);
    LeadsDown(x, m, known);
    LeadsDown(x, q, known);
    assert Pending(q, more, known);
  }

  /** Asking for `c` requests it and its blocker. */
  lemma QueueAsked(c: Oid, known: set<Oid>, missing: Requested, level: nat)
    requires Queue(c, known, missing) && Capped(known, missing, level) && c !in known && Waits(c, known)
    ensures var more := Noted(Noted(missing, c, level), Blocker(c, known), level);
      Queue(c, known, more) && Capped(known, more, level) && Started(c, known, more)
  {
    hide Leads, Waits, Blocker, OnPath, Rooted, Stacked;
    var p, more := Blocker(c, known), Noted(Noted(missing, c, level), Blocker(c, known), level);
    LeadsToBlocker(c, known);
    LeadsSelf(c, known);
    LeadsDown(c, p, known);
    FirstIsBlocker(c, known);
    if Pending(c, missing, known) && Pending(p, missing, known) {
      assert SamePending(missing, more, known);
      QueueSame(c, known, missing, more, level);
    } else {
      OnlyAsked(c, known, missing);
      assert forall u :: Pending(u, more, known) ==> Pending(u, missing, known) || u == c || u == p;
      assert c != p && !Pending(p, missing, known) && p !in missing;
      assert more[c] <= more[p];
      TwoRequests(c, p, known, more);
    }
  }

  lemma OnlyAsked(c: Oid, known: set<Oid>, missing: Requested)
    requires Rooted(c, known, missing) && c !in known && Waits(c, known)
    requires !Pending(c, missing, known) || !Pending(Blocker(c, known), missing, known)
    ensures forall u :: Pending(u, missing, known) ==> u == c
  {
  }

  lemma TwoRequests(c: Oid, p: Oid, known: set<Oid>, more: Requested)
    requires IsBlocker(c, p, known) && c !in known && forall u :: Pending(u, more, known) <==> u == c || u == p
    requires c in more && p in more && more[c] <= more[p]
    ensures Queue(c, known, more)
  {
    hide Leads, Waits, Blocker;
    LeadsToBlocker(c, known);
    LeadsSelf(c, known);
    forall u, v | Pending(u, more, known) && Pending(v, more, known) && u != v && Leads(u, v, known)
      ensures u == c && v == p
    {
      LeadsDown(u, v, known);
    }
  }

  lemma LeadsSelf(x: Oid, known: set<Oid>)
    requires x !in known
    ensures Leads(x, x, known)
  {
  }

  lemma FirstIsBlocker(c: Oid, known: set<Oid>)
    requires Waits(c, known)
    ensures c.parents[0] !in known ==> Blocker(c, known) == c.parents[0]
  {
  }

  // ------------------------------------------------------------------ levels

  /** On the highest level nothing has come up yet. */
  lemma HighestLevel(known: set<Oid>, missing: Requested, level: nat)
    requires Capped(known, missing, level)
    ensures Capped(known, missing, level + 1) && Batch(known, missing, level)
  {
    hide Waits, Blocker, Bottom;
  }

  lemma {:induction false} LowestExists(some: set<Oid>) returns (y: Oid)
    requires some != {}
    ensures y in some && forall x :: x in some ==> Depth(y) <= Depth(x)
    decreases some
  {
    var x :| x in some;
    var rest := some - {x};
    y := x;
    if rest != {} {
      var other := LowestExists(rest);
      if Depth(other) < Depth(x) {
        y := other;
      }
    }
    forall z | z in some ensures Depth(y) <= Depth(z) {
      assert z == x || z in rest;
    }
  }

  /** The lowest request is on the highest level. */
  lemma LowestIsHighest(c: Oid, known: set<Oid>, missing: Requested, level: nat) returns (y: Oid)
    requires Queue(c, known, missing) && Capped(known, missing, level)
    requires exists x :: RequestedAt(x, level, missing, known)
    ensures RequestedAt(y, level, missing, known) && forall e :: Pending(e, missing, known) ==> Depth(y) <= Depth(e)
  {
    hide Leads, Waits, Blocker, Rooted, Depth;
    var x :| RequestedAt(x, level, missing, known);
    var pending := set e | e in missing && e !in known;
    assert x in pending;
    y := LowestExists(pending);
    assert Pending(y, missing, known) && forall e :: Pending(e, missing, known) ==> e in pending;
    if y != x {
      LeadsOneWay(c, x, y, known);
      if !Leads(x, y, known) {
        LeadsDown(y, x, known);
      }
    }
  }

  /** `low` bounds the depth of all requests and of `c`, and is met. */
  ghost predicate IsLow(low: nat, c: Oid, known: set<Oid>, missing: Requested) {
    && low <= Depth(c) && (forall e :: Pending(e, missing, known) ==> low <= Depth(e))
    && (low == Depth(c) || exists e :: Pending(e, missing, known) && Depth(e) == low)
  }

  lemma LowFor(c: Oid, known: set<Oid>, missing: Requested) returns (low: nat)
    ensures IsLow(low, c, known, missing)
  {
    hide Depth;
    var pending := set e | e in missing && e !in known;
    var all := pending + {c};
    assert c in all && forall e :: Pending(e, missing, known) ==> e in all;
    var y := LowestExists(all);
    low := Depth(y);
    if y != c {
      assert Pending(y, missing, known);
    }
  }

  // ------------------------------------------------------------------ one round of asking and walking

  lemma QueueIdle(c: Oid, known: set<Oid>, missing: Requested, level: nat)
    requires missing.Keys <= known
    ensures Queue(c, known, missing) && Capped(known, missing, level)
  {
  }

  /** Asking for a `c` that cannot be read requests nothing else. */
  lemma QueueNoted(c: Oid, known: set<Oid>, missing: Requested, level: nat)
    requires Queue(c, known, missing) && Capped(known, missing, level) && c !in known
    ensures Queue(c, known, Noted(missing, c, level)) && Capped(known, Noted(missing, c, level), level)
  {
    hide Waits, Blocker;
    var more := Noted(missing, c, level);
    LeadsSelf(c, known);
    if Pending(c, missing, known) {
      assert SamePending(missing, more, known);
      QueueSame(c, known, missing, more, level);
    } else {
      assert forall u :: Pending(u, more, known) && u != c ==> Pending(u, missing, known);
      assert forall u :: Pending(u, more, known) ==> u == c;
    }
  }

  /** Once `c` is known nothing is requested any more. */
  lemma QueueDone(c: Oid, a: set<Oid>, b: set<Oid>, missing: Requested, more: Requested)
    requires Learned(a, b) && Queue(c, a, missing) && SamePending(missing, more, b) && c in b
    ensures more.Keys <= b
  {
    hide Learned, Stacked, Rooted;
    QueueGrows(c, a, b, missing);
    assert forall x :: x in more && x !in b ==> Pending(x, missing, b);
  }

  lemma AskedFor(c: Oid, all: set<Oid>, known: set<Oid>, missing: Requested, level: nat)
    requires Whole(all) && c in all && c !in known && Waits(c, known)
    requires forall e :: Pending(e, missing, known) ==> e in all
    ensures var more := Noted(Noted(missing, c, level), Blocker(c, known), level);
      && Pending(c, more, known) && (forall e :: Pending(e, more, known) ==> e in all)
      && forall e :: Pending(e, missing, known) ==> Pending(e, more, known)
  {
    BelowSelf(Blocker(c, known));
    assert Below(c, Blocker(c, known));
  }

  lemma PendingSame(known: set<Oid>, missing: Requested, more: Requested)
    requires SamePending(missing, more, known)
    ensures forall e :: Pending(e, missing, known) <==> Pending(e, more, known)
  {
  }

  /** The requests of the highest level can be worked on. */
  lemma HighestInOrder(c: Oid, known: set<Oid>, missing: Requested, more: Requested, level: nat)
    requires Queue(c, known, missing) && Started(c, known, missing) && SamePending(missing, more, known)
    requires Capped(known, more, level)
    ensures Queue(c, known, more) && InOrder(c, known, more, level)
  {
    hide Queue, Started, SamePending, Batch;
    QueueSame(c, known, missing, more, level);
    StartedSame(c, known, missing, more);
    HighestLevel(known, more, level);
  }

  lemma InOrderMeans(c: Oid, known: set<Oid>, missing: Requested, level: nat)
    requires InOrder(c, known, missing, level)
    ensures Queue(c, known, missing) && Capped(known, missing, level + 1)
  {
  }

  /** A round that learned nothing has requested something that is deeper than all before. */
  lemma LowerNow(c: Oid, known: set<Oid>, missing: Requested, queued: Requested, more: Requested, level: nat,
                 batch: set<Oid>, low: nat, lower: nat)
    requires Queue(c, known, queued) && Capped(known, queued, level) && Pending(c, queued, known)
    requires batch != {} && forall x :: x in batch <==> RequestedAt(x, level, queued, known)
    requires forall e :: Pending(e, missing, known) ==> Pending(e, queued, known)
    requires GotDeeper(batch, known, more, known)
    requires IsLow(low, c, known, missing) && IsLow(lower, c, known, more)
    ensures lower < low
  {
    hide Queue, Capped, Depth;
    var x :| x in batch;
    var y := LowestIsHighest(c, known, queued, level);
    assert Deeper(y, more, known);
  }
}
