/** What a failed call leaves behind for linear history can keep a later call from ever ending. */
module StuckCalls {
  import opened Objects
  import opened Filtering
  import opened Waiting
  import opened Requests
  import opened Memo

  /** `c` is the last request that came up, and waits for one that came up before. */
  ghost predicate CameUpLast(c: Oid, known: set<Oid>, missing: Requested, nesting: nat) {
    && Waits(c, known) && Bottom(c, known) == c
    && Pending(c, missing, known) && Pending(Blocker(c, known), missing, known)
    && missing[c] <= nesting && forall x :: Pending(x, missing, known) && x != c ==> missing[x] < missing[c]
  }

  ghost predicate Trapped(cache: FilterCache, c: Oid)
    reads cache
  {
    && cache.f.options.linear && Sound(cache.f, cache.memo) && Readable(cache.odb, c)
    && CameUpLast(c, cache.memo.Keys, cache.missing, cache.nesting)
  }

  lemma LineOfOne(x: Oid, known: set<Oid>)
    requires x !in known && Bottom(x, known) == x
    ensures forall y :: OnLine(x, y, known) ==> y == x
  {
    LeadsToBottom(x, known);
  }

  lemma LastMeans(c: Oid, known: set<Oid>, missing: Requested, nesting: nat)
    requires CameUpLast(c, known, missing, nesting)
    ensures c !in known && Pending(c, missing, known) && missing[c] <= nesting
    ensures Waits(c, known) && Bottom(c, known) == c
  {
  }

  lemma LastSame(c: Oid, known: set<Oid>, missing: Requested, more: Requested, nesting: nat, level: nat)
    requires CameUpLast(c, known, missing, nesting) && SamePending(missing, more, known) && nesting <= level
    ensures CameUpLast(c, known, more, level)
  {
    hide Bottom, Waits, Blocker;
    assert forall x :: Pending(x, more, known) ==> Pending(x, missing, known);
  }

  lemma LastFrom(c: Oid, known: set<Oid>, missing: Requested, nesting: nat, level: nat)
    requires CameUpLast(c, known, missing, nesting) && missing[c] == level
    ensures CameUpLast(c, known, missing, level + 1)
  {
  }

  lemma AskedAgain(c: Oid, known: set<Oid>, missing: Requested, nesting: nat)
    requires CameUpLast(c, known, missing, nesting)
    ensures SamePending(missing, Noted(Noted(missing, c, nesting), Blocker(c, known), nesting), known)
  {
    hide Bottom, Waits, Blocker;
  }

  lemma HighestIsLast(c: Oid, known: set<Oid>, missing: Requested, nesting: nat, level: nat, batch: set<Oid>)
    requires CameUpLast(c, known, missing, nesting) && Capped(known, missing, level)
    requires batch != {} && forall x :: x in batch <==> RequestedAt(x, level, missing, known)
    ensures level == missing[c] && batch == {c}
  {
    hide Bottom, Waits, Blocker;
    var x :| x in batch;
    assert RequestedAt(x, level, missing, known);
  }

  /** A walk from `c` learns nothing and requests nothing. */
  lemma WalkedInVain(c: Oid, known: set<Oid>, after: set<Oid>, missing: Requested, more: Requested, level: nat)
    requires CameUpLast(c, known, missing, level + 1) && missing[c] == level
    requires Learned(known, after) && after <= known + {c}
    requires c !in after ==>
      Waits(Bottom(c, after), after) && SamePending(Stuck(missing, c, level + 1, after), more, after)
    ensures after == known && SamePending(missing, more, known)
  {
    hide Bottom, Waits, Blocker, Stuck, SamePending;
    LeadsToBlocker(c, known);
    assert c !in after;
    assert after == known;
    StuckChangesNothing(known, missing, level, c);
    SamePendingThen(missing, Stuck(missing, c, level + 1, known), more, known, known);
  }

  /** The walks of a round for a trapped commit: it is the one request of the highest level. */
  method WalkTrapped(cache: FilterCache, c: Oid) returns (batch: set<Oid>)
    requires Trapped(cache, c)
    modifies cache
    ensures batch == {c} && Trapped(cache, c) && cache.memo.Keys == old(cache.memo.Keys)
  {
    hide CameUpLast, Waits, Bottom, Blocker, SamePending, Sound, Learned, Capped, RequestedAt, OnLine, Readable,
      Closed, Below, Image;
    ghost var known, asked, nesting := cache.memo.Keys, cache.missing, cache.nesting;
    LastMeans(c, known, asked, nesting);
    LineOfOne(c, known);
    var level;
    level, batch := cache.GetMissing();
    ghost var queued := cache.missing;
    LastSame(c, known, asked, queued, nesting, nesting);
    HighestIsLast(c, known, queued, nesting, level, batch);
    cache.nesting := level + 1;
    LastFrom(c, known, queued, nesting, level);
    var walked := cache.Walk2(c);
    assert cache.memo.Keys <= known + {c};
    WalkedInVain(c, known, cache.memo.Keys, queued, cache.missing, level);
    LastSame(c, known, queued, cache.missing, level + 1, level + 1);
  }

  /** A round of a call for a trapped commit learns nothing and leaves it trapped, and so does every round
      after it. */
  method Round(cache: FilterCache, c: Oid) returns (r: Result<Option<Oid>>)
    requires Trapped(cache, c)
    modifies cache
    ensures r == Ok(None) && Trapped(cache, c) && cache.memo.Keys == old(cache.memo.Keys)
  {
    hide CameUpLast, Waits, Bottom, Blocker, SamePending, Sound, Learned, Noted, Readable;
    ghost var known, asked, nesting := cache.memo.Keys, cache.missing, cache.nesting;
    LastMeans(c, known, asked, nesting);
    r := cache.ApplyToCommit2(c);
    AskedAgain(c, known, asked, nesting);
    LastSame(c, known, asked, cache.missing, nesting, nesting);
    var batch := WalkTrapped(cache, c);
  }

  // ------------------------------------------------------------------ a call after a failed one

  const ROOT := Commit(EMPTY_TREE, [], "root")
  const GONE := Commit(EMPTY_TREE, [], "gone")
  const MERGE := Commit(EMPTY_TREE, [ROOT, GONE], "merge")
  const FIRST := Commit(EMPTY_TREE, [ROOT, MERGE], "first")
  const SECOND := Commit(EMPTY_TREE, [ROOT, MERGE], "second")
  const STORE: Odb := {ROOT, MERGE, FIRST, SECOND}

  lemma TwoParents(x: Oid, known: set<Oid>)
    requires x.Commit? && |x.parents| == 2
    ensures x.parents[0] !in known ==>
      Waits(x, known) && Blocker(x, known) == x.parents[0] && Bottom(x, known) == Bottom(x.parents[0], known)
    ensures x.parents[0] in known && x.parents[1] !in known ==>
      Waits(x, known) && Blocker(x, known) == x.parents[1] && Bottom(x, known) == x
  {
    var i := FirstUnknown(x.parents, known);
    assert i == 2 ==> x.parents[1] in known;
  }

  lemma NoParents(x: Oid, known: set<Oid>)
    requires x.Commit? && x.parents == []
    ensures !Waits(x, known) && Bottom(x, known) == x
  {
  }

  /** Where a call stands: what is known, what is requested, and the level of new requests. */
  ghost predicate Stands(cache: FilterCache, known: set<Oid>, asked: Requested, level: nat)
    reads cache
  {
    && cache.odb == STORE && cache.f.options.linear && Sound(cache.f, cache.memo)
    && cache.memo.Keys == known && SamePending(asked, cache.missing, known) && cache.nesting == level
  }

  lemma OnTheLine(known: set<Oid>)
    requires known <= {ROOT}
    ensures forall x :: OnLine(FIRST, x, known) ==> x == FIRST || x == ROOT
    ensures ROOT in known ==> forall x :: OnLine(MERGE, x, known) ==> x == MERGE
    ensures forall x :: OnLine(GONE, x, known) ==> x == GONE
  {
  }

  /** A walk from `FIRST` has learned `ROOT` and nothing else. */
  lemma FirstWalked(known: set<Oid>)
    requires Learned({}, known) && known <= {FIRST, ROOT}
    requires FIRST !in known ==> Waits(Bottom(FIRST, known), known)
    ensures known == {ROOT} && Bottom(FIRST, known) == FIRST && Blocker(FIRST, known) == MERGE
  {
    assert MERGE in FIRST.parents;
    TwoParents(FIRST, known);
    NoParents(ROOT, known);
  }

  lemma MergeWalked(known: set<Oid>)
    requires Learned({ROOT}, known) && known <= {MERGE, ROOT}
    ensures known == {ROOT} && Bottom(MERGE, known) == MERGE && Waits(MERGE, known) && Blocker(MERGE, known) == GONE
  {
    assert GONE in MERGE.parents;
    TwoParents(MERGE, known);
  }

  lemma HighestOf(known: set<Oid>, asked: Requested, missing: Requested, level: nat, batch: set<Oid>, x: Oid)
    requires SamePending(asked, missing, known) && Capped(known, missing, level)
    requires batch != {} && forall e :: e in batch <==> RequestedAt(e, level, missing, known)
    requires Pending(x, asked, known) && forall e :: Pending(e, asked, known) ==> asked[e] <= asked[x]
    ensures level == asked[x] && forall e :: e in batch <==> RequestedAt(e, level, asked, known)
  {
    assert Pending(x, missing, known);
    var e :| e in batch;
    assert Pending(e, asked, known);
  }

  lemma StuckFrom(x: Oid, before: set<Oid>, after: set<Oid>, asked: Requested, queued: Requested, more: Requested,
                  level: nat)
    requires before <= after && SamePending(asked, queued, before) && Waits(Bottom(x, after), after)
    requires SamePending(Stuck(queued, x, level, after), more, after)
    ensures SamePending(Stuck(asked, x, level, after), more, after)
  {
    hide Bottom, Waits, Blocker, Noted;
    var m := Bottom(x, after);
    var q := Blocker(m, after);
    SamePendingSelf(queued, after);
    SamePendingThen(asked, queued, queued, before, after);
    SamePendingNoted(asked, queued, after, m, q, level);
    SamePendingThen(Stuck(asked, x, level, after), Stuck(queued, x, level, after), more, after, after);
  }

  lemma NotedBefore(missing: Requested, c: Oid, level: nat)
    requires c in missing && missing[c] <= level
    ensures Noted(missing, c, level) == missing
  {
  }

  method Begin(f: Filter) returns (cache: FilterCache)
    requires f.options.linear
    ensures fresh(cache) && Stands(cache, {}, map[FIRST := 0, ROOT := 0], 0)
  {
    hide Waits, Bottom, Blocker, Image, SamePending;
    cache := new FilterCache(STORE, f, map[]);
    assert cache.memo.Keys == {};
    TwoParents(FIRST, {});
    var asked := cache.ApplyToCommit2(FIRST);
    assert asked == Ok(None);
    assert Noted(Noted(map[], FIRST, 0), ROOT, 0) == map[FIRST := 0, ROOT := 0];
    SamePendingSelf(cache.missing, {});
  }

  method WalkRoot(cache: FilterCache, ghost asked: Requested)
    requires Stands(cache, {ROOT}, asked, cache.nesting)
    modifies cache`memo, cache`missing
    ensures Stands(cache, {ROOT}, asked, cache.nesting)
  {
    hide Sound, Waits, Bottom, Blocker, Image, Below, Closed, Learned, SamePending;
    ghost var missing := cache.missing;
    var walked := cache.Walk2(ROOT);
    assert cache.memo.Keys == {ROOT};
    if walked.Ok? {
      SamePendingThen(asked, missing, cache.missing, {ROOT}, {ROOT});
    }
  }

  method WalkFirst(cache: FilterCache)
    requires Stands(cache, {}, map[FIRST := 0, ROOT := 0], 0)
    modifies cache
    ensures Stands(cache, {ROOT}, map[FIRST := 0, ROOT := 0, MERGE := 1], 1)
  {
    hide Sound, Waits, Bottom, Blocker, Image, Below, Closed, SamePending, Capped, RequestedAt, OnLine;
    ghost var asked := map[FIRST := 0, ROOT := 0];
    PendingSame({}, asked, cache.missing);
    assert Pending(FIRST, asked, {});
    ghost var missing := cache.missing;
    var level, batch := cache.GetMissing();
    ghost var queued := cache.missing;
    SamePendingThen(asked, missing, queued, {}, {});
    HighestOf({}, asked, queued, level, batch, FIRST);
    cache.nesting := level + 1;
    var walked := cache.Walk2(FIRST);
    OnTheLine({});
    FirstWalked(cache.memo.Keys);
    StuckFrom(FIRST, {}, {ROOT}, asked, queued, cache.missing, 1);
    assert Noted(Noted(asked, FIRST, 1), MERGE, 1) == map[FIRST := 0, ROOT := 0, MERGE := 1];
    WalkRoot(cache, map[FIRST := 0, ROOT := 0, MERGE := 1]);
  }

  method AskFirst(cache: FilterCache, ghost asked: Requested)
    requires Stands(cache, {ROOT}, asked, cache.nesting) && FIRST in asked && MERGE in asked
    requires asked[FIRST] <= cache.nesting && asked[MERGE] <= cache.nesting
    modifies cache`memo, cache`missing
    ensures Stands(cache, {ROOT}, asked, cache.nesting)
  {
    hide Sound, Waits, Bottom, Blocker, Image, Learned, Noted;
    TwoParents(FIRST, {ROOT});
    ghost var missing := cache.missing;
    var r := cache.ApplyToCommit2(FIRST);
    NotedBefore(missing, FIRST, cache.nesting);
    NotedBefore(missing, MERGE, cache.nesting);
  }

  method WalkMerge(cache: FilterCache)
    requires Stands(cache, {ROOT}, map[FIRST := 0, ROOT := 0, MERGE := 1], 1)
    modifies cache
    ensures Stands(cache, {ROOT}, map[FIRST := 0, ROOT := 0, MERGE := 1, GONE := 2], 2)
  {
    hide Sound, Waits, Bottom, Blocker, Image, Below, Closed, Learned, SamePending, Capped, RequestedAt, OnLine;
    ghost var asked := map[FIRST := 0, ROOT := 0, MERGE := 1];
    AskFirst(cache, asked);
    PendingSame({ROOT}, asked, cache.missing);
    assert Pending(MERGE, asked, {ROOT});
    ghost var missing := cache.missing;
    var level, batch := cache.GetMissing();
    ghost var queued := cache.missing;
    SamePendingThen(asked, missing, queued, {ROOT}, {ROOT});
    HighestOf({ROOT}, asked, queued, level, batch, MERGE);
    cache.nesting := level + 1;
    var walked := cache.Walk2(MERGE);
    OnTheLine({ROOT});
    MergeWalked(cache.memo.Keys);
    StuckFrom(MERGE, {ROOT}, {ROOT}, asked, queued, cache.missing, 2);
    assert Noted(Noted(asked, MERGE, 2), GONE, 2) == map[FIRST := 0, ROOT := 0, MERGE := 1, GONE := 2];
  }

  /** What is gone cannot be walked: the call fails. */
  method WalkGone(cache: FilterCache) returns (r: Result<seq<Oid>>)
    requires Stands(cache, {ROOT}, map[FIRST := 0, ROOT := 0, MERGE := 1, GONE := 2], 2)
    modifies cache
    ensures r.Err? && Stands(cache, {ROOT}, map[FIRST := 0, ROOT := 0, MERGE := 1, GONE := 2], 3)
  {
    hide Sound, Waits, Bottom, Blocker, Image, Below, Closed, Learned, SamePending, Capped, RequestedAt, OnLine;
    ghost var asked := map[FIRST := 0, ROOT := 0, MERGE := 1, GONE := 2];
    AskFirst(cache, asked);
    PendingSame({ROOT}, asked, cache.missing);
    assert Pending(GONE, asked, {ROOT});
    ghost var missing := cache.missing;
    var level, batch := cache.GetMissing();
    ghost var queued := cache.missing;
    SamePendingThen(asked, missing, queued, {ROOT}, {ROOT});
    HighestOf({ROOT}, asked, queued, level, batch, GONE);
    cache.nesting := level + 1;
    r := cache.Walk2(GONE);
    NoParents(GONE, cache.memo.Keys);
    OnTheLine({ROOT});
  }

  method AskSecond(cache: FilterCache)
    requires Stands(cache, {ROOT}, map[FIRST := 0, ROOT := 0, MERGE := 1, GONE := 2], 3)
    modifies cache
    ensures Trapped(cache, SECOND)
  {
    hide Sound, Waits, Bottom, Blocker, Image, Below, Closed, Learned;
    TwoParents(SECOND, {ROOT});
    var r := cache.ApplyToCommit2(SECOND);
    var batch := WalkTrapped(cache, SECOND);
  }

  /** The rounds of a call for `FIRST` up to its failure, and the first round of a call for `SECOND`, which
      never ends. */
  method FailThenAsk(f: Filter) returns (cache: FilterCache)
    requires f.options.linear
    ensures Trapped(cache, SECOND)
  {
    cache := Begin(f);
    WalkFirst(cache);
    WalkMerge(cache);
    var failed := WalkGone(cache);
    AskSecond(cache);
  }
}
