/** The searches from a filtered commit back to an original one. */
module Searches {
  import opened Objects
  import opened RevWalks
  import opened Filtering

  /** The whole history below `c` can be read, so the filter can be applied to it. */
  predicate Complete(odb: Odb, c: Oid) {
    forall x :: x in History(c) ==> Readable(odb, x)
  }

  lemma CompleteBelow(odb: Odb, c: Oid)
    ensures Complete(odb, c) <==> forall x :: Below(c, x) ==> Readable(odb, x)
  {
    forall x ensures x in History(c) <==> Below(c, x) {
      HistoryIsBelow(c, x);
    }
  }

  lemma CompleteParts(odb: Odb, c: Oid, x: Oid)
    requires Complete(odb, c) && Below(c, x)
    ensures Complete(odb, x)
  {
    CompleteBelow(odb, c);
    CompleteBelow(odb, x);
    forall y | Below(x, y) ensures Below(c, y) {
      BelowTransitive(c, x, y);
    }
  }

  /** The first of `cs` that filters to `filtered`; zero if there is none. */
  function FirstMatch(f: Filter, cs: seq<Oid>, filtered: Oid): (r: Oid)
    ensures r != Zero ==> r in cs && Image(f, r) == filtered
    ensures r == Zero ==> forall c :: c in cs && c != Zero ==> Image(f, c) != filtered
  {
    if cs == [] then Zero
    else if Image(f, cs[0]) == filtered && cs[0] != Zero then cs[0]
    else
      assert forall c :: c in cs ==> c == cs[0] || c in cs[1..];
      FirstMatch(f, cs[1..], filtered)
  }

  lemma {:induction false} FirstMatchIsFirst(f: Filter, cs: seq<Oid>, filtered: Oid, i: nat)
    requires i < |cs| && cs[i] != Zero && Image(f, cs[i]) == filtered
    requires forall k :: 0 <= k < i ==> Image(f, cs[k]) != filtered
    ensures FirstMatch(f, cs, filtered) == cs[i]
  {
    hide Image;
    if i == 0 {
    } else {
      FirstMatchIsFirst(f, cs[1..], filtered, i - 1);
    }
  }

  // ------------------------------------------------------------------ find_unapply_base

  type Cache = map<Oid, Oid>

  /** An ancestor of `target` that filters to `filtered`, the first in discovery order. */
  function Found(f: Filter, target: Oid, filtered: Oid): Oid {
    if target == Zero then Zero else FirstMatch(f, PreOrder([target], false), filtered)
  }

  function BaseOf(f: Filter, cache: Cache, target: Oid, filtered: Oid): Oid {
    if filtered in cache then cache[filtered] else Found(f, target, filtered)
  }

  /** A search also remembers the image of the target and its own result. */
  function CacheAfter(f: Filter, cache: Cache, target: Oid, filtered: Oid): Cache {
    if filtered in cache || target == Zero then cache
    else
      var tip := if Image(f, target) == Zero then cache else cache[Image(f, target) := target];
      if Found(f, target, filtered) == Zero then tip else tip[filtered := Found(f, target, filtered)]
  }

  /** None of `cs` matches, and their parents are unlocked. */
  ghost predicate Processed(f: Filter, filtered: Oid, cs: set<Oid>, unlocked: set<Oid>) {
    forall c :: c in cs && c.Commit? ==> Image(f, c) != filtered && ToSet(c.parents) <= unlocked
  }

  /** The callback of the search: `pending` collects discovered commits, `unlocked` the parents
      of processed ones, and only unlocked pending commits are processed. */
  method Discovered(f: Filter, oid: Oid, filtered: Oid, pending: set<Oid>, unlocked: set<Oid>)
    returns (result: Option<Oid>, pending': set<Oid>, unlocked': set<Oid>)
    requires forall p :: p in pending || p == oid ==> p.Commit?
    ensures oid !in unlocked ==> result == None && pending' == pending + {oid} && unlocked' == unlocked
    ensures result.Some? ==> result.value in pending + {oid} && Image(f, result.value) == filtered
    ensures result == None && oid in unlocked ==>
      pending' !! unlocked' && Processed(f, filtered, pending + {oid} - pending', unlocked')
    ensures pending == {} && oid in unlocked && Image(f, oid) == filtered ==> result == Some(oid)
    ensures pending == {} && oid in unlocked && Image(f, oid) != filtered ==>
      result == None && pending' == {} && unlocked' == unlocked + ToSet(oid.parents)
  {
    hide Image;
    result, pending', unlocked' := None, pending + {oid}, unlocked;
    if oid !in unlocked {
      return;
    }
    ghost var alone := pending == {};
    while exists p :: p in pending' && p in unlocked'
      invariant result == None && pending' <= pending + {oid} && oid in unlocked'
      invariant Processed(f, filtered, pending + {oid} - pending', unlocked')
      invariant alone && oid in pending' ==> unlocked' == unlocked
      invariant alone && oid !in pending' ==>
        Image(f, oid) != filtered && unlocked' == unlocked + ToSet(oid.parents)
      decreases pending'
    {
      var p :| p in pending' && p in unlocked';
      pending' := pending' - {p};
      if Image(f, p) == filtered {
        return Some(p), pending', unlocked';
      }
      unlocked' := unlocked' + ToSet(p.parents);
    }
    assert oid !in pending';
  }

  method FindUnapplyBase(odb: Odb, f: Filter, cache: Cache, target: Oid, filtered: Oid)
    returns (r: Result<Oid>, cache': Cache)
    ensures r.Ok? <==> filtered in cache || target == Zero || Complete(odb, target)
    ensures r.Ok? ==> r.value == BaseOf(f, cache, target, filtered)
    ensures cache' == if r.Ok? then CacheAfter(f, cache, target, filtered) else cache
  {
    hide Image, FirstMatch, PreOrder, Complete;
    cache' := cache;
    if filtered in cache {
      return Ok(cache[filtered]), cache';
    }
    if target == Zero {
      return Ok(Zero), cache';
    }
    if !Complete(odb, target) {
      return Err, cache';
    }
    if Image(f, target) != Zero {
      cache' := cache'[Image(f, target) := target];
    }
    var result := SearchBase(odb, f, target, filtered);
    if result != Zero {
      cache' := cache'[filtered := result];
    }
    r := Ok(result);
  }

  /** The parents of the first `i` commits of a stream, and its start, are unlocked. */
  ghost predicate Unlocked(unlocked: set<Oid>, stream: seq<Oid>, i: nat, target: Oid)
    requires i <= |stream|
  {
    && target in unlocked
    && forall k, p :: 0 <= k < i && Edge(stream[k], p, false) ==> p in unlocked
  }

  lemma NextIsUnlocked(unlocked: set<Oid>, stream: seq<Oid>, i: nat, target: Oid)
    requires i < |stream| && Unlocked(unlocked, stream, i, target) && Linked(stream, [target], false)
    ensures stream[i] in unlocked
    ensures stream[i].Commit? ==> Unlocked(unlocked + ToSet(stream[i].parents), stream, i + 1, target)
  {
  }

  /** What the callback comes down to: stop at a match. */
  function StopAt(f: Filter, filtered: Oid): Oid -> Answer {
    c => if Image(f, c) == filtered then Break else Continue
  }

  /** Stream the history of `target` until a commit matches. */
  method SearchBase(odb: Odb, f: Filter, target: Oid, filtered: Oid) returns (r: Oid)
    requires Complete(odb, target)
    ensures r == FirstMatch(f, PreOrder([target], false), filtered)
  {
    hide Image, FirstMatch, PreOrder, Complete;
    var walk := new RevWalk(odb);
    CompleteTip(odb, target);
    var ok := walk.Push(target, []);
    assert [] + [target] == [target];
    var found;
    ghost var visits;
    found, visits := walk.Discover(StopAt(f, filtered), [target]);
    FirstStop(odb, f, target, filtered, visits);
    r := if found.Ok? && found.value.Some? then found.value.value else Zero;
  }

  lemma CompleteTip(odb: Odb, target: Oid)
    requires Complete(odb, target)
    ensures Readable(odb, target)
  {
    assert target in History(target);
  }

  lemma OnlyLastMatches(odb: Odb, f: Filter, target: Oid, filtered: Oid, visits: seq<Oid>)
    requires Complete(odb, target)
    requires StreamedUpTo(visits, PreOrder([target], false), odb, StopAt(f, filtered))
    ensures visits <= PreOrder([target], false)
    ensures forall i :: 0 <= i < |visits| ==> Readable(odb, visits[i])
    ensures forall i :: 0 <= i < |visits| - 1 ==> Image(f, visits[i]) != filtered
    ensures visits == PreOrder([target], false) || (visits != [] && Image(f, Last(visits)) == filtered)
  {
    hide Image, PreOrder, Complete;
    StreamReadable(odb, target);
    forall i | 0 <= i < |visits| ensures Readable(odb, visits[i]) {
      assert visits[i] == PreOrder([target], false)[i];
    }
  }

  lemma FirstStop(odb: Odb, f: Filter, target: Oid, filtered: Oid, visits: seq<Oid>)
    requires Complete(odb, target)
    requires StreamedUpTo(visits, PreOrder([target], false), odb, StopAt(f, filtered))
    ensures visits != [] && Halts(odb, StopAt(f, filtered), Last(visits)) ==>
      && StopAt(f, filtered)(Last(visits)) == Break
      && FirstMatch(f, PreOrder([target], false), filtered) == Last(visits)
    ensures visits == [] || !Halts(odb, StopAt(f, filtered), Last(visits)) ==>
      FirstMatch(f, PreOrder([target], false), filtered) == Zero
  {
    hide Image, FirstMatch, PreOrder, Complete, StreamedUpTo;
    var stream := PreOrder([target], false);
    OnlyLastMatches(odb, f, target, filtered, visits);
    if visits != [] && Image(f, Last(visits)) == filtered {
      FirstMatchIsFirst(f, stream, filtered, |visits| - 1);
    } else {
      assert visits == stream;
      forall c | c in stream ensures Image(f, c) != filtered {
        var k :| 0 <= k < |stream| && stream[k] == c;
      }
    }
  }

  /** The callback with its bookkeeping answers every call of the search just as `StopAt` does:
      nothing is left pending between two calls. */
  method CallbackAgrees(odb: Odb, f: Filter, target: Oid, filtered: Oid, visits: seq<Oid>)
    returns (answers: seq<Option<Oid>>)
    requires Complete(odb, target)
    requires StreamedUpTo(visits, PreOrder([target], false), odb, StopAt(f, filtered))
    ensures |answers| == |visits|
    ensures forall i :: 0 <= i < |visits| ==>
      answers[i] == if StopAt(f, filtered)(visits[i]) == Break then Some(visits[i]) else None
  {
    hide Image, PreOrder, Complete, Linked, Unlocked, StreamedUpTo, Distinct, Below, Processed;
    var pending, unlocked := {}, {target};
    ghost var stream := PreOrder([target], false);
    assert Linked(stream, [target], false) by { PreOrderFacts(target); }
    StartUnlocked(stream, target);
    OnlyLastMatches(odb, f, target, filtered, visits);
    answers := [];
    for i := 0 to |visits|
      invariant i < |visits| ==> pending == {} && Unlocked(unlocked, stream, i, target)
      invariant |answers| == i
      invariant forall k :: 0 <= k < i ==>
        answers[k] == if Image(f, visits[k]) == filtered then Some(visits[k]) else None
    {
      assert visits[i] == stream[i];
      NextIsUnlocked(unlocked, stream, i, target);
      var answer;
      answer, pending, unlocked := Discovered(f, visits[i], filtered, pending, unlocked);
      answers := answers + [answer];
    }
  }

  lemma StreamReadable(odb: Odb, target: Oid)
    requires Complete(odb, target)
    ensures forall c :: c in PreOrder([target], false) ==> Readable(odb, c)
  {
    hide Complete, PreOrder, Below, Linked, Distinct;
    PreOrderFacts(target);
    CompleteBelow(odb, target);
    forall c | c in PreOrder([target], false) ensures Readable(odb, c) {
      assert Below(target, c);
    }
  }

  lemma StartUnlocked(stream: seq<Oid>, target: Oid)
    ensures Unlocked({target}, stream, 0, target)
  {
  }

  // ------------------------------------------------------------------ find_original

  /** `c` filters to `filtered` without having changed anything itself. */
  predicate Inherits(f: Filter, c: Oid, filtered: Oid) {
    c.Commit? && |c.parents| == 1 && Image(f, c.parents[0]) == filtered
  }

  /** What is searched: the whole history, or the first-parent line of a linear filter. */
  ghost predicate Searched(target: Oid, c: Oid, linear: bool) {
    if linear then OnFirstLine(target, c, NO_PRUNE) else Below(target, c)
  }

  lemma SearchedIsReached(target: Oid, c: Oid, linear: bool)
    ensures Searched(target, c, linear) <==> Reaches([target], c, Rule(NO_PRUNE, linear))
  {
    if linear {
      FirstParentYield([target], NO_PRUNE, c);
      assert target in [target] && forall t :: t in [target] ==> t == target;
    } else {
      ReachesIsBelow(target, c);
    }
  }

  /** An original for `filtered` in the history of `target`: zero exactly when no walked commit
      filters to it, and never a commit that merely inherited the result. */
  method FindOriginal(odb: Odb, f: Filter, isNop: bool, target: Oid, filtered: Oid, linear: bool)
    returns (r: Result<Oid>)
    ensures target == Zero ==> r == Ok(Zero)
    ensures target != Zero && isNop ==> r == Ok(filtered)
    ensures target != Zero && !isNop && Complete(odb, target) ==> r.Ok?
    ensures target != Zero && !isNop && r.Ok? ==>
      var w := Rule(NO_PRUNE, linear);
      && (r.value != Zero <==> exists c :: Searched(target, c, linear) && Image(f, c) == filtered)
      && (r.value != Zero ==>
            && Searched(target, r.value, linear)
            && exists k :: FirstOwnAt(f, TopoOrder([target], w), filtered, k, r.value))
  {
    hide Image, Complete, Below, Reaches, Distinct, Searched;
    if target == Zero {
      return Ok(Zero);
    }
    if isNop {
      return Ok(filtered);
    }
    var walk := new RevWalk(odb);
    if linear {
      walk.SimplifyFirstParent([]);
    }
    var ok := walk.Push(target, []);
    if Complete(odb, target) {
      CompleteWalk(odb, target, linear);
    }
    if !ok {
      return Err;
    }
    assert [] + [target] == [target];
    var sorted;
    ghost var asked;
    sorted, asked := walk.IntoTopoVec(NO_PRUNE, [target]);
    if sorted.Err? {
      return Err;
    }
    r := FirstOwn(odb, f, sorted.value, filtered, target, linear);
    forall c ensures Searched(target, c, linear) <==> Reaches([target], c, Rule(NO_PRUNE, linear)) {
      SearchedIsReached(target, c, linear);
    }
  }

  lemma CompleteWalk(odb: Odb, target: Oid, linear: bool)
    requires Complete(odb, target)
    ensures Readable(odb, target)
    ensures forall c :: Reaches([target], c, Rule(NO_PRUNE, linear)) ==> Readable(odb, c) && Complete(odb, c)
  {
    CompleteBelow(odb, target);
    forall c | Reaches([target], c, Rule(NO_PRUNE, linear)) ensures Readable(odb, c) && Complete(odb, c) {
      var w := Rule(NO_PRUNE, linear);
      var path :| IsPath(path, w) && path[0] in [target] && Last(path) == c;
      PathIsBelow(path, w);
      CompleteParts(odb, target, c);
    }
  }

  /** `c`, at `k`, is the first of `out` that filters to `filtered` without inheriting it. */
  ghost predicate FirstOwnAt(f: Filter, out: seq<Oid>, filtered: Oid, k: nat, c: Oid) {
    && k < |out| && out[k] == c && Image(f, c) == filtered && !Inherits(f, c, filtered)
    && forall j :: 0 <= j < k && Image(f, out[j]) == filtered ==> Inherits(f, out[j], filtered)
  }

  /** The loop over the walked commits. */
  method FirstOwn(odb: Odb, f: Filter, out: seq<Oid>, filtered: Oid, target: Oid, linear: bool)
    returns (r: Result<Oid>)
    requires Topological(out, linear) && forall c :: c in out ==> Readable(odb, c)
    requires forall c :: c in out <==> Reaches([target], c, Rule(NO_PRUNE, linear))
    ensures (forall c :: c in out ==> Complete(odb, c)) ==> r.Ok?
    ensures r.Ok? ==> (r.value != Zero <==> exists c :: c in out && Image(f, c) == filtered)
    ensures r.Ok? && r.value != Zero ==> exists k :: FirstOwnAt(f, out, filtered, k, r.value)
  {
    hide Image, Complete, Below, Reaches;
    for i := 0 to |out|
      invariant forall k :: 0 <= k < i && Image(f, out[k]) == filtered ==> Inherits(f, out[k], filtered)
    {
      var original := out[i];
      assert original in out;
      if !Complete(odb, original) {
        return Err;
      }
      if Image(f, original) == filtered {
        if |original.parents| == 1 && Image(f, original.parents[0]) == filtered {
          continue;
        }
        assert FirstOwnAt(f, out, filtered, i, original);
        return Ok(original);
      }
    }
    if exists c :: c in out && Image(f, c) == filtered {
      ghost var c :| c in out && Image(f, c) == filtered;
      ghost var k :| 0 <= k < |out| && out[k] == c;
      OwnMatchExists(f, out, filtered, target, linear, k);
    }
    r := Ok(Zero);
  }

  /** Following the single parents of commits that inherit the result ends at one that does not. */
  lemma {:induction false} OwnMatchExists(f: Filter, out: seq<Oid>, filtered: Oid, target: Oid, linear: bool,
                                          k: nat)
    requires k < |out| && Image(f, out[k]) == filtered
    requires forall c :: c in out <==> Reaches([target], c, Rule(NO_PRUNE, linear))
    ensures exists i :: 0 <= i < |out| && Image(f, out[i]) == filtered && !Inherits(f, out[i], filtered)
    decreases out[k]
  {
    hide Image, Reaches;
    if Inherits(f, out[k], filtered) {
      var p := out[k].parents[0];
      ReachesStep([target], out[k], p, Rule(NO_PRUNE, linear));
      var j :| 0 <= j < |out| && out[j] == p;
      OwnMatchExists(f, out, filtered, target, linear, j);
    }
  }

  // ------------------------------------------------------------------ new branches

  /** The commits of `out` up to `k`, which is `c`, all filter to `image`, and the next does not. */
  ghost predicate EndsRun(f: Filter, out: seq<Oid>, image: Oid, k: nat, c: Oid) {
    && k < |out| && out[k] == c
    && (forall j :: 0 <= j <= k ==> Image(f, out[j]) == image)
    && (k + 1 < |out| ==> Image(f, out[k + 1]) != image)
  }

  lemma WalkBegins(out: seq<Oid>, c: Oid)
    requires Topological(out, false) && forall x :: x in out <==> Reaches([c], x, EVERYTHING)
    ensures out != [] && out[0] == c
  {
    forall x ensures Reaches([c], x, EVERYTHING) <==> Below(c, x) {
      ReachesIsBelow(c, x);
    }
    BelowSelf(c);
    TipFirst(out, c, {});
  }

  /** The loop over the walked commits: it stops where the filtered result first changes. */
  method LastOfRun(f: Filter, out: seq<Oid>) returns (prev: Oid, ghost k: nat)
    requires out != []
    ensures EndsRun(f, out, Image(f, out[0]), k, prev)
  {
    hide Image;
    prev, k := out[0], 0;
    for i := 0 to |out|
      invariant k == (if i == 0 then 0 else i - 1) && prev == out[k]
      invariant forall j :: 0 <= j < i ==> Image(f, out[j]) == Image(f, out[0])
    {
      if Image(f, out[i]) != Image(f, out[0]) {
        return;
      }
      prev, k := out[i], i;
    }
  }

  /** The last commit of the topological walk from `c` before the filtered result first changes. */
  method FindOldestSimilar(odb: Odb, f: Filter, c: Oid) returns (r: Result<Oid>)
    ensures r.Ok? <==> Complete(odb, c)
    ensures r.Ok? ==> Below(c, r.value) && Image(f, r.value) == Image(f, c)
    ensures r.Ok? ==> exists k :: EndsRun(f, TopoOrder([c], EVERYTHING), Image(f, c), k, r.value)
  {
    hide Image, Complete, Distinct, Reaches, Below, Topological, TopoOrder;
    var walk := new RevWalk(odb);
    var ok := walk.Push(c, []);
    if Complete(odb, c) {
      CompleteWalk(odb, c, false);
    }
    if !ok {
      return Err;
    }
    assert [] + [c] == [c];
    var sorted;
    ghost var asked;
    sorted, asked := walk.IntoTopoVec(NO_PRUNE, [c]);
    if sorted.Err? || !Complete(odb, c) {
      return Err;
    }
    WalkBegins(sorted.value, c);
    var last;
    ghost var k;
    last, k := LastOfRun(f, sorted.value);
    assert last in sorted.value;
    ReachesIsBelow(c, last);
    r := Ok(last);
  }

  /** Every remembered original filters to its key. */
  ghost predicate SoundCache(f: Filter, cache: Cache) {
    forall k :: k in cache ==> Image(f, cache[k]) == k && cache[k] != Zero
  }

  /** `rev` is the image of a commit in the history of `target`. */
  ghost predicate IsOld(f: Filter, target: Oid, rev: Oid) {
    rev != Zero && exists a :: Below(target, a) && a != Zero && Image(f, a) == rev
  }

  /** A completed search finds an original whenever there is one. */
  lemma FoundIffOld(f: Filter, target: Oid, rev: Oid)
    requires rev != Zero
    ensures Found(f, target, rev) != Zero <==> IsOld(f, target, rev)
    ensures Found(f, target, rev) != Zero ==>
      Below(target, Found(f, target, rev)) && Image(f, Found(f, target, rev)) == rev
  {
    hide Image, FirstMatch, PreOrder;
    if target != Zero {
      PreOrderFacts(target);
    }
  }

  /** A search keeps the cache sound, finds every original there is, and adds to the cache only
      its own result and the image of the target. */
  lemma SearchKeepsCache(f: Filter, cache: Cache, target: Oid, filtered: Oid)
    requires SoundCache(f, cache) && filtered != Zero
    ensures SoundCache(f, CacheAfter(f, cache, target, filtered))
    ensures forall k :: k in CacheAfter(f, cache, target, filtered) ==>
      k in cache || (IsOld(f, target, k) && (k == filtered || k == Image(f, target)))
    ensures forall k :: k in cache ==> k in CacheAfter(f, cache, target, filtered)
    ensures var b := BaseOf(f, cache, target, filtered);
      (b != Zero <==> filtered in cache || IsOld(f, target, filtered)) && (b != Zero ==> Image(f, b) == filtered)
  {
    hide Image, FirstMatch, PreOrder, Found, Below;
    FoundIffOld(f, target, filtered);
    if target != Zero && Image(f, target) != Zero {
      SelfIsOld(f, target);
    }
  }

  lemma SelfIsOld(f: Filter, target: Oid)
    requires target != Zero && Image(f, target) != Zero
    ensures IsOld(f, target, Image(f, target))
  {
    assert Below(target, target);
  }

  /** Every key is the image of a commit in the history of `target`. */
  ghost predicate OldKeys(f: Filter, cache: Cache, target: Oid) {
    forall k :: k in cache ==> IsOld(f, target, k)
  }

  /** `b` is the first commit that a search from `target` meets and that filters to `rev`. */
  ghost predicate FirstSeen(f: Filter, target: Oid, rev: Oid, b: Oid) {
    exists i :: IsFirst(f, PreOrder([target], false), rev, i, b)
  }

  ghost predicate IsFirst(f: Filter, pre: seq<Oid>, rev: Oid, i: nat, b: Oid) {
    i < |pre| && pre[i] == b && Image(f, b) == rev && forall j :: 0 <= j < i ==> Image(f, pre[j]) != rev
  }

  /** `o` is where the walk from the first commit seen stops filtering to `rev`. */
  ghost predicate OldestSimilar(f: Filter, target: Oid, rev: Oid, o: Oid) {
    exists b, k :: FirstSeen(f, target, rev, b) && EndsRun(f, TopoOrder([b], EVERYTHING), rev, k, o)
  }

  lemma {:induction false} FirstMatchPlace(f: Filter, cs: seq<Oid>, filtered: Oid) returns (i: nat)
    requires FirstMatch(f, cs, filtered) != Zero && filtered != Zero
    ensures IsFirst(f, cs, filtered, i, FirstMatch(f, cs, filtered))
  {
    hide Image;
    ZeroImage(f);
    if Image(f, cs[0]) == filtered {
      i := 0;
    } else {
      i := FirstMatchPlace(f, cs[1..], filtered);
      i := i + 1;
    }
  }

  /** With nothing remembered but the target, a search gives the first commit seen. */
  lemma SearchFirstSeen(f: Filter, cache: Cache, target: Oid, rev: Oid)
    requires forall k :: k in cache ==> k == Image(f, target) && cache[k] == target != Zero
    requires rev != Zero && BaseOf(f, cache, target, rev) != Zero
    ensures target != Zero && FirstSeen(f, target, rev, BaseOf(f, cache, target, rev))
    ensures Below(target, BaseOf(f, cache, target, rev))
  {
    hide Image, FirstMatch, PreOrder, Below;
    if rev in cache {
      TipIsSeenFirst(target);
      BelowSelf(target);
      assert IsFirst(f, PreOrder([target], false), rev, 0, target);
    } else {
      FoundIffOld(f, target, rev);
      var i := FirstMatchPlace(f, PreOrder([target], false), rev);
    }
  }

  lemma TipIsSeenFirst(target: Oid)
    ensures PreOrder([target], false) != [] && PreOrder([target], false)[0] == target
  {
    var first := Visit(target, {}, EVERYTHING);
    assert first.pre[0] == target && [target][0] == target;
    assert Walk([target], {}, EVERYTHING) == Then(first, Walk([target][1..], first.seen, EVERYTHING));
  }

  /** A search that finds nothing remembers the target only. */
  lemma SearchMisses(f: Filter, cache: Cache, target: Oid, rev: Oid)
    requires forall k :: k in cache ==> k == Image(f, target) && cache[k] == target != Zero
    requires BaseOf(f, cache, target, rev) == Zero
    ensures forall k :: k in CacheAfter(f, cache, target, rev) ==>
      k == Image(f, target) && CacheAfter(f, cache, target, rev)[k] == target != Zero
  {
    hide Image, Found;
  }

  /** For a push without a known base: the first commit of the pushed history (children first)
      that has an original below `target`; the oldest similar original is remembered. */
  method FindNewBranchBase(odb: Odb, f: Filter, target: Oid, filtered: Oid)
    returns (r: Result<Oid>, cache: Cache)
    ensures SoundCache(f, cache) && OldKeys(f, cache, target)
    ensures r.Ok? <==> forall c :: Below(filtered, c) ==> Readable(odb, c)
    ensures r.Ok? && r.value != Zero ==> Below(filtered, r.value) && r.value in cache
    ensures r.Ok? && r.value != Zero ==> OldestSimilar(f, target, r.value, cache[r.value])
    ensures forall k :: k in cache ==> k == Image(f, target) || (r.Ok? && k == r.value)
    ensures r.Ok? && r.value != Zero ==>
      exists k :: FirstOld(f, target, TopoOrder([filtered], EVERYTHING), k, r.value)
    ensures r.Ok? && r.value == Zero && Complete(odb, target) ==>
      forall rev :: Below(filtered, rev) ==> !IsOld(f, target, rev)
    ensures filtered in cache ==> r == Ok(filtered)
  {
    hide Image, Complete, Distinct, SoundCache, OldKeys, BaseOf, CacheAfter, IsOld, Below, OldestSimilar;
    cache := map[];
    EmptyCache(f, target);
    var walk := new RevWalk(odb);
    var ok := walk.Push(filtered, []);
    BelowSelf(filtered);
    if !ok {
      return Err, cache;
    }
    assert [] + [filtered] == [filtered];
    var sorted;
    ghost var asked;
    sorted, asked := walk.IntoTopoVec(NO_PRUNE, [filtered]);
    forall c ensures Reaches([filtered], c, EVERYTHING) <==> Below(filtered, c) {
      ReachesIsBelow(filtered, c);
    }
    if sorted.Err? {
      return Err, cache;
    }
    TipFirst(sorted.value, filtered, {});
    var rev;
    rev, cache := FirstWithBase(odb, f, target, sorted.value);
    r := Ok(rev);
  }

  lemma EmptyCache(f: Filter, target: Oid)
    ensures SoundCache(f, map[]) && OldKeys(f, map[], target)
  {
  }

  /** `rev`, at `k`, is the first of `out` that is the image of a commit in the target's history. */
  ghost predicate FirstOld(f: Filter, target: Oid, out: seq<Oid>, k: nat, rev: Oid) {
    k < |out| && out[k] == rev && IsOld(f, target, rev) && forall j :: 0 <= j < k ==> !IsOld(f, target, out[j])
  }

  method FirstWithBase(odb: Odb, f: Filter, target: Oid, out: seq<Oid>) returns (r: Oid, cache: Cache)
    requires forall c :: c in out ==> c.Commit?
    ensures SoundCache(f, cache) && OldKeys(f, cache, target)
    ensures r != Zero ==> r in out && r in cache && OldestSimilar(f, target, r, cache[r])
    ensures forall k :: k in cache ==> k == Image(f, target) || k == r
    ensures r != Zero ==> exists k :: FirstOld(f, target, out, k, r)
    ensures r == Zero && Complete(odb, target) ==> forall rev :: rev in out ==> !IsOld(f, target, rev)
    ensures out != [] && out[0] in cache ==> r == out[0]
  {
    hide Image, Complete, SoundCache, OldKeys, BaseOf, CacheAfter, IsOld, Below, FirstSeen, EndsRun, TopoOrder;
    cache := map[];
    EmptyCache(f, target);
    for i := 0 to |out|
      invariant SoundCache(f, cache) && OldKeys(f, cache, target)
      invariant i == 0 ==> cache == map[]
      invariant forall k :: k in cache ==> k == Image(f, target) && cache[k] == target != Zero
      invariant cache != map[] ==> Complete(odb, target)
      invariant i > 0 && IsOld(f, target, out[0]) ==>
        cache == map[] && !Complete(odb, target) && target != Zero
      invariant Complete(odb, target) ==> forall k :: 0 <= k < i ==> !IsOld(f, target, out[k])
    {
      var rev := out[i];
      assert rev in out;
      ghost var before := cache;
      var base;
      base, cache := FindUnapplyBase(odb, f, cache, target, rev);
      SearchSummary(f, before, target, rev);
      if base == Ok(Zero) {
        SearchMisses(f, before, target, rev);
      }
      if base.Ok? && base.value != Zero {
        var found := base.value;
        SearchFirstSeen(f, before, target, rev);
        CompleteParts(odb, target, found);
        var similar := FindOldestSimilar(odb, f, found);
        var original := if similar.Ok? then similar.value else found;
        assert OldestSimilar(f, target, rev, original);
        CacheOriginal(f, cache, target, rev, found, original);
        cache := cache[rev := original];
        if i > 0 {
          NotOldNotCached(f, cache, target, out[0]);
        }
        assert FirstOld(f, target, out, i, rev);
        return rev, cache;
      }
    }
    if out != [] && !IsOld(f, target, out[0]) {
      NotOldNotCached(f, cache, target, out[0]);
    }
    r := Zero;
  }

  lemma NotOldNotCached(f: Filter, cache: Cache, target: Oid, k: Oid)
    requires OldKeys(f, cache, target) && !IsOld(f, target, k)
    ensures k !in cache
  {
  }

  lemma SearchSummary(f: Filter, cache: Cache, target: Oid, rev: Oid)
    requires SoundCache(f, cache) && OldKeys(f, cache, target) && rev.Commit?
    ensures SoundCache(f, CacheAfter(f, cache, target, rev))
    ensures OldKeys(f, CacheAfter(f, cache, target, rev), target)
    ensures forall k :: k in CacheAfter(f, cache, target, rev) ==>
      k in cache || k == Image(f, target) || (k == rev && IsOld(f, target, rev))
    ensures var b := BaseOf(f, cache, target, rev);
      (b != Zero <==> IsOld(f, target, rev)) && (b != Zero ==> Image(f, b) == rev)
  {
    hide Image, IsOld, BaseOf, CacheAfter;
    SearchKeepsCache(f, cache, target, rev);
  }

  lemma CacheOriginal(f: Filter, cache: Cache, target: Oid, rev: Oid, base: Oid, original: Oid)
    requires SoundCache(f, cache) && OldKeys(f, cache, target) && rev.Commit? && IsOld(f, target, rev)
    requires Image(f, base) == rev && Image(f, original) == Image(f, base)
    ensures SoundCache(f, cache[rev := original]) && OldKeys(f, cache[rev := original], target)
  {
    hide IsOld, Image;
    ZeroImage(f);
  }

  lemma ZeroImage(f: Filter)
    ensures Image(f, Zero) == Zero
  {
  }
}
