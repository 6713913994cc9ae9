/** The cache of filtered commits: the walk that fills it, parents before children, and the loop that
    repeats such walks until a commit can be filtered. */
module Memo {
  import opened Objects
  import opened RevWalks
  import opened Filtering
  import opened Waiting
  import opened Requests

  /** Every remembered result is the right one. */
  ghost predicate Sound(f: Filter, memo: map<Oid, Oid>) {
    forall c :: c in memo ==> memo[c] == Image(f, c)
  }

  /** What is known is ancestor-closed. */
  ghost predicate Closed(memo: map<Oid, Oid>) {
    forall c, p :: c in memo && c.Commit? && p in c.parents ==> p in memo
  }

  lemma LearnedCloses(a: map<Oid, Oid>, b: map<Oid, Oid>)
    requires Learned(a.Keys, b.Keys)
    ensures Closed(a) ==> Closed(b)
  {
  }

  /** Every parent of `out[i]` is known or comes later in `out`. */
  ghost predicate ParentsReady(out: seq<Oid>, known: set<Oid>) {
    forall i, p :: 0 <= i < |out| && out[i].Commit? && p in out[i].parents ==> p in known || p in out[i + 1..]
  }

  lemma LaterAreDone(out: seq<Oid>, i: nat, work: seq<Oid>)
    requires i < |out| && |work| == |out| - 1 - i
    requires forall k :: 0 <= k < |work| ==> work[k] == out[|out| - 1 - k]
    ensures forall p :: p in out[i + 1..] ==> p in work
  {
    forall p | p in out[i + 1..] ensures p in work {
      var j :| 0 <= j < |out[i + 1..]| && out[i + 1..][j] == p;
      assert work[|out| - 1 - (i + 1 + j)] == p;
    }
  }

  /** The list a pruned walk yields is ready to be filtered back to front. */
  lemma WalkIsReady(out: seq<Oid>, input: Oid, known: set<Oid>, w: Rule)
    requires !w.firstParent && forall c :: w.prune(c) <==> c in known
    requires Topological(out, false) && forall c :: c in out <==> Reaches([input], c, w)
    ensures ParentsReady(out, known)
  {
    hide Reaches;
    forall i, p | 0 <= i < |out| && out[i].Commit? && p in out[i].parents
      ensures p in known || p in out[i + 1..]
    {
      if p !in known {
        assert out[i] in out;
        ReachesStep([input], out[i], p, w);
        var j :| 0 <= j < |out| && out[j] == p;
        assert out[i + 1..][j - i - 1] == p;
      }
    }
  }

  lemma WalkedIsBelow(input: Oid, w: Rule)
    ensures forall c :: Reaches([input], c, w) ==> Below(input, c) && !w.prune(c)
  {
    forall c | Reaches([input], c, w) ensures Below(input, c) && !w.prune(c) {
      var path :| IsPath(path, w) && path[0] in [input] && Last(path) == c;
      PathIsBelow(path, w);
    }
  }

  // ------------------------------------------------------------------ walking first parents

  /** `out` goes from `input` from first parent to first parent, down to where the next one is pruned. */
  ghost predicate IsLine(out: seq<Oid>, input: Oid, known: set<Oid>) {
    && out != [] && out[0] == input
    && (forall k :: 0 <= k < |out| - 1 ==> out[k].Commit? && out[k].parents != [] && out[k + 1] == out[k].parents[0])
    && (Last(out).Commit? && Last(out).parents != [] ==> Last(out).parents[0] in known)
  }

  lemma WalkPruned(ps: seq<Oid>, seen: set<Oid>, w: Rule)
    requires |ps| <= 1 && forall p :: p in ps ==> w.prune(p)
    ensures Walk(ps, seen, w).post == []
  {
    if ps == [] {
    } else {
      assert ps[0] in ps && ps[1..] == [];
      assert Visit(ps[0], seen, w).post == [];
    }
  }

  lemma WalkSingle(c: Oid, w: Rule)
    ensures Walk([c], {}, w).post == Visit(c, {}, w).post
  {
    hide Visit;
    assert [c][1..] == [];
  }

  /** A commit without an unknown first parent is walked alone. */
  lemma WalkOfOne(input: Oid, known: set<Oid>, w: Rule)
    requires w.firstParent && (forall c :: w.prune(c) <==> c in known) && input !in known
    requires input.Commit? && input.parents != [] ==> input.parents[0] in known
    ensures TopoOrder([input], w) == [input]
  {
    hide Walk;
    var ps := Follow(input, true);
    WalkPruned(ps, {} + {input}, w);
    assert Visit(input, {}, w).post == [input];
    WalkSingle(input, w);
    assert Reverse([input]) == [input];
  }

  lemma {:induction false} WalkIsLine(input: Oid, known: set<Oid>, w: Rule)
    requires w.firstParent && (forall c :: w.prune(c) <==> c in known) && input !in known
    ensures IsLine(TopoOrder([input], w), input, known)
    decreases input
  {
    if input.Commit? && input.parents != [] && input.parents[0] !in known {
      TipThenParents(input, w);
      var p := input.parents[0];
      WalkIsLine(p, known, w);
      var out, rest := TopoOrder([input], w), TopoOrder([p], w);
      assert out == [input] + rest;
      assert Last(out) == Last(rest);
    } else {
      WalkOfOne(input, known, w);
    }
  }

  /** The end of a line that has been filtered up to `i`. */
  lemma {:induction false} BottomOfLine(out: seq<Oid>, input: Oid, before: set<Oid>, known: set<Oid>, i: nat)
    requires IsLine(out, input, before) && before <= known && i < |out|
    requires (forall k :: 0 <= k <= i ==> out[k] !in known) && forall k :: i < k < |out| ==> out[k] in known
    ensures Bottom(input, known) == out[i]
    decreases |out|
  {
    if i == 0 {
      if |out| > 1 {
        assert out[1] == input.parents[0];
      }
    } else {
      assert out[1] == input.parents[0];
      var rest := out[1..];
      assert Last(rest) == Last(out) && forall k :: 0 <= k < |rest| ==> rest[k] == out[k + 1];
      BottomOfLine(rest, out[1], before, known, i - 1);
    }
  }

  lemma {:induction false} LineIsFirstLine(x: Oid, y: Oid, known: set<Oid>, prune: Oid -> bool)
    requires forall c :: prune(c) <==> c in known
    ensures OnLine(x, y, known) <==> OnFirstLine(x, y, prune)
    decreases x
  {
    if x !in known && y != x && x.Commit? && x.parents != [] {
      LineIsFirstLine(x.parents[0], y, known, prune);
    }
  }

  /** What a walk along first parents comes to is the line. */
  lemma WalkedIsOnLine(input: Oid, known: set<Oid>, w: Rule)
    requires w.firstParent && forall c :: w.prune(c) <==> c in known
    ensures forall c :: Reaches([input], c, w) <==> OnLine(input, c, known)
  {
    hide Reaches, OnLine, OnFirstLine;
    assert w == Rule(w.prune, true);
    forall c ensures Reaches([input], c, w) <==> OnLine(input, c, known) {
      FirstParentYield([input], w.prune, c);
      LineIsFirstLine(input, c, known, w.prune);
      if OnFirstLine(input, c, w.prune) {
        assert input in [input];
      }
    }
  }

  // ------------------------------------------------------------------ what a walk leaves

  lemma LearnedKeeps(a: set<Oid>, b: set<Oid>)
    requires Learned(a, b)
    ensures a <= b
  {
  }

  lemma LessUnknown(all: set<Oid>, before: set<Oid>, after: set<Oid>)
    requires Learned(before, after) && after <= before + all
    ensures after == before || all - after < all - before
  {
    if after != before {
      var x :| x in after && x !in before;
      assert x in all - before && x !in all - after;
    }
  }

  lemma InScope(all: set<Oid>, x: Oid, work: seq<Oid>)
    requires Whole(all) && x in all && forall y :: y in work ==> Below(x, y)
    ensures ToSet(work) <= all
  {
  }

  lemma UnreadableIn(odb: Odb, all: set<Oid>, x: Oid, known: set<Oid>)
    requires Whole(all) && x in all && exists y :: Below(x, y) && y !in known && !Readable(odb, y)
    ensures exists y :: y in all && y !in known && !Readable(odb, y)
  {
    hide Below, Readable;
  }

  lemma DistinctNone()
    ensures Distinct<Oid>([])
  {
  }

  lemma TopologicalDistinct(out: seq<Oid>, firstParent: bool)
    requires Topological(out, firstParent)
    ensures Distinct(out)
  {
  }

  lemma FilledFrom(out: seq<Oid>, work: seq<Oid>)
    requires Distinct(out) && |work| <= |out| && forall k :: 0 <= k < |work| ==> work[k] == out[|out| - 1 - k]
    ensures Distinct(work) && forall c :: c in work ==> c in out
  {
  }

  lemma AllFilled(out: seq<Oid>, work: seq<Oid>, input: Oid)
    requires |work| == |out| && (forall k :: 0 <= k < |work| ==> work[k] == out[|out| - 1 - k]) && input in out
    ensures input in work
  {
    var i :| 0 <= i < |out| && out[i] == input;
    assert work[|out| - 1 - i] == input;
  }

  /** A line that is filtered from its end is known up to its start, or up to a commit that waits. */
  lemma LineFilled(out: seq<Oid>, input: Oid, start: set<Oid>, known: set<Oid>, work: seq<Oid>)
    requires IsLine(out, input, start) && known == start + ToSet(work) && Distinct(out)
    requires |work| <= |out| && forall k :: 0 <= k < |work| ==> work[k] == out[|out| - 1 - k]
    requires forall c :: c in out ==> c !in start
    ensures |work| == |out| <==> input in known
    ensures |work| < |out| ==> Bottom(input, known) == out[|out| - 1 - |work|]
  {
    hide Bottom;
    if |work| == |out| {
      AllFilled(out, work, input);
    } else {
      var i := |out| - 1 - |work|;
      forall k | 0 <= k <= i ensures out[k] !in known {
        assert out[k] in out;
      }
      forall k | i < k < |out| ensures out[k] in known {
        assert work[|out| - 1 - k] == out[k];
      }
      BottomOfLine(out, input, start, known, i);
    }
  }

  lemma NoneToWaitFor(out: seq<Oid>, known: set<Oid>, i: nat, work: seq<Oid>)
    requires ParentsReady(out, known) && i < |out| && out[i].Commit? && |work| == |out| - 1 - i
    requires forall k :: 0 <= k < |work| ==> work[k] == out[|out| - 1 - k]
    ensures !Waits(out[i], known + ToSet(work))
  {
    LaterAreDone(out, i, work);
    WaitsForUnknown(out[i], known + ToSet(work));
  }

  lemma NotDoneTwice(out: seq<Oid>, i: nat, work: seq<Oid>)
    requires Distinct(out) && i < |out| && |work| == |out| - 1 - i
    requires forall k :: 0 <= k < |work| ==> work[k] == out[|out| - 1 - k]
    ensures out[i] !in work
  {
  }

  // ------------------------------------------------------------------ the cache

  class FilterCache {
    const odb: Odb
    const f: Filter
    var memo: map<Oid, Oid>
    /** The commits that were asked for and not known, and the nesting level of new requests. */
    var missing: Requested
    var nesting: nat

    constructor (odb: Odb, f: Filter, memo: map<Oid, Oid>)
      requires Sound(f, memo)
      ensures this.odb == odb && this.f == f && this.memo == memo && missing == map[] && nesting == 0
    {
      this.odb, this.f, this.memo := odb, f, memo;
      missing, nesting := map[], 0;
    }

    method Get(c: Oid) returns (r: Option<Oid>)
      modifies this`missing
      ensures r == if c in memo then Some(memo[c]) else None
      ensures missing == if c in memo then old(missing) else Noted(old(missing), c, nesting)
    {
      if c in memo {
        return Some(memo[c]);
      }
      missing := Noted(missing, c, nesting);
      r := None;
    }

    /** Filter one commit from the remembered results of its parents. Without a result for a parent there
        is none, and the first such parent is requested. */
    method ApplyToCommit2(c: Oid) returns (r: Result<Option<Oid>>)
      requires Sound(f, memo)
      modifies this`memo, this`missing
      ensures Sound(f, memo) && Learned(old(memo.Keys), memo.Keys)
      ensures r.Err? <==> c !in old(memo) && !Readable(odb, c)
      ensures r.Err? ==> memo == old(memo) && missing == Noted(old(missing), c, nesting)
      ensures r.Ok? && r.value.Some? ==> r.value.value == Image(f, c) && memo.Keys == old(memo.Keys) + {c}
      ensures r.Ok? && r.value.Some? ==> SamePending(old(missing), missing, memo.Keys)
      ensures r == Ok(None) <==> c !in old(memo) && Readable(odb, c) && Waits(c, old(memo.Keys))
      ensures r == Ok(None) ==>
        memo == old(memo) && missing == Noted(Noted(old(missing), c, nesting), Blocker(c, memo.Keys), nesting)
    {
      hide FilterCommit;
      var known := Get(c);
      if known.Some? {
        return Ok(known);
      }
      if !(c in odb && c.Commit?) {
        return Err;
      }
      var images: seq<Oid> := [];
      for i := 0 to |c.parents|
        invariant |images| == i && memo == old(memo) && missing == Noted(old(missing), c, nesting)
        invariant forall k :: 0 <= k < i ==> c.parents[k] in memo && images[k] == Image(f, c.parents[k])
      {
        var image := Get(c.parents[i]);
        if image.None? {
          assert FirstUnknown(c.parents, memo.Keys) == i;
          return Ok(None);
        }
        images := images + [image.value];
      }
      assert images == Images(f, c.parents);
      assert !Waits(c, memo.Keys);
      var oid, isNew := CreateFilteredCommit(c, images, f.apply(c.tree), f.options);
      memo := memo[c := oid];
      r := Ok(Some(oid));
    }

    /** Filter the commits of `out` back to front, until one has to wait for a parent. */
    method FillMemo(out: seq<Oid>) returns (work: seq<Oid>)
      requires Sound(f, memo) && Distinct(out) && forall c :: c in out ==> c !in memo && Readable(odb, c)
      modifies this`memo, this`missing
      ensures Sound(f, memo) && Learned(old(memo.Keys), memo.Keys) && memo.Keys == old(memo.Keys) + ToSet(work)
      ensures |work| <= |out| && forall k :: 0 <= k < |work| ==> work[k] == out[|out| - 1 - k]
      ensures |work| == |out| ==> SamePending(old(missing), missing, memo.Keys)
      ensures |work| < |out| ==>
        var m := out[|out| - 1 - |work|];
        && m !in memo && Waits(m, memo.Keys)
        && SamePending(Noted(Noted(old(missing), m, nesting), Blocker(m, memo.Keys), nesting), missing, memo.Keys)
      ensures ParentsReady(out, old(memo.Keys)) ==> |work| == |out|
    {
      hide Image, Waits, Blocker, SamePending, Learned, Sound, ParentsReady, Distinct, Noted;
      work := [];
      ghost var start := memo.Keys;
      SamePendingSelf(missing, start);
      LearnedNothing(start);
      for i := |out| downto 0
        invariant Sound(f, memo) && Learned(start, memo.Keys) && memo.Keys == start + ToSet(work)
        invariant |work| == |out| - i && forall k :: 0 <= k < |work| ==> work[k] == out[|out| - 1 - k]
        invariant SamePending(old(missing), missing, memo.Keys)
      {
        var c := out[i];
        assert c in out && c !in memo by { NotDoneTwice(out, i, work); }
        ghost var before, asked := memo.Keys, missing;
        var r := ApplyToCommit2(c);
        if r == Ok(None) {
          SamePendingNoted(old(missing), asked, before, c, Blocker(c, before), nesting);
          if ParentsReady(out, start) {
            NoneToWaitFor(out, start, i, work);
          }
          return;
        }
        SamePendingThen(old(missing), asked, missing, before, memo.Keys);
        assert ToSet(work + [c]) == ToSet(work) + {c};
        LearnedThen(start, before, memo.Keys);
        work := work + [c];
      }
    }

    /** The unknown commits to filter for `input`, children before parents: all that are below it on
        unknown paths, or for linear history its line of unknown first parents. */
    method ListUnknown(input: Oid) returns (r: Result<seq<Oid>>)
      requires input !in memo
      ensures r.Ok? ==> Distinct(r.value) && input in r.value
      ensures r.Ok? ==> forall c :: c in r.value ==> c !in memo && Readable(odb, c) && Below(input, c)
      ensures r.Ok? && !f.options.linear ==> ParentsReady(r.value, memo.Keys)
      ensures r.Ok? && f.options.linear ==> IsLine(r.value, input, memo.Keys)
      ensures f.options.linear ==>
        if r.Ok? then forall c :: c in r.value ==> OnLine(input, c, memo.Keys)
        else exists c :: OnLine(input, c, memo.Keys) && !Readable(odb, c)
      ensures r.Err? ==> exists c :: Below(input, c) && c !in memo && !Readable(odb, c)
    {
      hide Reaches, Below, Topological, ParentsReady, Distinct, TopoOrder, IsLine;
      BelowSelf(input);
      var walk := new RevWalk(odb);
      if f.options.linear {
        walk.SimplifyFirstParent([]);
      }
      var ok := walk.Push(input, []);
      if !ok {
        return Err;
      }
      assert [] + [input] == [input];
      var known := memo;
      var prune := (c: Oid) => c in known;
      ghost var w := Rule(prune, walk.firstParent);
      ghost var asked;
      r, asked := walk.IntoTopoVec(prune, [input]);
      WalkedIsBelow(input, w);
      if f.options.linear {
        WalkedIsOnLine(input, memo.Keys, w);
      }
      if r.Err? {
        return;
      }
      ReachesTip([input], input, w);
      TopologicalDistinct(r.value, w.firstParent);
      if f.options.linear {
        WalkIsLine(input, memo.Keys, w);
      } else {
        WalkIsReady(r.value, input, memo.Keys, w);
      }
    }

    /** Filter `input` and what it waits for, as far as a walk that follows the filter's parents comes.
        With all parents that is all the way; along first parents the walk can get stuck at a merge,
        which is then requested together with the first parent it waits for. `work` lists the commits
        that were filtered, in order. */
    method Walk2(input: Oid) returns (r: Result<seq<Oid>>)
      requires Sound(f, memo)
      modifies this`memo, this`missing
      ensures Sound(f, memo) && Learned(old(memo.Keys), memo.Keys) && (Closed(old(memo)) ==> Closed(memo))
      ensures r.Ok? ==> memo.Keys == old(memo.Keys) + ToSet(r.value) && Distinct(r.value)
      ensures r.Ok? ==> forall c :: c in r.value ==> c !in old(memo) && Readable(odb, c) && Below(input, c)
      ensures r.Ok? && !f.options.linear ==> input in memo
      ensures r.Ok? && input in memo ==> SamePending(old(missing), missing, memo.Keys)
      ensures r.Ok? && input !in memo ==>
        && Waits(Bottom(input, memo.Keys), memo.Keys)
        && SamePending(Stuck(old(missing), input, nesting, memo.Keys), missing, memo.Keys)
      ensures r.Err? ==> memo == old(memo) && missing == old(missing)
      ensures r.Err? ==> exists c :: Below(input, c) && c !in memo && !Readable(odb, c)
      ensures f.options.linear ==>
        if r.Ok? then forall c :: c in r.value ==> OnLine(input, c, old(memo.Keys))
        else exists c :: OnLine(input, c, memo.Keys) && !Readable(odb, c)
    {
      hide Image, Below, OnLine, ParentsReady, SamePending, Learned, Sound, Distinct, Waits, Blocker, Bottom, Noted,
        IsLine, Closed;
      ghost var start, asked := memo.Keys, missing;
      SamePendingSelf(missing, start);
      LearnedNothing(start);
      if input in memo {
        DistinctNone();
        return Ok([]);
      }
      var sorted := ListUnknown(input);
      if sorted.Err? {
        return Err;
      }
      var out := sorted.value;
      assert forall c :: c in out ==> c !in memo && Readable(odb, c);
      var work := FillMemo(out);
      LearnedCloses(old(memo), memo);
      r := Ok(work);
      FilledFrom(out, work);
      if !f.options.linear {
        AllFilled(out, work, input);
      } else {
        LineFilled(out, input, start, memo.Keys, work);
      }
    }

    /** Everything requested and not known is in `all`. */
    ghost predicate Within(all: set<Oid>)
      reads this`memo, this`missing
    {
      forall x :: Pending(x, missing, memo.Keys) ==> x in all
    }

    ghost predicate Idle()
      reads this`memo, this`missing
    {
      missing.Keys <= memo.Keys
    }

    /** For linear history all requests are on the way from `c` to what it waits for. */
    ghost predicate Ready(c: Oid)
      reads this
    {
      f.options.linear ==> Queue(c, memo.Keys, missing) && Capped(memo.Keys, missing, nesting)
    }

    lemma IdleIsReady(c: Oid)
      requires Idle()
      ensures Ready(c)
    {
      QueueIdle(c, memo.Keys, missing, nesting);
    }

    /** For linear history the requests are in order while those of `level` are worked on. */
    ghost predicate InBatch(c: Oid, level: nat)
      reads this`memo, this`missing
    {
      f.options.linear ==> InOrder(c, memo.Keys, missing, level)
    }

    /** Forget what is known by now, and return the requests of the highest level. */
    method GetMissing() returns (level: nat, batch: set<Oid>)
      requires exists x :: Pending(x, missing, memo.Keys)
      modifies this`missing
      ensures SamePending(old(missing), missing, memo.Keys) && missing.Keys !! memo.Keys
      ensures batch != {} && forall x :: x in batch <==> RequestedAt(x, level, missing, memo.Keys)
      ensures Capped(memo.Keys, missing, level)
    {
      ghost var x :| Pending(x, missing, memo.Keys);
      missing := map e | e in missing && e !in memo :: missing[e];
      assert x in missing.Keys;
      level, batch := 0, {};
      var rest := missing.Keys;
      while rest != {}
        invariant rest <= missing.Keys
        invariant forall e :: e in batch <==> e in missing.Keys && e !in rest && missing[e] == level
        invariant forall e :: e in missing.Keys && e !in rest ==> missing[e] <= level
        invariant if rest == missing.Keys then level == 0 else batch != {}
        decreases rest
      {
        var e :| e in rest;
        rest := rest - {e};
        if missing[e] > level {
          level, batch := missing[e], {e};
        } else if missing[e] == level {
          batch := batch + {e};
        }
      }
    }

    /** Ask for `c`; if there is no result yet, it is requested now, together with what it waits for. */
    method Ask(c: Oid, ghost all: set<Oid>) returns (r: Result<Option<Oid>>)
      requires Sound(f, memo) && Whole(all) && Within(all) && c in all && Ready(c)
      modifies this`memo, this`missing
      ensures Sound(f, memo) && Learned(old(memo.Keys), memo.Keys)
      ensures r.Err? ==> memo == old(memo) && c !in memo && !Readable(odb, c) && Ready(c)
      ensures r.Ok? && r.value.Some? ==>
        r.value.value == Image(f, c) && memo.Keys == old(memo.Keys) + {c} && Ready(c) && (f.options.linear ==> Idle())
      ensures r == Ok(None) ==>
        && memo == old(memo) && Within(all) && Pending(c, missing, memo.Keys)
        && (forall e :: Pending(e, old(missing), memo.Keys) ==> Pending(e, missing, memo.Keys))
        && (f.options.linear ==> Queue(c, memo.Keys, missing) && Started(c, memo.Keys, missing))
    {
      hide Sound, Learned, Whole, Image, SamePending, Waits, Readable, Queue, Capped, Started, Blocker, Noted;
      ghost var before, asked := memo.Keys, missing;
      r := ApplyToCommit2(c);
      if r == Ok(None) {
        AskedFor(c, all, before, asked, nesting);
      }
      if f.options.linear {
        if r.Err? {
          QueueNoted(c, before, asked, nesting);
        } else if r.value.Some? {
          QueueDone(c, before, memo.Keys, asked, missing);
          IdleIsReady(c);
        } else {
          QueueAsked(c, before, asked, nesting);
        }
      }
    }

    /** Walk every request of a level. */
    method WalkAll(level: nat, batch: set<Oid>, ghost c: Oid, ghost all: set<Oid>) returns (ok: bool)
      requires Sound(f, memo) && Whole(all) && Within(all) && InBatch(c, level)
      requires forall x :: x in batch ==> RequestedAt(x, level, missing, memo.Keys)
      modifies this
      ensures Sound(f, memo) && Learned(old(memo.Keys), memo.Keys) && memo.Keys <= old(memo.Keys) + all
      ensures Within(all) && InBatch(c, level)
      ensures batch != {} ==> nesting == level + 1
      ensures ok && !f.options.linear && batch != {} ==> memo.Keys != old(memo.Keys)
      ensures ok && f.options.linear ==> GotDeeper(batch, old(memo.Keys), missing, memo.Keys)
      ensures !ok ==> exists x :: x in all && x !in memo && !Readable(odb, x)
    {
      hide Sound, Learned, InOrder, Whole, Image, SamePending, Waits, Bottom, Stuck, Depth, Below, Readable, GotDeeper;
      ghost var start, done := memo.Keys, {};
      var rest := batch;
      DeeperNone(start, missing);
      ok := true;
      LearnedNothing(start);
      while rest != {}
        invariant rest + done == batch && Sound(f, memo) && Learned(start, memo.Keys) && memo.Keys <= start + all
        invariant Within(all) && InBatch(c, level) && (done != {} ==> nesting == level + 1)
        invariant forall x :: x in rest ==> x in memo || RequestedAt(x, level, missing, memo.Keys)
        invariant rest <= all
        invariant !f.options.linear && done != {} ==> memo.Keys != start
        invariant f.options.linear ==> GotDeeper(done, start, missing, memo.Keys)
        decreases rest
      {
        var x :| x in rest;
        rest := rest - {x};
        nesting := level + 1;
        ghost var before, asked := memo.Keys, missing;
        var walked := Walk2(x);
        if walked.Err? {
          UnreadableIn(odb, all, x, memo.Keys);
          return false;
        }
        LearnedThen(start, before, memo.Keys);
        InScope(all, x, walked.value);
        LearnedKeeps(before, memo.Keys);
        WalkedRequests(all, before, memo.Keys, asked, missing, level, x);
        if f.options.linear {
          InOrderWalked(c, before, memo.Keys, asked, missing, level, x);
          LearnedKeeps(start, before);
          DeeperStays(done, start, before, memo.Keys, asked, missing, x);
        }
        done := done + {x};
      }
      assert done == batch;
    }

    /** Walk the requests that came up last. If none of the walks comes to anything, something deeper is
        requested than before. */
    method WalkMissing(ghost c: Oid, ghost all: set<Oid>, ghost asked: Requested, ghost low: nat)
      returns (ok: bool, ghost lower: nat)
      requires Sound(f, memo) && Whole(all) && Within(all) && Pending(c, missing, memo.Keys)
      requires f.options.linear ==> Queue(c, memo.Keys, missing) && Started(c, memo.Keys, missing)
      requires IsLow(low, c, memo.Keys, asked)
      requires forall e :: Pending(e, asked, memo.Keys) ==> Pending(e, missing, memo.Keys)
      modifies this
      ensures Sound(f, memo) && Learned(old(memo.Keys), memo.Keys) && memo.Keys <= old(memo.Keys) + all && Within(all)
      ensures Ready(c)
      ensures ok ==> IsLow(lower, c, memo.Keys, missing) && (memo.Keys == old(memo.Keys) ==> lower < low)
      ensures !ok ==> exists x :: x in all && x !in memo && !Readable(odb, x)
    {
      hide Sound, Learned, InOrder, Whole, SamePending, Readable, Queue, Capped, IsLow, GotDeeper, RequestedAt, Started;
      ghost var before, noted := memo.Keys, missing;
      var level, batch := GetMissing();
      PendingSame(before, noted, missing);
      if f.options.linear {
        HighestInOrder(c, before, noted, missing, level);
      }
      ghost var queued := missing;
      ok := WalkAll(level, batch, c, all);
      if f.options.linear {
        InOrderMeans(c, memo.Keys, missing, level);
      }
      if ok {
        lower := LowFor(c, memo.Keys, missing);
        if memo.Keys == before {
          LowerNow(c, before, asked, queued, missing, level, batch, low, lower);
        }
      } else {
        lower := low;
      }
    }

    /** Filter `c`: as long as something it needs is not known, walk the requests that came up last. */
    method ApplyToCommit(c: Oid) returns (r: Result<Oid>)
      requires Sound(f, memo) && Ready(c)
      modifies this
      ensures Sound(f, memo) && Learned(old(memo.Keys), memo.Keys) && (Closed(old(memo)) ==> Closed(memo))
      ensures memo.Keys <= old(memo.Keys) + Scope(old(missing.Keys) + {c})
      ensures r.Ok? ==> r.value == Image(f, c) && c in memo && (f.options.linear ==> Idle())
      ensures Ready(c)
      ensures r.Err? ==> exists x :: x in Scope(old(missing.Keys) + {c}) && x !in memo && !Readable(odb, x)
    {
      hide Sound, Learned, InOrder, Whole, Scope, Image, SamePending, Waits, Depth, Below, Readable, Queue, Capped,
        IsLow, Started, Blocker, Noted, Closed;
      ghost var start, all := memo.Keys, Scope(missing.Keys + {c});
      LearnedNothing(start);
      ScopeIsWhole(missing.Keys + {c});
      ghost var low := LowFor(c, memo.Keys, missing);
      while true
        invariant Sound(f, memo) && Learned(start, memo.Keys) && memo.Keys <= start + all && Within(all)
        invariant Ready(c)
        invariant IsLow(low, c, memo.Keys, missing)
        decreases all - memo.Keys, low
      {
        ghost var before, asked := memo.Keys, missing;
        var filtered := Ask(c, all);
        LearnedThen(start, before, memo.Keys);
        if filtered.Err? {
          LearnedCloses(old(memo), memo);
          return Err;
        }
        if filtered.value.Some? {
          LearnedCloses(old(memo), memo);
          return Ok(filtered.value.value);
        }
        var ok;
        ok, low := WalkMissing(c, all, asked, low);
        LearnedThen(start, before, memo.Keys);
        LessUnknown(all, before, memo.Keys);
        if !ok {
          LearnedCloses(old(memo), memo);
          return Err;
        }
      }
    }
  }
}
