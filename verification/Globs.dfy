/** Glob patterns by path component, and the states of the walk that matches them. */
module Globs {
  import opened Objects

  /** A separator, a `**`, or anything else that matches within a component. */
  datatype Token = Separator | Recursive | Other(text: string)

  // ------------------------------------------------------------------ components

  /** Append a token to the last component, or open a new one. */
  function Append(parts: seq<seq<Token>>, t: Token): seq<seq<Token>>
    requires parts != []
  {
    match t
    case Separator => parts + [[]]
    case Recursive => Init(parts) + [Last(parts) + [t], []]
    case Other(_) => Init(parts) + [Last(parts) + [t]]
  }

  function Components(tokens: seq<Token>): (parts: seq<seq<Token>>)
    ensures parts != []
  {
    if tokens == [] then [[]] else Append(Components(Init(tokens)), Last(tokens))
  }

  /** The component opened behind a trailing `**` is dropped. */
  function Trim(parts: seq<seq<Token>>): (r: seq<seq<Token>>)
    requires parts != []
    ensures r != []
  {
    if |parts| >= 2 && Last(parts) == [] && Last(Init(parts)) == [Recursive] then Init(parts) else parts
  }

  /** Components are joined by separators; a `**` has taken the one behind it along. */
  function Rejoin(parts: seq<seq<Token>>): seq<Token> {
    if |parts| <= 1 then (if parts == [] then [] else parts[0])
    else
      var before := Init(parts);
      Rejoin(before) + (if Last(before) == [Recursive] then [] else [Separator]) + Last(parts)
  }

  /** How many `**` do not start their component. */
  function Misplaced(tokens: seq<Token>): nat {
    if tokens == [] then 0
    else
      var before := Components(Init(tokens));
      Misplaced(Init(tokens)) + (if Last(tokens) == Recursive && Last(before) != [] then 1 else 0)
  }

  lemma {:induction false} RejoinLast(parts: seq<seq<Token>>, t: Token)
    requires parts != []
    ensures Rejoin(Init(parts) + [Last(parts) + [t]]) == Rejoin(parts) + [t]
  {
    var more := Init(parts) + [Last(parts) + [t]];
    assert Init(more) == Init(parts) && Last(more) == Last(parts) + [t];
    if |parts| > 1 {
      var before := Init(parts);
      var x := Rejoin(before) + (if Last(before) == [Recursive] then [] else [Separator]);
      assert x + (Last(parts) + [t]) == (x + Last(parts)) + [t];
    }
  }

  lemma {:induction false} RejoinNew(parts: seq<seq<Token>>)
    requires parts != []
    ensures Rejoin(parts + [[]]) == Rejoin(parts) + if Last(parts) == [Recursive] then [] else [Separator]
  {
    assert Init(parts + [[]]) == parts && Last(parts + [[]]) == [];
  }

  /** A `**` closes its component. */
  lemma {:induction false} LastIsOpen(tokens: seq<Token>)
    ensures Last(Components(tokens)) != [Recursive]
  {
    if tokens != [] {
      var parts, t := Components(Init(tokens)), Last(tokens);
      if t.Other? {
        assert Last(Append(parts, t)) == Last(parts) + [t];
        assert (Last(parts) + [t])[|Last(parts)|] == t;
      }
    }
  }

  /** Joining the components makes up for all tokens, with one separator too many for each misplaced
      `**`. */
  lemma {:induction false} RejoinLength(tokens: seq<Token>)
    ensures |Rejoin(Components(tokens))| == |tokens| + Misplaced(tokens)
    ensures Misplaced(tokens) == 0 ==> Rejoin(Components(tokens)) == tokens
  {
    hide Rejoin;
    if tokens == [] {
      RejoinEmpty();
    } else {
      var parts, t := Components(Init(tokens)), Last(tokens);
      RejoinLength(Init(tokens));
      assert tokens == Init(tokens) + [t];
      LastIsOpen(Init(tokens));
      if t == Separator {
        RejoinNew(parts);
      } else {
        RejoinLast(parts, t);
        if t == Recursive {
          var more := Init(parts) + [Last(parts) + [t]];
          assert Append(parts, t) == more + [[]];
          RejoinNew(more);
          assert Last(more) == [Recursive] <==> Last(parts) == [];
        }
      }
    }
  }

  lemma RejoinEmpty()
    ensures Rejoin([[]]) == []
  {
  }

  lemma {:induction false} TrimRejoins(parts: seq<seq<Token>>)
    requires parts != []
    ensures Rejoin(Trim(parts)) == Rejoin(parts)
  {
    if Trim(parts) != parts {
      assert parts == Init(parts) + [[]];
      RejoinNew(Init(parts));
    }
  }

  /** No component holds a separator, and none has anything behind a `**`. */
  ghost predicate Split(parts: seq<seq<Token>>) {
    forall i, k :: 0 <= i < |parts| && 0 <= k < |parts[i]| ==>
      parts[i][k] != Separator && (parts[i][k] == Recursive ==> k == |parts[i]| - 1)
  }

  lemma {:induction false} ComponentsAreSplit(tokens: seq<Token>)
    ensures Split(Components(tokens)) && Recursive !in Last(Components(tokens))
  {
    if tokens == [] {
    } else {
      var parts, t := Components(Init(tokens)), Last(tokens);
      ComponentsAreSplit(Init(tokens));
      var more := Components(tokens);
      forall i, k | 0 <= i < |more| && 0 <= k < |more[i]|
        ensures more[i][k] != Separator && (more[i][k] == Recursive ==> k == |more[i]| - 1)
      {
        if i < |parts| - 1 {
          assert more[i] == parts[i];
        } else if i == |parts| - 1 && k < |parts[i]| {
          assert more[i][k] == parts[i][k] && parts[i][k] in Last(parts);
        }
      }
    }
  }

  /** The components that are handed on are split like that, too. */
  lemma TrimmedAreSplit(tokens: seq<Token>)
    ensures Split(Trim(Components(tokens)))
  {
    ComponentsAreSplit(tokens);
  }

  /** Every `**` stands at the start, or behind a separator or another `**`. */
  ghost predicate WellPlaced(tokens: seq<Token>) {
    forall i :: 0 <= i < |tokens| && tokens[i] == Recursive ==> i == 0 || !tokens[i - 1].Other?
  }

  lemma {:induction false} LastComponent(tokens: seq<Token>)
    ensures Last(Components(tokens)) == [] <==> tokens == [] || !Last(tokens).Other?
  {
    if tokens == [] {
    } else {
      LastComponent(Init(tokens));
    }
  }

  lemma {:induction false} MisplacedMeans(tokens: seq<Token>)
    ensures Misplaced(tokens) == 0 <==> WellPlaced(tokens)
  {
    if tokens == [] {
    } else {
      var before := Init(tokens);
      MisplacedMeans(before);
      LastComponent(before);
      assert forall i :: 0 <= i < |before| ==> before[i] == tokens[i];
      assert before != [] ==> Last(before) == tokens[|tokens| - 2];
    }
  }

  /** The components make up the pattern exactly when every `**` starts its component. */
  lemma SplitRejoins(tokens: seq<Token>)
    ensures Rejoin(Trim(Components(tokens))) == tokens <==> WellPlaced(tokens)
  {
    RejoinLength(tokens);
    TrimRejoins(Components(tokens));
    MisplacedMeans(tokens);
  }

  method SplitComponents(tokens: seq<Token>) returns (parts: seq<seq<Token>>)
    ensures parts == Trim(Components(tokens)) && Split(parts)
    ensures Rejoin(parts) == tokens <==> WellPlaced(tokens)
  {
    hide Split, WellPlaced, Rejoin;
    TrimmedAreSplit(tokens);
    SplitRejoins(tokens);
    parts := [[]];
    for i := 0 to |tokens|
      invariant parts != [] && parts == Components(tokens[..i])
    {
      assert Init(tokens[..i + 1]) == tokens[..i];
      var last := Last(parts);
      match tokens[i] {
        case Separator =>
          parts := parts + [[]];
        case Recursive =>
          parts := Init(parts) + [last + [Recursive]];
          parts := parts + [[]];
          assert parts == Append(Components(tokens[..i]), Recursive);
        case Other(_) =>
          parts := Init(parts) + [last + [tokens[i]]];
      }
    }
    assert tokens[..|tokens|] == tokens;
    if |parts| >= 2 && Last(parts) == [] && Last(Init(parts)) == [Recursive] {
      parts := Init(parts);
    }
  }

  // ------------------------------------------------------------------ matching

  /** A `**`, or a pattern for a single name. */
  datatype Component = Star2 | Name(matches: string -> bool)

  predicate LeadingDot(name: string) {
    name != "" && name[0] == '.'
  }

  /** The components from `p` on match exactly these names. */
  predicate Accepts(cs: seq<Component>, p: nat, names: seq<string>)
    requires p <= |cs|
    decreases |cs| - p, |names|
  {
    if p == |cs| then names == []
    else if cs[p].Star2? then
      Accepts(cs, p + 1, names) || (names != [] && !LeadingDot(names[0]) && Accepts(cs, p, names[1..]))
    else names != [] && cs[p].matches(names[0]) && Accepts(cs, p + 1, names[1..])
  }

  /** What some active position matches. A mask is the set of its bits. */
  ghost predicate Denotes(cs: seq<Component>, mask: set<nat>, names: seq<string>) {
    exists p :: p in mask && p < |cs| && Accepts(cs, p, names)
  }

  /** A `**` that may match nothing passes on to the next position. */
  ghost predicate PassesOn(cs: seq<Component>, mask: set<nat>) {
    forall p, q :: p in mask && Passes(cs, p, q) ==> q in mask
  }

  predicate Passes(cs: seq<Component>, p: nat, q: nat) {
    q == p + 1 && q < |cs| && cs[p].Star2?
  }

  /** One ascending pass reaches the least mask that passes on, without a bit beyond the last
      position, and without a change in what is matched. */
  method Closure(cs: seq<Component>, mask: set<nat>) returns (r: set<nat>)
    ensures mask <= r && PassesOn(cs, r)
    ensures forall other :: mask <= other && PassesOn(cs, other) ==> r <= other
    ensures forall p :: p in r && p !in mask ==> p < |cs|
    ensures |cs| <= 63 && (forall p :: p in mask ==> p < 64) ==> forall p :: p in r ==> p < 64
    ensures forall names :: Denotes(cs, r, names) <==> Denotes(cs, mask, names)
  {
    r := mask;
    var p := 0;
    while p + 1 < |cs|
      invariant p <= |cs| && mask <= r && forall q :: q in r && q !in mask ==> q < |cs|
      invariant forall q, s :: q in r && q < p && Passes(cs, q, s) ==> s in r
      invariant forall other :: mask <= other && PassesOn(cs, other) ==> r <= other
      invariant forall names :: Denotes(cs, r, names) <==> Denotes(cs, mask, names)
    {
      if p in r && cs[p].Star2? {
        ghost var before := r;
        r := r + {p + 1};
        assert Passes(cs, p, p + 1);
        forall names ensures Denotes(cs, r, names) <==> Denotes(cs, before, names) {
          PassedOn(cs, before, p, names);
        }
      }
      p := p + 1;
    }
  }

  lemma PassedOn(cs: seq<Component>, mask: set<nat>, p: nat, names: seq<string>)
    requires p in mask && p + 1 < |cs| && cs[p].Star2?
    ensures Denotes(cs, mask + {p + 1}, names) <==> Denotes(cs, mask, names)
  {
    if Denotes(cs, mask + {p + 1}, names) {
      var q :| q in mask + {p + 1} && q < |cs| && Accepts(cs, q, names);
      assert q == p + 1 ==> Accepts(cs, p, names);
    }
    if Denotes(cs, mask, names) {
      var q :| q in mask && q < |cs| && Accepts(cs, q, names);
      assert q in mask + {p + 1};
    }
  }

  /** Filled from the back: from which positions on nothing more is needed. */
  method SuffixAllStar(cs: seq<Component>) returns (a: array<bool>)
    ensures a.Length == |cs|
    ensures forall p :: 0 <= p < |cs| ==> (a[p] <==> Accepts(cs, p, []))
  {
    a := new bool[|cs|](_ => false);
    for p := |cs| downto 0
      invariant forall q :: p <= q < |cs| ==> (a[q] <==> Accepts(cs, q, []))
    {
      a[p] := cs[p].Star2? && (p + 1 == |cs| || a[p + 1]);
    }
  }
}
