/** Narrowing to a sub-directory as a lens: filtering what was put back gives what was put, and
    putting back what is already there changes nothing. */
module SubdirLens {
  import opened Objects

  type Path = p: seq<string> | p != [] witness ["a"]

  // ------------------------------------------------------------------ trees

  /** The tree at `path`, or the empty tree where there is none. */
  function Subdir(path: seq<string>, t: Tree): Tree {
    if path == [] then t
    else if path[0] in t.entries && t.entries[path[0]].Dir? then Subdir(path[1..], t.entries[path[0]])
    else EMPTY_TREE
  }

  /** `t` with the entry `name` set to `e`; nothing is kept under the name of an empty tree. */
  function ReplaceChild(t: Tree, name: string, e: Entry): Tree {
    if e == EMPTY_TREE then Dir(t.entries - {name}) else Dir(t.entries[name := e])
  }

  /** Set what is at `path`, from the innermost directory outwards. */
  function Insert(full: Tree, path: Path, e: Entry): Tree
    decreases |path|
  {
    if |path| == 1 then ReplaceChild(full, path[0], e)
    else Insert(full, Init(path), ReplaceChild(Subdir(Init(path), full), Last(path), e))
  }

  function Prefix(path: Path, t: Tree): Tree {
    Insert(EMPTY_TREE, path, t)
  }

  /** What of `a` is at no path of `b`. */
  function Subtract(a: Entry, b: Entry): Entry {
    if a == b || a == EMPTY_TREE || !a.Dir? || !b.Dir? then EMPTY_TREE
    else if b == EMPTY_TREE then a
    else
      Dir(map k | k in a.entries && !(k in b.entries && Subtract(a.entries[k], b.entries[k]) == EMPTY_TREE) ::
        if k in b.entries then Subtract(a.entries[k], b.entries[k]) else a.entries[k])
  }

  /** `a` over `b`: trees are merged, and elsewhere `a` wins. */
  function Overlay(a: Entry, b: Entry): Entry {
    if a == b then a
    else if a == EMPTY_TREE then b
    else if b == EMPTY_TREE then a
    else if a.Dir? && b.Dir? then
      Dir(map k | k in a.entries.Keys + b.entries.Keys ::
        if k in a.entries && k in b.entries then Overlay(a.entries[k], b.entries[k])
        else if k in a.entries then a.entries[k]
        else b.entries[k])
    else a
  }

  /** Put `t` back through an invertible filter: what the filter sees of `base` makes way for `t`. */
  function Unapplied(apply: Tree -> Tree, inverse: Tree -> Tree, t: Tree, base: Tree): Entry {
    var stripped := Subtract(base, inverse(apply(base)));
    Overlay(inverse(t), stripped)
  }

  // ------------------------------------------------------------------ prefixes

  /** `t` below a chain of directories that hold nothing else. */
  function Nest(path: seq<string>, t: Tree): Tree {
    if path == [] || t == EMPTY_TREE then t else Dir(map[path[0] := Nest(path[1..], t)])
  }

  lemma {:induction false} NestSnoc(path: seq<string>, name: string, t: Tree)
    requires t != EMPTY_TREE
    ensures Nest(path + [name], t) == Nest(path, Dir(map[name := t]))
  {
    if path == [] {
    } else {
      assert (path + [name])[1..] == path[1..] + [name];
      NestSnoc(path[1..], name, t);
    }
    assert name in Dir(map[name := t]).entries;
  }

  lemma {:induction false} NestIsThere(path: seq<string>, t: Tree)
    requires t != EMPTY_TREE
    ensures Nest(path, t) != EMPTY_TREE && Subdir(path, Nest(path, t)) == t
  {
    if path == [] {
    } else {
      NestIsThere(path[1..], t);
      assert path[0] in Nest(path, t).entries;
    }
  }

  lemma {:induction false} SubdirOfEmpty(path: seq<string>)
    ensures Subdir(path, EMPTY_TREE) == EMPTY_TREE
  {
  }

  /** Inserting into nothing builds exactly the chain of directories. */
  lemma {:induction false} PrefixNests(path: Path, t: Tree)
    ensures Prefix(path, t) == Nest(path, t)
    decreases |path|
  {
    if |path| == 1 {
      assert path[1..] == [];
      if t == EMPTY_TREE {
        assert ReplaceChild(EMPTY_TREE, path[0], t).entries == map[];
      } else {
        assert ReplaceChild(EMPTY_TREE, path[0], t).entries == map[path[0] := t];
      }
    } else {
      var inner := ReplaceChild(EMPTY_TREE, Last(path), t);
      SubdirOfEmpty(Init(path));
      PrefixNests(Init(path), inner);
      if t == EMPTY_TREE {
        assert inner.entries == map[];
      } else {
        assert inner.entries == map[Last(path) := t];
        assert path == Init(path) + [Last(path)];
        NestSnoc(Init(path), Last(path), t);
      }
    }
  }

  // ------------------------------------------------------------------ the laws of `:/path`

  /** Taking a directory out of a tree leaves no tree there. */
  lemma {:induction false} SubtractClears(path: Path, b: Tree)
    ensures Subtract(b, Nest(path, Subdir(path, b))).Dir?
    ensures Subdir(path, Subtract(b, Nest(path, Subdir(path, b)))) == EMPTY_TREE
    decreases |path|
  {
    var t, k, rest := Subdir(path, b), path[0], path[1..];
    if t != EMPTY_TREE && b != Nest(path, t) {
      NestIsThere(path, t);
      var s := Subtract(b.entries[k], Nest(rest, t));
      assert Subtract(b, Nest(path, t)) ==
        Dir(map x | x in b.entries && !(x == k && s == EMPTY_TREE) :: if x == k then s else b.entries[x]);
      if rest != [] {
        SubtractClears(rest, b.entries[k]);
      }
    } else {
      SubdirOfEmpty(path);
    }
  }

  /** What is laid over a place without a tree is what is there afterwards. */
  lemma {:induction false} OverlayShows(path: Path, t: Tree, s: Tree)
    requires Subdir(path, s) == EMPTY_TREE
    ensures Overlay(Nest(path, t), s).Dir?
    ensures Subdir(path, Overlay(Nest(path, t), s)) == t
    decreases |path|
  {
    if t == EMPTY_TREE {
    } else {
      var k, rest, n := path[0], path[1..], Nest(path, t);
      NestIsThere(path, t);
      NestIsThere(rest, t);
      if n != s && s != EMPTY_TREE {
        var o := Overlay(n, s);
        assert k in n.entries && n.entries[k] == Nest(rest, t);
        assert k in o.entries;
        assert o.entries[k] == if k in s.entries then Overlay(n.entries[k], s.entries[k]) else n.entries[k];
        if k in s.entries && s.entries[k].Dir? && rest != [] {
          OverlayShows(rest, t, s.entries[k]);
        }
      }
    }
  }

  /** Laying a directory over the tree it was taken out of restores the tree. */
  lemma {:induction false} OverlayRestores(path: Path, b: Tree)
    ensures var n := Nest(path, Subdir(path, b)); Overlay(n, Subtract(b, n)) == b
    decreases |path|
  {
    var t, k, rest := Subdir(path, b), path[0], path[1..];
    var n := Nest(path, t);
    if t != EMPTY_TREE && b != n {
      NestIsThere(path, t);
      NestIsThere(rest, t);
      var inner := b.entries[k];
      var s := Subtract(inner, Nest(rest, t));
      if rest != [] {
        OverlayRestores(rest, inner);
      }
      assert Overlay(Nest(rest, t), s) == inner;
      var stripped := Subtract(b, n);
      assert stripped ==
        Dir(map x | x in b.entries && !(x == k && s == EMPTY_TREE) :: if x == k then s else b.entries[x]);
      RestoredEntries(n, stripped, b, k, s);
    }
  }

  lemma RestoredEntries(n: Tree, stripped: Tree, b: Tree, k: string, s: Entry)
    requires k in b.entries && n.entries.Keys == {k} && Overlay(n.entries[k], s) == b.entries[k]
    requires stripped ==
      Dir(map x | x in b.entries && !(x == k && s == EMPTY_TREE) :: if x == k then s else b.entries[x])
    ensures Overlay(n, stripped) == b
  {
    var o := Overlay(n, stripped);
    assert k in n.entries;
    assert n == stripped ==> k in stripped.entries && n.entries[k] == s;
    assert stripped == EMPTY_TREE ==> forall x :: x in b.entries ==> x in stripped.entries || x == k;
    forall x ensures x in o.entries <==> x in b.entries {
    }
    forall x | x in b.entries ensures o.entries[x] == b.entries[x] {
      assert x != k ==> x in stripped.entries;
    }
    assert o.entries == b.entries;
  }

  /** For every non-empty path and all trees, `:/path` is a lens. */
  lemma SubdirIsLens(path: Path, t: Tree, base: Tree)
    ensures Unapplied(b => Subdir(path, b), x => Prefix(path, x), t, base).Dir?
    ensures var put := Unapplied(b => Subdir(path, b), x => Prefix(path, x), t, base); Subdir(path, put) == t
    ensures Unapplied(b => Subdir(path, b), x => Prefix(path, x), Subdir(path, base), base) == base
  {
    PrefixNests(path, t);
    PrefixNests(path, Subdir(path, base));
    SubtractClears(path, base);
    OverlayShows(path, t, Subtract(base, Nest(path, Subdir(path, base))));
    OverlayRestores(path, base);
  }

  // ------------------------------------------------------------------ what is beside the path

  /** `t` and `u` have the same entry called `k`, or none. */
  ghost predicate SameAt(t: Tree, u: Tree, k: string) {
    (k in t.entries <==> k in u.entries) && (k in t.entries ==> t.entries[k] == u.entries[k])
  }

  /** `t` and `u` are the same beside `path`, in every directory on the way. */
  ghost predicate SameBeside(path: Path, t: Tree, u: Tree) {
    forall i, k :: 0 <= i < |path| && k != path[i] ==> SameAt(Subdir(path[..i], t), Subdir(path[..i], u), k)
  }

  lemma SameBesideSelf(path: Path, t: Tree)
    ensures SameBeside(path, t, t)
  {
  }

  lemma SameBesideThen(path: Path, t: Tree, u: Tree, v: Tree)
    requires SameBeside(path, t, u) && SameBeside(path, u, v)
    ensures SameBeside(path, t, v)
  {
    hide Subdir;
    forall i, k | 0 <= i < |path| && k != path[i] ensures SameAt(Subdir(path[..i], t), Subdir(path[..i], v), k) {
      assert SameAt(Subdir(path[..i], t), Subdir(path[..i], u), k);
      assert SameAt(Subdir(path[..i], u), Subdir(path[..i], v), k);
    }
  }

  /** Being the same beside a path, one directory at a time. */
  lemma SameBesideStep(path: Path, t: Tree, u: Tree)
    requires forall k :: k != path[0] ==> SameAt(t, u, k)
    requires |path| > 1 ==> SameBeside(path[1..], Subdir(path[..1], t), Subdir(path[..1], u))
    ensures SameBeside(path, t, u)
  {
    forall i, k | 0 <= i < |path| && k != path[i] ensures SameAt(Subdir(path[..i], t), Subdir(path[..i], u), k) {
      if i > 0 {
        SubdirStep(path, i, t);
        SubdirStep(path, i, u);
        assert path[1..][i - 1] == path[i];
      }
    }
  }

  lemma SubdirStep(path: Path, i: nat, t: Tree)
    requires 0 < i <= |path|
    ensures Subdir(path[..i], t) == Subdir(path[1..][..i - 1], Subdir(path[..1], t))
  {
    assert path[..i][1..] == path[1..][..i - 1] && path[..1][1..] == [];
    SubdirOfEmpty(path[1..][..i - 1]);
  }

  lemma {:induction false} SubtractBeside(path: Path, b: Tree)
    ensures var s := Subtract(b, Nest(path, Subdir(path, b))); s.Dir? && SameBeside(path, s, b)
    decreases |path|
  {
    hide SameBeside;
    var t, k, rest := Subdir(path, b), path[0], path[1..];
    var n := Nest(path, t);
    var s := Subtract(b, n);
    if t == EMPTY_TREE {
      SameBesideSelf(path, b);
    } else {
      NestIsThere(path, t);
      assert path[..1] == [k] && path[..1][1..] == [];
      if rest != [] {
        SubtractBeside(rest, b.entries[k]);
      }
      SameBesideStep(path, s, b);
    }
  }

  lemma {:induction false} OverlayBeside(path: Path, t: Tree, b: Tree)
    ensures var o := Overlay(Nest(path, t), b); o.Dir? && SameBeside(path, o, b)
    decreases |path|
  {
    hide SameBeside;
    var k, rest := path[0], path[1..];
    var n := Nest(path, t);
    var o := Overlay(n, b);
    if t == EMPTY_TREE {
      SameBesideSelf(path, b);
    } else {
      NestIsThere(path, t);
      NestIsThere(rest, t);
      assert path[..1] == [k] && path[..1][1..] == [];
      if rest != [] {
        OverlayBeside(rest, t, if k in b.entries && b.entries[k].Dir? then b.entries[k] else EMPTY_TREE);
      }
      SameBesideStep(path, o, b);
    }
  }

  /** Putting back through `:/path` leaves alone what is beside the path. */
  lemma PutKeepsBeside(path: Path, t: Tree, base: Tree)
    ensures var put := Unapplied(b => Subdir(path, b), x => Prefix(path, x), t, base);
            put.Dir? && SameBeside(path, put, base)
  {
    hide Subtract, Overlay, Nest, Prefix, Subdir, SameBeside;
    var seen := Subdir(path, base);
    PrefixNests(path, t);
    PrefixNests(path, seen);
    SubtractBeside(path, base);
    var stripped := Subtract(base, Nest(path, seen));
    OverlayBeside(path, t, stripped);
    SameBesideThen(path, Overlay(Nest(path, t), stripped), stripped, base);
  }

  // ------------------------------------------------------------------ the laws of `:prefix=path`

  /** `:prefix=path` is one on exactly the trees that live below the prefix; what a push adds next
      to it is lost. */
  lemma PrefixIsLens(path: Path, t: Tree, base: Tree)
    ensures var put := Unapplied(b => Prefix(path, b), x => Subdir(path, x), t, base);
            put.Dir? && (Prefix(path, put) == t <==> t == Nest(path, Subdir(path, t)))
    ensures Unapplied(b => Prefix(path, b), x => Subdir(path, x), Prefix(path, base), base) == base
  {
    PrefixNests(path, base);
    PrefixNests(path, Subdir(path, t));
    if base == EMPTY_TREE {
      SubdirOfEmpty(path);
    } else {
      NestIsThere(path, base);
    }
  }

  lemma PrefixLosesNeighbours(base: Tree)
    ensures var t := Dir(map["b" := Blob("x")]);
            var put := Unapplied(b => Prefix(["a"], b), x => Subdir(["a"], x), t, base);
            put.Dir? && Prefix(["a"], put) != t
  {
    var t := Dir(map["b" := Blob("x")]);
    assert "b" in t.entries && "a" !in t.entries;
    PrefixIsLens(["a"], t, base);
  }
}
