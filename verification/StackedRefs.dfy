/** The names of the refs that are published for a stack of changes. */
module StackedRefs {
  import opened Objects
  import opened ByteOrder

  datatype StackedRef =
    | Change(target: string, author: string, changeId: string)
    | Base(target: string, author: string, changeId: string)
    | StackHead(target: string, author: string)

  // ------------------------------------------------------------------ names

  /** The name behind `refs/heads/`. */
  function ShortName(r: StackedRef): string {
    match r
    case Change(target, author, id) => "@changes/" + (target + "/" + author + "/" + id)
    case Base(target, author, id) => "@base/" + (target + "/" + author + "/" + id)
    case StackHead(target, author) => "@heads/" + (target + "/" + author)
  }

  function RefName(r: StackedRef): string {
    "refs/heads/" + ShortName(r)
  }

  function StripPrefix(s: string, prefix: string): Option<string> {
    if prefix <= s then Some(s[|prefix|..]) else None
  }

  lemma Strips(prefix: string, rest: string)
    ensures StripPrefix(prefix + rest, prefix) == Some(rest)
  {
    assert (prefix + rest)[|prefix|..] == rest;
  }

  /** Where `c` is first found at or behind `i`; the length of `s` if nowhere. */
  function Next(s: string, c: char, i: nat): (j: nat)
    requires i <= |s|
    ensures i <= j <= |s| && (j < |s| ==> s[j] == c) && forall k :: i <= k < j ==> s[k] != c
    decreases |s| - i
  {
    if i == |s| || s[i] == c then i else Next(s, c, i + 1)
  }

  datatype Split = Split(target: string, author: string, rest: string)

  /** `s` is `target/author` or `target/author/rest`, and the author is the first segment with an
      `@`; a lone slash behind the author stands for no rest. */
  ghost predicate IsSplit(s: string, p: Split) {
    && '@' !in p.target && '@' in p.author && '/' !in p.author
    && (s == p.target + "/" + p.author + "/" + p.rest || (s == p.target + "/" + p.author && p.rest == ""))
  }

  /** Where the segment that holds position `i` begins. */
  function SegmentStart(s: string, i: nat): (j: nat)
    requires i <= |s|
    ensures j <= i && (j > 0 ==> s[j - 1] == '/') && forall k :: j <= k < i ==> s[k] != '/'
  {
    if i == 0 || s[i - 1] == '/' then i else SegmentStart(s, i - 1)
  }

  /** Split around the segment of the first `@`, unless that is the first segment. */
  function SplitOf(s: string): Option<Split> {
    var at := Next(s, '@', 0);
    if at == |s| || SegmentStart(s, at) == 0 then None
    else
      var start, end := SegmentStart(s, at), Next(s, '/', at);
      Some(Split(s[..start - 1], s[start..end], if end == |s| then "" else s[end + 1..]))
  }

  /** What a split at the segment from `n` to `m` gives. */
  function Around(s: string, n: nat, m: nat): Split
    requires 0 < n <= m <= |s|
  {
    Split(s[..n - 1], s[n..m], if m == |s| then "" else s[m + 1..])
  }

  /** The segment from `n` to `m` is the first with an `@`. */
  ghost predicate AuthorAt(s: string, n: nat, m: nat) {
    && n <= m <= |s| && (n > 0 ==> s[n - 1] == '/') && (m < |s| ==> s[m] == '/')
    && (forall k :: 0 <= k < n ==> s[k] != '@') && (forall k :: n <= k < m ==> s[k] != '/')
    && exists k :: n <= k < m && s[k] == '@'
  }

  lemma SplitAtAuthor(s: string, n: nat, m: nat)
    requires AuthorAt(s, n, m)
    ensures SplitOf(s) == if n == 0 then None else Some(Around(s, n, m))
  {
    hide Next, SegmentStart;
    var at := Next(s, '@', 0);
    assert n <= at < m;
    assert SegmentStart(s, at) == n && Next(s, '/', at) == m;
  }

  lemma SplitIs(s: string)
    ensures SplitOf(s).Some? ==> IsSplit(s, SplitOf(s).value)
  {
    hide Next, SegmentStart;
    var at := Next(s, '@', 0);
    if at < |s| {
      var n, m := SegmentStart(s, at), Next(s, '/', at);
      assert AuthorAt(s, n, m);
      if n > 0 {
        AroundIs(s, n, m);
      }
    }
  }

  lemma AroundIs(s: string, n: nat, m: nat)
    requires AuthorAt(s, n, m) && n > 0
    ensures IsSplit(s, Around(s, n, m))
  {
    var p := Around(s, n, m);
    var k :| n <= k < m && s[k] == '@';
    assert p.author[k - n] == '@';
    assert p.target + "/" + p.author == s[..m];
    if m == |s| {
      assert s[..m] == s;
    } else {
      assert s == s[..m] + "/" + s[m + 1..];
    }
  }

  /** There is one way to split a name. */
  lemma SplitUnique(s: string, p: Split)
    requires IsSplit(s, p)
    ensures SplitOf(s) == Some(p)
  {
    hide SplitOf;
    var n := |p.target| + 1;
    var m := n + |p.author|;
    var head := p.target + "/" + p.author;
    assert head <= s && head[..n - 1] == p.target && head[n..] == p.author;
    assert s[..n - 1] == p.target && s[n..m] == p.author && s[n - 1] == '/';
    assert m < |s| ==> s[m] == '/' && s[m + 1..] == p.rest;
    FoundAt(s, p, n, m);
    SplitAtAuthor(s, n, m);
  }

  lemma FoundAt(s: string, p: Split, n: nat, m: nat)
    requires 0 < n <= m <= |s| && s[..n - 1] == p.target && s[n..m] == p.author && s[n - 1] == '/'
    requires '@' !in p.target && '@' in p.author && '/' !in p.author && (m < |s| ==> s[m] == '/')
    ensures AuthorAt(s, n, m)
  {
    var j :| 0 <= j < |p.author| && p.author[j] == '@';
    assert s[n + j] == '@';
    assert forall k :: 0 <= k < n - 1 ==> s[k] == s[..n - 1][k];
    assert forall k :: n <= k < m ==> s[k] == s[n..m][k - n];
  }

  /** Splitting goes segment by segment. */
  method SplitTargetAuthor(s: string) returns (r: Option<Split>)
    ensures r == SplitOf(s)
  {
    var start, more := 0, true;
    while more
      invariant start <= |s| && '@' !in s[..start] && (start > 0 ==> s[start - 1] == '/')
      invariant !more ==> '@' !in s
      decreases if more then |s| + 1 - start else 0
    {
      var end := Next(s, '/', start);
      var segment := s[start..end];
      if '@' in segment {
        assert AuthorAt(s, start, end) by {
          var j :| 0 <= j < |segment| && segment[j] == '@';
          assert s[start + j] == '@';
          assert forall k :: 0 <= k < start ==> s[k] in s[..start];
        }
        SplitAtAuthor(s, start, end);
        if start == 0 {
          return None;
        }
        return Some(Around(s, start, end));
      }
      assert '@' !in s[..end] by {
        assert s[..end] == s[..start] + segment;
      }
      if end == |s| {
        assert s[..end] == s;
        more := false;
      } else {
        assert s[..end + 1] == s[..end] + "/";
        start := end + 1;
      }
    }
    r := None;
  }

  // ------------------------------------------------------------------ reading names

  function ParseShort(name: string): Option<StackedRef> {
    if StripPrefix(name, "@changes/").Some? then
      var p := SplitOf(StripPrefix(name, "@changes/").value);
      if p.None? || p.value.rest == "" then None else Some(Change(p.value.target, p.value.author, p.value.rest))
    else if StripPrefix(name, "@base/").Some? then
      var p := SplitOf(StripPrefix(name, "@base/").value);
      if p.None? || p.value.rest == "" then None else Some(Base(p.value.target, p.value.author, p.value.rest))
    else if StripPrefix(name, "@heads/").Some? then
      var p := SplitOf(StripPrefix(name, "@heads/").value);
      if p.None? || p.value.rest != "" then None else Some(StackHead(p.value.target, p.value.author))
    else None
  }

  /** Full, remote-tracking and bare names. */
  function Parse(name: string): Option<StackedRef> {
    if StripPrefix(name, "refs/heads/").Some? then ParseShort(StripPrefix(name, "refs/heads/").value)
    else if StripPrefix(name, "refs/remotes/").Some? then
      var rest := StripPrefix(name, "refs/remotes/").value;
      var slash := Next(rest, '/', 0);
      if slash == |rest| then None else ParseShort(rest[slash + 1..])
    else ParseShort(name)
  }

  /** The target has no `@`, the author is one segment with an `@`, and a change has an id. */
  predicate Proper(r: StackedRef) {
    '@' !in r.target && '@' in r.author && '/' !in r.author && (!r.StackHead? ==> r.changeId != "")
  }

  function Family(r: StackedRef): string {
    if r.Change? then "@changes/" else if r.Base? then "@base/" else "@heads/"
  }

  function Body(r: StackedRef): string {
    if r.StackHead? then r.target + "/" + r.author else r.target + "/" + r.author + "/" + r.changeId
  }

  function Parts(r: StackedRef): Split {
    Split(r.target, r.author, if r.StackHead? then "" else r.changeId)
  }

  /** The families are told apart by their second letter. */
  lemma ParsedFamily(r: StackedRef, body: string)
    ensures ParseShort(Family(r) + body) ==
      var p := SplitOf(body);
      if p.None? || (p.value.rest == "") != r.StackHead? then None
      else if r.Change? then Some(Change(p.value.target, p.value.author, p.value.rest))
      else if r.Base? then Some(Base(p.value.target, p.value.author, p.value.rest))
      else Some(StackHead(p.value.target, p.value.author))
  {
    hide SplitOf;
    var name := Family(r) + body;
    Strips(Family(r), body);
    assert "@changes/"[1] == 'c' && "@base/"[1] == 'b' && "@heads/"[1] == 'h';
    assert name[1] == Family(r)[1];
  }

  lemma ShortParses(r: StackedRef)
    ensures ParseShort(ShortName(r)) == Some(r) <==> Proper(r)
  {
    hide SplitOf, ParseShort, Family;
    assert ShortName(r) == Family(r) + Body(r) by {
      NameIs(r);
    }
    ParsedFamily(r, Body(r));
    SplitIs(Body(r));
    if Proper(r) {
      SplitUnique(Body(r), Parts(r));
    }
  }

  lemma NameIs(r: StackedRef)
    ensures ShortName(r) == Family(r) + Body(r)
  {
  }

  /** Whichever way a ref is spelled, it is read back exactly when it is proper. */
  lemma RefParses(r: StackedRef, remote: string)
    requires '/' !in remote
    ensures Parse(RefName(r)) == Some(r) <==> Proper(r)
    ensures Parse("refs/remotes/" + (remote + "/" + ShortName(r))) == Some(r) <==> Proper(r)
    ensures Parse(ShortName(r)) == Some(r) <==> Proper(r)
  {
    hide ShortName, ParseShort, Proper;
    ShortParses(r);
    Strips("refs/heads/", ShortName(r));
    var rest := remote + "/" + ShortName(r);
    Strips("refs/remotes/", rest);
    assert ("refs/remotes/" + rest)[5] == 'r' && "refs/heads/"[5] == 'h';
    assert rest[|remote|] == '/' && forall k :: 0 <= k < |remote| ==> rest[k] == remote[k] && remote[k] in remote;
    assert Next(rest, '/', 0) == |remote|;
    assert rest[|remote| + 1..] == ShortName(r);
    StartsWithAt(r);
    assert "refs/heads/"[0] == 'r' && "refs/remotes/"[0] == 'r';
  }

  lemma StartsWithAt(r: StackedRef)
    ensures ShortName(r) != "" && ShortName(r)[0] == '@'
  {
  }

  /** Printing what was read gives the name back; a stack head may have lost a trailing slash. */
  lemma ParsedPrints(short: string)
    requires Parse("refs/heads/" + short).Some?
    ensures var r := Parse("refs/heads/" + short).value;
            && Proper(r)
            && (ShortName(r) == short || (r.StackHead? && ShortName(r) + "/" == short))
  {
    hide SplitOf, Family, ShortName;
    Strips("refs/heads/", short);
    ShortPrints(short);
  }

  lemma ShortPrints(short: string)
    requires ParseShort(short).Some?
    ensures var r := ParseShort(short).value;
            && Proper(r)
            && (ShortName(r) == short || (r.StackHead? && ShortName(r) + "/" == short))
  {
    hide SplitOf;
    var r := ParseShort(short).value;
    var body := StripPrefix(short, Family(r)).value;
    assert short == Family(r) + body;
    SplitIs(body);
    NameIs(r);
    if body != Body(r) {
      assert body == Body(r) + "/";
      assert ShortName(r) + "/" == Family(r) + body;
    }
  }

  // ------------------------------------------------------------------ publishing a stack

  datatype ChangeInfo = ChangeInfo(commit: Oid, id: Option<string>, author: string)

  datatype Pushed = Pushed(oid: Oid, changeId: string)

  function Own(changes: seq<ChangeInfo>, author: string): (own: seq<ChangeInfo>)
    ensures forall c :: c in own <==> c.author == author && c in changes
  {
    if changes == [] then []
    else Own(Init(changes), author) + (if Last(changes).author == author then [Last(changes)] else [])
  }

  /** The refs of one change: its head and, unless it is a root commit, its base. */
  function RefsOfOne(target: string, c: ChangeInfo): seq<Pair<Pushed>> {
    if c.id.None? then []
    else
      [Pair(RefName(Change(target, c.author, c.id.value)), Pushed(c.commit, c.id.value))]
      + (if c.commit.Commit? && c.commit.parents != []
         then [Pair(RefName(Base(target, c.author, c.id.value)), Pushed(c.commit.parents[0], c.id.value))]
         else [])
  }

  function RefsOf(target: string, own: seq<ChangeInfo>): seq<Pair<Pushed>> {
    if own == [] then [] else RefsOf(target, Init(own)) + RefsOfOne(target, Last(own))
  }

  /** `p` is a ref of the labelled change `c`: its change ref points at its commit, and its base ref at
      the first parent of that. */
  ghost predicate IsRefOf(p: Pair<Pushed>, target: string, c: ChangeInfo) {
    && c.id.Some? && p.value.changeId == c.id.value
    && (|| (p.key == RefName(Change(target, c.author, c.id.value)) && p.value.oid == c.commit)
        || (p.key == RefName(Base(target, c.author, c.id.value)) && c.commit.Commit? && c.commit.parents != []
            && p.value.oid == c.commit.parents[0]))
  }

  /** The refs of a stack are those of its labelled changes, and no others. */
  lemma {:induction false} RefsExactly(target: string, own: seq<ChangeInfo>, p: Pair<Pushed>)
    ensures p in RefsOf(target, own) <==> exists c :: c in own && IsRefOf(p, target, c)
  {
    hide RefName;
    if own == [] {
    } else {
      RefsExactly(target, Init(own), p);
      assert own == Init(own) + [Last(own)];
      OneRefs(target, Last(own), p);
    }
  }

  lemma OneRefs(target: string, c: ChangeInfo, p: Pair<Pushed>)
    ensures p in RefsOfOne(target, c) <==> IsRefOf(p, target, c)
  {
    hide RefName;
  }

  lemma Joined(a: string, b: string, c: string)
    ensures a + (b + c) == (a + b) + c
  {
  }

  /** How the three names are spelled. */
  lemma NamesSpelled(target: string, author: string, id: string)
    ensures RefName(Change(target, author, id)) == "refs/heads/@changes/" + (target + "/" + author + "/" + id)
    ensures RefName(Base(target, author, id)) == "refs/heads/@base/" + (target + "/" + author + "/" + id)
    ensures RefName(StackHead(target, author)) == "refs/heads/@heads/" + (target + "/" + author)
  {
    Joined("refs/heads/", "@changes/", target + "/" + author + "/" + id);
    Joined("refs/heads/", "@base/", target + "/" + author + "/" + id);
    Joined("refs/heads/", "@heads/", target + "/" + author);
    assert "refs/heads/@changes/" == "refs/heads/" + "@changes/";
    assert "refs/heads/@base/" == "refs/heads/" + "@base/";
    assert "refs/heads/@heads/" == "refs/heads/" + "@heads/";
  }

  /** Every change has an id of its own, without an `@`, or none. */
  ghost predicate Labelled(own: seq<ChangeInfo>) {
    && (forall c :: c in own && c.id.Some? ==> '@' !in c.id.value)
    && forall i, j :: 0 <= i < j < |own| && own[i].id.Some? ==> own[i].id != own[j].id
  }

  ghost predicate Present(odb: Odb, own: seq<ChangeInfo>) {
    forall c :: c in own && c.id.Some? ==> Readable(odb, c.commit)
  }

  /** The author's changes have ids of their own, without an `@`, or none. */
  ghost predicate WellLabelled(changes: seq<ChangeInfo>, author: string) {
    && (forall c :: c in changes && c.author == author && c.id.Some? ==> '@' !in c.id.value)
    && forall i, j ::
        0 <= i < j < |changes| && changes[i].author == changes[j].author == author && changes[i].id.Some? ==>
          changes[i].id != changes[j].id
  }

  lemma LabelledOne(own: seq<ChangeInfo>, x: ChangeInfo)
    ensures Labelled(own + [x]) <==>
      Labelled(own) && (x.id.Some? ==> '@' !in x.id.value && forall c :: c in own ==> c.id != x.id)
  {
    var more := own + [x];
    assert forall i :: 0 <= i < |own| ==> more[i] == own[i] && own[i] in own;
    assert more[|own|] == x && x in more;
    if Labelled(more) {
      assert forall c :: c in own ==> c in more;
    }
  }

  lemma WellLabelledOne(changes: seq<ChangeInfo>, author: string, x: ChangeInfo)
    ensures WellLabelled(changes + [x], author) <==>
      && WellLabelled(changes, author)
      && (x.author == author && x.id.Some? ==>
            '@' !in x.id.value && forall c :: c in changes && c.author == author ==> c.id != x.id)
  {
    var more := changes + [x];
    assert forall i :: 0 <= i < |changes| ==> more[i] == changes[i] && changes[i] in changes;
    assert more[|changes|] == x && x in more;
    if WellLabelled(more, author) {
      assert forall c :: c in changes ==> c in more;
    }
  }

  lemma {:induction false} OwnLabelled(changes: seq<ChangeInfo>, author: string)
    ensures Labelled(Own(changes, author)) <==> WellLabelled(changes, author)
  {
    hide Labelled, WellLabelled;
    if changes == [] {
      NothingLabelled(author);
    } else {
      var rest, x := Init(changes), Last(changes);
      assert changes == rest + [x];
      OwnLabelled(rest, author);
      WellLabelledOne(rest, author, x);
      if x.author == author {
        LabelledOne(Own(rest, author), x);
      } else {
        assert Own(rest, author) + [] == Own(rest, author);
      }
    }
  }

  lemma NothingLabelled(author: string)
    ensures Labelled([]) && WellLabelled([], author)
  {
  }

  ghost predicate OwnPresent(odb: Odb, changes: seq<ChangeInfo>, author: string) {
    forall c :: c in changes && c.author == author && c.id.Some? ==> Readable(odb, c.commit)
  }

  lemma Cancel(p: string, x: string, y: string)
    requires p + x == p + y
    ensures x == y
  {
    assert (p + x)[|p|..] == x && (p + y)[|p|..] == y;
  }

  lemma FamilyTells(a: StackedRef, b: StackedRef, x: string, y: string)
    requires Family(a) + x == Family(b) + y
    ensures Family(a) == Family(b) && x == y
    ensures a.Change? == b.Change? && a.StackHead? == b.StackHead?
  {
    assert (Family(a) + x)[1] == Family(a)[1] && (Family(b) + y)[1] == Family(b)[1];
    Cancel(Family(a), x, y);
  }

  lemma SameName(a: StackedRef, b: StackedRef)
    requires RefName(a) == RefName(b)
    ensures a.Change? == b.Change? && a.StackHead? == b.StackHead? && Body(a) == Body(b)
  {
    hide ShortName, Family, Body;
    Cancel("refs/heads/", ShortName(a), ShortName(b));
    NameIs(a);
    NameIs(b);
    FamilyTells(a, b, Body(a), Body(b));
  }

  /** Names of the same stack tell the family and the id. */
  lemma NamesDiffer(a: StackedRef, b: StackedRef)
    requires a.target == b.target && a.author == b.author && RefName(a) == RefName(b)
    ensures a == b
  {
    hide RefName;
    SameName(a, b);
    if !a.StackHead? {
      Cancel(a.target + "/" + a.author + "/", a.changeId, b.changeId);
    }
  }

  /** A ref of a stack belongs to one of its changes. */
  lemma {:induction false} RefsFrom(target: string, author: string, own: seq<ChangeInfo>, p: Pair<Pushed>)
    requires (forall c :: c in own ==> c.author == author) && p in RefsOf(target, own)
    ensures exists i :: 0 <= i < |own| && own[i].id.Some? && IsNameOf(p.key, target, author, own[i].id.value)
  {
    if p in RefsOfOne(target, Last(own)) {
      assert IsNameOf(p.key, target, author, own[|own| - 1].id.value);
    } else {
      RefsFrom(target, author, Init(own), p);
      var i :| 0 <= i < |Init(own)| && Init(own)[i].id.Some? && IsNameOf(p.key, target, author, Init(own)[i].id.value);
      assert own[i] == Init(own)[i];
    }
  }

  predicate IsNameOf(name: string, target: string, author: string, id: string) {
    name == RefName(Change(target, author, id)) || name == RefName(Base(target, author, id))
  }

  lemma OneName(name: string, target: string, author: string, a: string, b: string)
    requires IsNameOf(name, target, author, a) && IsNameOf(name, target, author, b)
    ensures a == b
  {
    hide RefName;
    var r := if name == RefName(Change(target, author, a)) then Change(target, author, a) else Base(target, author, a);
    var q := if name == RefName(Change(target, author, b)) then Change(target, author, b) else Base(target, author, b);
    NamesDiffer(r, q);
  }

  lemma NotHeadName(name: string, target: string, author: string, id: string)
    requires IsNameOf(name, target, author, id)
    ensures name != RefName(StackHead(target, author))
  {
    hide RefName;
    var change := Change(target, author, id);
    var r := if name == RefName(change) then change else Base(target, author, id);
    if RefName(r) == RefName(StackHead(target, author)) {
      NamesDiffer(r, StackHead(target, author));
    }
  }

  lemma OwnNames(target: string, author: string, id: string)
    ensures RefName(Change(target, author, id)) != RefName(Base(target, author, id))
  {
    hide RefName;
    if RefName(Change(target, author, id)) == RefName(Base(target, author, id)) {
      NamesDiffer(Change(target, author, id), Base(target, author, id));
    }
  }

  lemma LastDiffers(target: string, author: string, own: seq<ChangeInfo>, p: Pair<Pushed>, q: Pair<Pushed>)
    requires own != [] && Labelled(own) && forall c :: c in own ==> c.author == author
    requires p in RefsOf(target, Init(own)) && q in RefsOfOne(target, Last(own))
    ensures p.key != q.key
  {
    hide RefName;
    var last, rest := Last(own), Init(own);
    RefsFrom(target, author, rest, p);
    var i :| 0 <= i < |rest| && rest[i].id.Some? && IsNameOf(p.key, target, author, rest[i].id.value);
    assert own[i].id != own[|own| - 1].id;
    assert IsNameOf(q.key, target, author, last.id.value);
    if p.key == q.key {
      OneName(p.key, target, author, own[i].id.value, last.id.value);
    }
  }

  /** No two refs of a stack have the same name. */
  lemma {:induction false} RefsDiffer(target: string, author: string, own: seq<ChangeInfo>)
    requires Labelled(own) && forall c :: c in own ==> c.author == author
    ensures DistinctKeys(RefsOf(target, own))
  {
    hide RefName;
    if own == [] {
    } else {
      var rest, last := RefsOf(target, Init(own)), RefsOfOne(target, Last(own));
      RefsDiffer(target, author, Init(own));
      forall p, q | p in rest && q in last ensures p.key != q.key {
        LastDiffers(target, author, own, p, q);
      }
      if Last(own).id.Some? {
        OwnNames(target, author, Last(own).id.value);
      }
      DistinctKeysConcat(rest, last);
    }
  }

  lemma DistinctKeysConcat<T>(a: seq<Pair<T>>, b: seq<Pair<T>>)
    requires DistinctKeys(a) && DistinctKeys(b) && forall p, q :: p in a && q in b ==> p.key != q.key
    ensures DistinctKeys(a + b)
  {
    var ab := a + b;
    forall i, j | 0 <= i < j < |ab| ensures ab[i].key != ab[j].key {
      if i < |a| <= j {
        assert ab[i] in a && ab[j] in b;
      }
    }
  }

  /** Refuse labels that cannot be told apart. */
  method CheckLabels(own: seq<ChangeInfo>) returns (ok: bool)
    ensures ok <==> Labelled(own)
  {
    var seen: set<string> := {};
    for i := 0 to |own|
      invariant Labelled(own[..i]) && forall x :: x in seen <==> Some(x) in IdsOf(own[..i])
    {
      assert own[..i + 1] == own[..i] + [own[i]];
      if own[i].id.Some? {
        var id := own[i].id.value;
        if '@' in id {
          assert own[i] in own;
          return false;
        }
        if id in seen {
          var j :| 0 <= j < i && own[..i][j].id == Some(id);
          assert own[j].id == own[i].id;
          return false;
        }
        assert forall j :: 0 <= j < i ==> own[..i][j].id in IdsOf(own[..i]);
        seen := seen + {id};
      }
    }
    assert own[..|own|] == own;
    ok := true;
  }

  ghost function IdsOf(own: seq<ChangeInfo>): set<Option<string>> {
    set i | 0 <= i < |own| :: own[i].id
  }

  lemma OwnRefs(target: string, author: string, changes: seq<ChangeInfo>)
    ensures forall p :: p in RefsOf(target, Own(changes, author)) <==>
      exists c :: c in changes && c.author == author && IsRefOf(p, target, c)
  {
    hide IsRefOf, RefsOf;
    var own := Own(changes, author);
    forall p
      ensures p in RefsOf(target, own) <==> exists c :: c in changes && c.author == author && IsRefOf(p, target, c)
    {
      RefsExactly(target, own, p);
    }
  }

  /** The refs of the author's own changes. */
  method ChangesToRefs(odb: Odb, target: string, author: string, changes: seq<ChangeInfo>)
    returns (r: Result<seq<Pair<Pushed>>>)
    ensures r.Ok? <==> '@' in author && WellLabelled(changes, author) && OwnPresent(odb, changes, author)
    ensures r.Ok? ==> r.value == RefsOf(target, Own(changes, author)) && DistinctKeys(r.value)
    ensures r.Ok? ==>
      forall p :: p in r.value <==> exists c :: c in changes && c.author == author && IsRefOf(p, target, c)
  {
    var own := Own(changes, author);
    OwnLabelled(changes, author);
    if '@' !in author {
      return Err;
    }
    var labelled := CheckLabels(own);
    if !labelled {
      return Err;
    }
    var refs := [];
    for i := 0 to |own|
      invariant Present(odb, own[..i]) && refs == RefsOf(target, own[..i])
    {
      assert own[..i + 1] == own[..i] + [own[i]];
      if own[i].id.Some? && !Readable(odb, own[i].commit) {
        assert own[i] in own;
        return Err;
      }
      assert Init(own[..i + 1]) == own[..i];
      refs := refs + RefsOfOne(target, own[i]);
    }
    assert own[..|own|] == own;
    RefsDiffer(target, author, own);
    OwnRefs(target, author, changes);
    r := Ok(refs);
  }

  /** A published stack is a strictly sorted list of distinct refs: those of the changes, and the head. */
  method BuildToPush(odb: Odb, target: string, author: string, changes: seq<ChangeInfo>, tip: Oid)
    returns (r: Result<seq<Pair<Pushed>>>)
    ensures r.Ok? <==> '@' in author && WellLabelled(changes, author) && OwnPresent(odb, changes, author)
    ensures r.Ok? ==> Increasing(r.value)
    ensures r.Ok? ==>
      var head := Pair(RefName(StackHead(target, author)), Pushed(tip, target));
      && SameMembers(r.value, RefsOf(target, Own(changes, author)) + [head])
      && forall p :: p in r.value <==>
          (p == head || exists c :: c in changes && c.author == author && IsRefOf(p, target, c))
  {
    hide RefName, Less, IsRefOf;
    var refs := ChangesToRefs(odb, target, author, changes);
    if refs.Err? {
      return Err;
    }
    var head := Pair(RefName(StackHead(target, author)), Pushed(tip, target));
    ghost var own := Own(changes, author);
    forall p | p in refs.value ensures p.key != head.key {
      RefsFrom(target, author, own, p);
      var i :| 0 <= i < |own| && own[i].id.Some? && IsNameOf(p.key, target, author, own[i].id.value);
      NotHeadName(p.key, target, author, own[i].id.value);
    }
    DistinctKeysConcat(refs.value, [head]);
    SortIncreases(refs.value + [head]);
    r := Ok(Sort(refs.value + [head]));
  }
}
