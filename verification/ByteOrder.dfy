/** Names in byte order: sorted tree entries and ordered maps. */
module ByteOrder {
  import opened Objects

  /** Byte-wise order; for UTF-8 that is the order of the characters. */
  predicate Less(a: string, b: string) {
    b != [] && (a == [] || a[0] < b[0] || (a[0] == b[0] && Less(a[1..], b[1..])))
  }

  lemma {:induction false} LessTotal(a: string, b: string)
    ensures a == b || Less(a, b) || Less(b, a)
    ensures !(Less(a, b) && Less(b, a)) && !Less(a, a)
  {
    if a != [] && b != [] {
      if a[0] == b[0] {
        LessTotal(a[1..], b[1..]);
        assert a == [a[0]] + a[1..] && b == [b[0]] + b[1..];
      }
      LessTotal(a[1..], a[1..]);
    } else if a != [] {
      LessTotal(a[1..], a[1..]);
    }
  }

  lemma {:induction false} LessTransitive(a: string, b: string, c: string)
    requires Less(a, b) && Less(b, c)
    ensures Less(a, c)
  {
    if a != [] && a[0] == b[0] && b[0] == c[0] {
      LessTransitive(a[1..], b[1..], c[1..]);
    }
  }

  // ------------------------------------------------------------------ sorting by key

  datatype Pair<+T> = Pair(key: string, value: T)

  predicate Increasing<T>(ps: seq<Pair<T>>) {
    forall i, j :: 0 <= i < j < |ps| ==> Less(ps[i].key, ps[j].key)
  }

  predicate DistinctKeys<T>(ps: seq<Pair<T>>) {
    forall i, j :: 0 <= i < j < |ps| ==> ps[i].key != ps[j].key
  }

  /** Put `p` behind everything that is not greater. */
  function Insert<T>(ps: seq<Pair<T>>, p: Pair<T>): seq<Pair<T>> {
    if ps == [] then [p]
    else if Less(p.key, ps[0].key) then [p] + ps
    else [ps[0]] + Insert(ps[1..], p)
  }

  /** Stable sorting by key. */
  function Sort<T>(ps: seq<Pair<T>>): seq<Pair<T>> {
    if ps == [] then [] else Insert(Sort(Init(ps)), Last(ps))
  }

  /** Insertion into an ordered map: a value under the same key is replaced. */
  function Put<T>(m: seq<Pair<T>>, p: Pair<T>): seq<Pair<T>> {
    if m == [] then [p]
    else if Less(p.key, m[0].key) then [p] + m
    else if p.key == m[0].key then [p] + m[1..]
    else [m[0]] + Put(m[1..], p)
  }

  function Collect<T>(ps: seq<Pair<T>>): seq<Pair<T>> {
    if ps == [] then [] else Put(Collect(Init(ps)), Last(ps))
  }

  function Find<T>(ps: seq<Pair<T>>, key: string): Option<T> {
    if ps == [] then None else if ps[0].key == key then Some(ps[0].value) else Find(ps[1..], key)
  }

  ghost predicate SameMembers<T>(a: seq<Pair<T>>, b: seq<Pair<T>>) {
    (forall p :: p in a ==> p in b) && forall p :: p in b ==> p in a
  }

  lemma {:induction false} InsertKeeps<T>(ps: seq<Pair<T>>, p: Pair<T>)
    ensures p in Insert(ps, p)
    ensures forall q :: q in Insert(ps, p) ==> q in ps || q == p
    ensures forall q :: q in ps ==> q in Insert(ps, p)
    ensures |Insert(ps, p)| == |ps| + 1
  {
    if ps != [] && !Less(p.key, ps[0].key) {
      InsertKeeps(ps[1..], p);
      assert ps == [ps[0]] + ps[1..];
    }
  }

  lemma {:induction false} PutKeeps<T>(m: seq<Pair<T>>, p: Pair<T>)
    requires forall q :: q in m ==> q.key != p.key
    ensures p in Put(m, p)
    ensures forall q :: q in Put(m, p) ==> q in m || q == p
    ensures forall q :: q in m ==> q in Put(m, p)
  {
    if m != [] && !Less(p.key, m[0].key) {
      assert m[0] in m;
      assert m == [m[0]] + m[1..];
      PutKeeps(m[1..], p);
    }
  }

  lemma IncreasingCons<T>(p: Pair<T>, ps: seq<Pair<T>>)
    requires Increasing(ps) && forall q :: q in ps ==> Less(p.key, q.key)
    ensures Increasing([p] + ps)
  {
    var all := [p] + ps;
    forall i, j | 0 <= i < j < |all| ensures Less(all[i].key, all[j].key) {
      assert all[j] == ps[j - 1] && all[j] in ps;
    }
  }

  lemma IncreasingHead<T>(ps: seq<Pair<T>>, p: Pair<T>)
    requires Increasing(ps) && ps != [] && Less(p.key, ps[0].key)
    ensures Increasing([p] + ps)
  {
    forall q | q in ps ensures Less(p.key, q.key) {
      var j :| 0 <= j < |ps| && ps[j] == q;
      if j > 0 {
        LessTransitive(p.key, ps[0].key, q.key);
      }
    }
    IncreasingCons(p, ps);
  }

  /** Inserting a new key keeps a list increasing, whether it is put or sorted in. */
  lemma {:induction false} PutIncreases<T>(m: seq<Pair<T>>, p: Pair<T>)
    requires Increasing(m) && forall q :: q in m ==> q.key != p.key
    ensures Increasing(Put(m, p)) && Insert(m, p) == Put(m, p)
  {
    hide Less;
    if m == [] {
    } else {
      assert m[0] in m;
      LessTotal(p.key, m[0].key);
      if Less(p.key, m[0].key) {
        IncreasingHead(m, p);
      } else {
        PutIncreases(m[1..], p);
        PutKeeps(m[1..], p);
        forall q | q in Put(m[1..], p) ensures Less(m[0].key, q.key) {
          if q != p {
            var j :| 0 <= j < |m[1..]| && m[1..][j] == q;
            assert Less(m[0].key, m[j + 1].key);
          }
        }
        IncreasingCons(m[0], Put(m[1..], p));
      }
    }
  }

  lemma {:induction false} SortKeeps<T>(ps: seq<Pair<T>>)
    ensures SameMembers(Sort(ps), ps) && |Sort(ps)| == |ps|
  {
    if ps == [] {
    } else {
      SortKeeps(Init(ps));
      InsertKeeps(Sort(Init(ps)), Last(ps));
      forall p ensures p in ps <==> p in Init(ps) || p == Last(ps) {
        assert ps == Init(ps) + [Last(ps)];
      }
    }
  }

  /** With distinct keys, sorting and collecting both give the members in increasing order. */
  lemma {:induction false} SortIncreases<T>(ps: seq<Pair<T>>)
    requires DistinctKeys(ps)
    ensures Increasing(Sort(ps)) && Collect(ps) == Sort(ps) && SameMembers(Sort(ps), ps)
  {
    if ps == [] {
    } else {
      var rest := Init(ps);
      SortIncreases(rest);
      forall q | q in Sort(rest) ensures q.key != Last(ps).key {
        assert q in rest;
      }
      PutIncreases(Sort(rest), Last(ps));
      SortKeeps(ps);
    }
  }

  /** There is one way to list the same members in increasing order. */
  lemma {:induction false} IncreasingUnique<T>(a: seq<Pair<T>>, b: seq<Pair<T>>)
    requires Increasing(a) && Increasing(b) && SameMembers(a, b)
    ensures a == b
  {
    HasMember(b);
    if a == [] {
    } else {
      assert a[0] in a && a[0] in b;
      assert b[0] in b && b[0] in a;
      FirstIsLeast(a, b[0]);
      FirstIsLeast(b, a[0]);
      LessTotal(a[0].key, b[0].key);
      assert a[0] == b[0];
      forall p ensures p in a[1..] <==> p in b[1..] {
        NotFirst(a, p);
        NotFirst(b, p);
      }
      IncreasingUnique(a[1..], b[1..]);
    }
  }

  lemma FirstIsLeast<T>(a: seq<Pair<T>>, p: Pair<T>)
    requires Increasing(a) && p in a
    ensures p == a[0] || Less(a[0].key, p.key)
  {
  }

  lemma NotFirst<T>(a: seq<Pair<T>>, p: Pair<T>)
    requires Increasing(a) && a != []
    ensures p in a[1..] <==> p in a && p != a[0]
  {
    LessTotal(a[0].key, a[0].key);
    assert a == [a[0]] + a[1..];
    if p in a[1..] {
      var j :| 0 <= j < |a[1..]| && a[1..][j] == p;
      assert Less(a[0].key, a[j + 1].key);
    }
  }

  lemma {:induction false} IncreasingDistinct<T>(ps: seq<Pair<T>>)
    requires Increasing(ps)
    ensures DistinctKeys(ps)
  {
    forall i, j | 0 <= i < j < |ps| ensures ps[i].key != ps[j].key {
      LessTotal(ps[i].key, ps[j].key);
    }
  }

  /** What is increasing already is neither changed by sorting nor by collecting. */
  lemma IncreasingSorted<T>(ps: seq<Pair<T>>)
    requires Increasing(ps)
    ensures Sort(ps) == ps && Collect(ps) == ps
  {
    IncreasingDistinct(ps);
    SortIncreases(ps);
    IncreasingUnique(Sort(ps), ps);
  }

  lemma {:induction false} PutFrom<T>(m: seq<Pair<T>>, p: Pair<T>)
    ensures forall q :: q in Put(m, p) ==> q in m || q == p
  {
    if m == [] {
    } else {
      PutFrom(m[1..], p);
    }
  }

  /** Nothing is collected that was not there. */
  lemma {:induction false} CollectFrom<T>(ps: seq<Pair<T>>)
    ensures forall q :: q in Collect(ps) ==> q in ps
  {
    if ps == [] {
    } else {
      CollectFrom(Init(ps));
      PutFrom(Collect(Init(ps)), Last(ps));
    }
  }

  lemma {:induction false} PutStaysIncreasing<T>(m: seq<Pair<T>>, p: Pair<T>)
    requires Increasing(m)
    ensures Increasing(Put(m, p))
  {
    hide Less;
    if m == [] {
    } else {
      LessTotal(p.key, m[0].key);
      if Less(p.key, m[0].key) {
        IncreasingHead(m, p);
      } else if p.key != m[0].key {
        PutStaysIncreasing(m[1..], p);
        PutFrom(m[1..], p);
        forall q | q in Put(m[1..], p) ensures Less(m[0].key, q.key) {
          if q != p {
            var j :| 0 <= j < |m[1..]| && m[1..][j] == q;
            assert Less(m[0].key, m[j + 1].key);
          }
        }
        IncreasingCons(m[0], Put(m[1..], p));
      }
    }
  }

  /** An ordered map is in order. */
  lemma {:induction false} CollectIncreases<T>(ps: seq<Pair<T>>)
    ensures Increasing(Collect(ps))
  {
    if ps == [] {
    } else {
      CollectIncreases(Init(ps));
      PutStaysIncreasing(Collect(Init(ps)), Last(ps));
    }
  }

  lemma SortSnoc<T>(ps: seq<Pair<T>>, p: Pair<T>)
    ensures Sort(ps + [p]) == Insert(Sort(ps), p)
  {
    assert Init(ps + [p]) == ps;
  }

  /** Collecting does not depend on the order of distinct keys. */
  lemma CollectShuffled<T>(ps: seq<Pair<T>>, m: seq<Pair<T>>)
    requires DistinctKeys(ps) && Increasing(m) && SameMembers(ps, m)
    ensures Collect(ps) == m
  {
    SortIncreases(ps);
    IncreasingUnique(Collect(ps), m);
  }

  lemma {:induction false} FindMember<T>(ps: seq<Pair<T>>, p: Pair<T>)
    requires DistinctKeys(ps) && p in ps
    ensures Find(ps, p.key) == Some(p.value)
  {
    if ps[0] == p {
    } else {
      assert ps == [ps[0]] + ps[1..];
      var j :| 0 <= j < |ps| && ps[j] == p;
      assert ps[0].key != ps[j].key;
      FindMember(ps[1..], p);
    }
  }

  lemma {:induction false} FindNothing<T>(ps: seq<Pair<T>>, key: string)
    requires forall p :: p in ps ==> p.key != key
    ensures Find(ps, key) == None
  {
    if ps == [] {
    } else {
      assert ps[0] in ps;
      FindNothing(ps[1..], key);
    }
  }

  /** Looking a name up among distinct ones does not depend on their order. */
  lemma FindSorted<T>(ps: seq<Pair<T>>, p: Pair<T>)
    requires DistinctKeys(ps) && p in ps
    ensures Find(Sort(ps), p.key) == Some(p.value)
  {
    SortIncreases(ps);
    IncreasingDistinct(Sort(ps));
    FindMember(Sort(ps), p);
  }

  lemma {:induction false} FoundIsMember<T>(ps: seq<Pair<T>>, key: string)
    ensures Find(ps, key).Some? ==> Pair(key, Find(ps, key).value) in ps
  {
    if ps == [] {
    } else {
      FoundIsMember(ps[1..], key);
      assert ps == [ps[0]] + ps[1..];
    }
  }

  /** An equal name that was there before is found first. */
  lemma {:induction false} FirstIsFound<T>(ps: seq<Pair<T>>, p: Pair<T>)
    requires Increasing(ps) && Find(ps, p.key).Some?
    ensures Find(Insert(ps, p), p.key) == Find(ps, p.key)
  {
    if ps[0].key == p.key {
      LessTotal(p.key, p.key);
    } else {
      FoundIsMember(ps[1..], p.key);
      FirstIsLeast(ps, Pair(p.key, Find(ps, p.key).value));
      LessTotal(ps[0].key, p.key);
      FirstIsFound(ps[1..], p);
    }
  }

  /** Inserting puts a member somewhere and leaves the others as they are. */
  lemma {:induction false} InsertPlace<T>(ps: seq<Pair<T>>, p: Pair<T>) returns (j: nat)
    ensures j <= |ps| && Insert(ps, p) == ps[..j] + [p] + ps[j..]
  {
    if ps == [] || Less(p.key, ps[0].key) {
      j := 0;
    } else {
      j := InsertPlace(ps[1..], p);
      j := j + 1;
      assert ps[..j] == [ps[0]] + ps[1..][..j - 1] && ps[j..] == ps[1..][j - 1..];
    }
  }

  // ------------------------------------------------------------------ decimal indices

  function Digits(n: nat): string {
    if n < 10 then [('0' as int + n) as char] else Digits(n / 10) + Digits(n % 10)
  }

  lemma {:induction false} DigitsDiffer(n: nat, m: nat)
    requires Digits(n) == Digits(m)
    ensures n == m
  {
    DigitsShape(n);
    DigitsShape(m);
    if n >= 10 || m >= 10 {
      assert n >= 10 && m >= 10;
      assert Init(Digits(n)) == Digits(n / 10) && Init(Digits(m)) == Digits(m / 10);
      assert Last(Digits(n)) == Digits(n % 10)[0] && Last(Digits(m)) == Digits(m % 10)[0];
      DigitsDiffer(n / 10, m / 10);
    }
  }

  lemma {:induction false} DigitsShape(n: nat)
    ensures |Digits(n)| >= 1 && (|Digits(n)| == 1 <==> n < 10)
    ensures forall c :: c in Digits(n) ==> '0' <= c <= '9'
    ensures n > 0 ==> Digits(n)[0] != '0'
  {
    if n < 10 {
    } else {
      DigitsShape(n / 10);
      DigitsShape(n % 10);
    }
  }

  /** Values under their position, as a name. */
  function Indexed<T>(vs: seq<T>): (ps: seq<Pair<T>>)
    ensures |ps| == |vs| && forall i :: 0 <= i < |vs| ==> ps[i] == Pair(Digits(i), vs[i])
  {
    seq(|vs|, i requires 0 <= i < |vs| => Pair(Digits(i), vs[i]))
  }

  lemma IndexedDistinct<T>(vs: seq<T>)
    ensures DistinctKeys(Indexed(vs))
  {
    var ps := Indexed(vs);
    forall i, j | 0 <= i < j < |ps| ensures ps[i].key != ps[j].key {
      if ps[i].key == ps[j].key {
        DigitsDiffer(i, j);
      }
    }
  }

  function Values<T>(ps: seq<Pair<T>>): (vs: seq<T>)
    ensures |vs| == |ps| && forall i :: 0 <= i < |ps| ==> vs[i] == ps[i].value
  {
    seq(|ps|, i requires 0 <= i < |ps| => ps[i].value)
  }

  function Keys<T>(ps: seq<Pair<T>>): (ks: seq<string>)
    ensures |ks| == |ps| && forall i :: 0 <= i < |ps| ==> ks[i] == ps[i].key
  {
    seq(|ps|, i requires 0 <= i < |ps| => ps[i].key)
  }

  /** What comes back when values are stored by index and read back in the order of the names. */
  function Shuffled<T>(vs: seq<T>): seq<T> {
    Values(Sort(Indexed(vs)))
  }

  /** Up to ten values come back in order. */
  lemma FewStayInOrder<T>(vs: seq<T>)
    requires |vs| <= 10
    ensures Shuffled(vs) == vs
  {
    var ps := Indexed(vs);
    assert Increasing(ps);
    IncreasingSorted(ps);
  }

  lemma LeastFirst<T>(ps: seq<Pair<T>>, p: Pair<T>)
    requires Increasing(ps) && p in ps && forall q :: q in ps ==> q == p || Less(p.key, q.key)
    ensures ps[0] == p
  {
    assert ps[0] in ps;
    FirstIsLeast(ps, p);
    LessTotal(ps[0].key, p.key);
  }

  lemma LeastThree<T>(ps: seq<Pair<T>>, p: Pair<T>, q: Pair<T>, r: Pair<T>)
    requires Increasing(ps) && p in ps && q in ps && r in ps && p != q && q != r && r != p
    requires forall x :: x in ps ==> x == p || Less(p.key, x.key)
    requires forall x :: x in ps ==> x == p || x == q || Less(q.key, x.key)
    requires forall x :: x in ps ==> x == p || x == q || x == r || Less(r.key, x.key)
    ensures |ps| > 2 && ps[2] == r
  {
    hide Less;
    LeastFirst(ps, p);
    var s1 := ps[1..];
    forall x ensures x in s1 <==> x in ps && x != p {
      NotFirst(ps, x);
    }
    LeastFirst(s1, q);
    var s2 := s1[1..];
    forall x ensures x in s2 <==> x in s1 && x != q {
      NotFirst(s1, x);
    }
    LeastFirst(s2, r);
  }

  /** The least three index names are `0`, `1` and `10`. */
  lemma LowNames(i: nat)
    ensures i != 0 ==> Less("0", Digits(i))
    ensures i != 0 && i != 1 ==> Less("1", Digits(i))
    ensures i != 0 && i != 1 && i != 10 ==> Less("10", Digits(i))
  {
    DigitsShape(i);
    var d := Digits(i);
    assert "1"[1..] == "" && "10"[1..] == "0" && "0"[1..] == "";
    if i > 9 {
      assert d[0] in d && d[1] in d;
      if d[0] == '1' && d[1] == '0' && |d| == 2 {
        assert d == "10" == Digits(10);
        DigitsDiffer(i, 10);
      }
      assert d[1..] != "" && (|d| > 2 ==> d[1..][1..] != "");
    }
  }

  /** Beyond ten, the eleventh comes back third. */
  lemma EleventhBecomesThird<T>(vs: seq<T>)
    requires |vs| > 10
    ensures |Shuffled(vs)| == |vs| && Shuffled(vs)[2] == vs[10]
  {
    hide Less, Sort, Increasing;
    var ps := Indexed(vs);
    var ss := Sort(ps);
    IndexedDistinct(vs);
    SortKeeps(ps);
    SortIncreases(ps);
    assert Digits(0) == "0" && Digits(1) == "1" && Digits(10) == "10";
    assert ps[0] in ps && ps[1] in ps && ps[10] in ps;
    forall q | q in ss
      ensures q == ps[0] || Less("0", q.key)
      ensures q == ps[0] || q == ps[1] || Less("1", q.key)
      ensures q == ps[0] || q == ps[1] || q == ps[10] || Less("10", q.key)
    {
      var i :| 0 <= i < |ps| && ps[i] == q;
      LowNames(i);
    }
    assert ps[1].key != ps[0].key && ps[10].key != ps[0].key && ps[10].key != ps[1].key;
    LeastThree(ss, ps[0], ps[1], ps[10]);
  }

  // ------------------------------------------------------------------ the shuffle as a permutation

  function Range(n: nat): (r: seq<nat>)
    ensures |r| == n && forall i :: 0 <= i < n ==> r[i] == i
  {
    seq(n, i => i)
  }

  /** Which index comes back at which place. */
  function Order(n: nat): seq<nat> {
    Shuffled(Range(n))
  }

  ghost predicate Follows<T>(ps: seq<Pair<T>>, qs: seq<Pair<nat>>, vs: seq<T>) {
    && |ps| == |qs|
    && forall k :: 0 <= k < |ps| ==> ps[k].key == qs[k].key && qs[k].value < |vs| && ps[k].value == vs[qs[k].value]
  }

  lemma {:induction false} InsertFollows<T>(ps: seq<Pair<T>>, p: Pair<T>, qs: seq<Pair<nat>>, q: Pair<nat>, vs: seq<T>)
    requires Follows(ps, qs, vs) && p.key == q.key && q.value < |vs| && p.value == vs[q.value]
    ensures Follows(Insert(ps, p), Insert(qs, q), vs)
  {
    if ps != [] && !Less(p.key, ps[0].key) {
      InsertFollows(ps[1..], p, qs[1..], q, vs);
    }
  }

  lemma {:induction false} SortFollows<T>(ps: seq<Pair<T>>, qs: seq<Pair<nat>>, vs: seq<T>)
    requires Follows(ps, qs, vs)
    ensures Follows(Sort(ps), Sort(qs), vs)
  {
    if ps == [] {
    } else {
      SortFollows(Init(ps), Init(qs), vs);
      InsertFollows(Sort(Init(ps)), Last(ps), Sort(Init(qs)), Last(qs), vs);
    }
  }

  /** The shuffle moves values around by a permutation that depends on their number only. */
  lemma ShuffledIs<T>(vs: seq<T>)
    ensures |Shuffled(vs)| == |Order(|vs|)| == |vs|
    ensures forall j :: 0 <= j < |vs| ==> Order(|vs|)[j] < |vs| && Shuffled(vs)[j] == vs[Order(|vs|)[j]]
  {
    SortFollows(Indexed(vs), Indexed(Range(|vs|)), vs);
    SortKeeps(Indexed(vs));
  }

  lemma OrderCovers(n: nat, i: nat)
    requires i < n
    ensures i in Order(n)
  {
    var ps := Indexed(Range(n));
    SortKeeps(ps);
    assert ps[i] in ps && ps[i] in Sort(ps);
    var j :| 0 <= j < |Sort(ps)| && Sort(ps)[j] == ps[i];
    assert Order(n)[j] == i;
  }

  lemma {:induction false} OrderDistinct(n: nat)
    ensures Distinct(Order(n))
  {
    var ps := Indexed(Range(n));
    var ss := Sort(ps);
    IndexedDistinct(Range(n));
    SortKeeps(ps);
    SortIncreases(ps);
    IncreasingDistinct(ss);
    forall j, k | 0 <= j < k < |Order(n)| ensures Order(n)[j] != Order(n)[k] {
      assert ss[j] in ps && ss[k] in ps;
    }
  }
}
