/** Filtering, mapping, counting and sorting of sequences, as the array methods of the source do them, and
    what else several modules need. */
module Seqs {

  function Filter<T>(s: seq<T>, p: T -> bool): seq<T> {
    if s == [] then []
    else if p(s[0]) then [s[0]] + Filter(s[1..], p)
    else Filter(s[1..], p)
  }

  function Map<T, U>(s: seq<T>, f: T -> U): seq<U> {
    seq(|s|, i requires 0 <= i < |s| => f(s[i]))
  }

  lemma {:induction false} FilterIn<T(!new)>(s: seq<T>, p: T -> bool)
    ensures forall x :: x in Filter(s, p) <==> x in s && p(x)
  {
    if s != [] {
      FilterIn(s[1..], p);
      assert s == [s[0]] + s[1..];
    }
  }

  lemma MapIn<T(!new), U(!new)>(s: seq<T>, f: T -> U)
    ensures forall y :: y in Map(s, f) <==> exists x :: x in s && f(x) == y
  {
    forall y | y in Map(s, f) ensures exists x :: x in s && f(x) == y {
      var i :| 0 <= i < |s| && Map(s, f)[i] == y;
      assert s[i] in s && f(s[i]) == y;
    }
    forall x | x in s ensures f(x) in Map(s, f) {
      var i :| 0 <= i < |s| && s[i] == x;
      assert Map(s, f)[i] == f(x);
    }
  }

  /** One more element of a scan that filters and converts. */
  lemma ScanPush<T(!new), U(!new)>(s: seq<T>, x: T, p: T -> bool, f: T -> U)
    ensures Map(Filter(s + [x], p), f) == Map(Filter(s, p), f) + if p(x) then [f(x)] else []
  {
    FilterPush(s, x, p);
  }

  lemma {:induction false} FilterConcat<T(!new)>(a: seq<T>, b: seq<T>, p: T -> bool)
    ensures Filter(a + b, p) == Filter(a, p) + Filter(b, p)
  {
    if a == [] {
      assert a + b == b;
    } else {
      FilterConcat(a[1..], b, p);
      assert (a + b)[1..] == a[1..] + b;
    }
  }

  lemma {:induction false} FilterPush<T(!new)>(a: seq<T>, x: T, p: T -> bool)
    ensures Filter(a + [x], p) == Filter(a, p) + if p(x) then [x] else []
  {
    FilterConcat(a, [x], p);
    assert [x][1..] == [];
  }

  lemma {:induction false} FilterAgrees<T(!new)>(s: seq<T>, p: T -> bool, q: T -> bool)
    requires forall x :: x in s ==> p(x) == q(x)
    ensures Filter(s, p) == Filter(s, q)
  {
    if s != [] {
      FilterAgrees(s[1..], p, q);
    }
  }

  lemma {:induction false} FilterAll<T(!new)>(s: seq<T>, p: T -> bool)
    requires forall x :: x in s ==> p(x)
    ensures Filter(s, p) == s
  {
    if s != [] {
      FilterAll(s[1..], p);
    }
  }

  lemma FilterCons<T(!new)>(x: T, s: seq<T>, p: T -> bool)
    ensures Filter([x] + s, p) == if p(x) then [x] + Filter(s, p) else Filter(s, p)
  {
    assert ([x] + s)[1..] == s;
  }

  lemma MapCons<T(!new), U(!new)>(x: T, s: seq<T>, f: T -> U)
    ensures Map([x] + s, f) == [f(x)] + Map(s, f)
  {
  }

  lemma MapConcat<T(!new), U(!new)>(a: seq<T>, b: seq<T>, f: T -> U)
    ensures Map(a + b, f) == Map(a, f) + Map(b, f)
  {
  }

  /** Filtering by `q` and then by `p`, then mapping, is mapping first and filtering by `r`. */
  lemma {:induction false} FilterMapCommutes<T(!new), U(!new)>(
    s: seq<T>, p: T -> bool, q: T -> bool, f: T -> U, g: T -> U, r: U -> bool)
    requires forall x :: x in s && p(x) ==> q(x) == r(f(x))
    requires forall x :: x in s && p(x) && q(x) ==> g(x) == f(x)
    ensures Map(Filter(Filter(s, q), p), g) == Filter(Map(Filter(s, p), f), r)
  {
    if s != [] {
      var x, rest := s[0], s[1..];
      FilterMapCommutes(rest, p, q, f, g, r);
      FilterCons(x, Filter(rest, q), p);
      MapCons(x, Filter(Filter(rest, q), p), g);
      MapCons(x, Filter(rest, p), f);
      FilterCons(f(x), Map(Filter(rest, p), f), r);
    }
  }

  ghost predicate TotalOrder<T(!new)>(leq: (T, T) -> bool) {
    && (forall x, y :: leq(x, y) || leq(y, x))
    && (forall x, y, z :: leq(x, y) && leq(y, z) ==> leq(x, z))
  }

  ghost predicate Sorted<T(!new)>(s: seq<T>, leq: (T, T) -> bool) {
    forall i, j :: 0 <= i < j < |s| ==> leq(s[i], s[j])
  }

  function Insert<T(!new)>(x: T, s: seq<T>, leq: (T, T) -> bool): seq<T> {
    if s == [] || leq(x, s[0]) then [x] + s else [s[0]] + Insert(x, s[1..], leq)
  }

  /** A stable sort: equivalent elements keep their order. */
  function Sort<T(!new)>(s: seq<T>, leq: (T, T) -> bool): seq<T> {
    if s == [] then [] else Insert(s[0], Sort(s[1..], leq), leq)
  }

  lemma {:induction false} InsertSorts<T(!new)>(x: T, s: seq<T>, leq: (T, T) -> bool)
    requires TotalOrder(leq) && Sorted(s, leq)
    ensures Sorted(Insert(x, s, leq), leq)
    ensures multiset(Insert(x, s, leq)) == multiset(s) + multiset{x}
  {
    if s == [] || leq(x, s[0]) {
    } else {
      InsertSorts(x, s[1..], leq);
      var r := Insert(x, s[1..], leq);
      assert s == [s[0]] + s[1..];
      assert multiset(s) == multiset{s[0]} + multiset(s[1..]);
      forall i | 0 <= i < |r| ensures leq(s[0], r[i]) {
        assert r[i] in multiset(r);
        assert r[i] == x || r[i] in s[1..];
      }
    }
  }

  lemma {:induction false} SortSorts<T(!new)>(s: seq<T>, leq: (T, T) -> bool)
    requires TotalOrder(leq)
    ensures Sorted(Sort(s, leq), leq) && multiset(Sort(s, leq)) == multiset(s)
    ensures |Sort(s, leq)| == |s| && forall x :: x in Sort(s, leq) <==> x in s
  {
    if s != [] {
      SortSorts(s[1..], leq);
      InsertSorts(s[0], Sort(s[1..], leq), leq);
      assert s == [s[0]] + s[1..];
    }
    var r := Sort(s, leq);
    assert |multiset(r)| == |multiset(s)|;
    forall x ensures x in r <==> x in s {
      assert x in r <==> x in multiset(r);
    }
  }

  ghost predicate Distinct<T>(s: seq<T>) {
    forall i, j :: 0 <= i < j < |s| ==> s[i] != s[j]
  }

  lemma {:induction false} FilterDistinct<T(!new)>(s: seq<T>, p: T -> bool)
    requires Distinct(s)
    ensures Distinct(Filter(s, p))
  {
    if s != [] {
      FilterDistinct(s[1..], p);
      FilterIn(s[1..], p);
      assert s[0] !in s[1..];
    }
  }

  lemma {:induction false} InsertDistinct<T(!new)>(x: T, s: seq<T>, leq: (T, T) -> bool)
    requires Distinct(s) && x !in s
    ensures Distinct(Insert(x, s, leq))
    ensures forall y :: y in Insert(x, s, leq) <==> y == x || y in s
  {
    if s == [] || leq(x, s[0]) {
    } else {
      InsertDistinct(x, s[1..], leq);
      assert s == [s[0]] + s[1..];
      var r := Insert(x, s[1..], leq);
      assert s[0] !in s[1..] && s[0] !in r;
      assert Insert(x, s, leq) == [s[0]] + r;
    }
  }

  lemma {:induction false} SortDistinct<T(!new)>(s: seq<T>, leq: (T, T) -> bool)
    requires Distinct(s)
    ensures Distinct(Sort(s, leq)) && forall x :: x in Sort(s, leq) <==> x in s
  {
    if s != [] {
      SortDistinct(s[1..], leq);
      assert s == [s[0]] + s[1..];
      assert s[0] !in s[1..];
      InsertDistinct(s[0], Sort(s[1..], leq), leq);
    }
  }

  function Elements<T>(s: seq<T>): set<T> {
    set x | x in s
  }

  /** Counting the different elements detects repetition. */
  lemma {:induction false} DistinctByCount<T>(s: seq<T>)
    ensures |Elements(s)| <= |s|
    ensures |Elements(s)| == |s| <==> Distinct(s)
  {
    if s != [] {
      var front, last := s[..|s| - 1], s[|s| - 1];
      assert s == front + [last];
      DistinctByCount(front);
      assert Elements(s) == Elements(front) + {last};
      if last in front {
        assert Elements(s) == Elements(front);
        var i :| 0 <= i < |front| && front[i] == last;
        assert s[i] == s[|front|];
      } else {
        assert |Elements(s)| == |Elements(front)| + 1;
        assert Distinct(s) ==> Distinct(front) by {
          assert forall i :: 0 <= i < |front| ==> front[i] == s[i];
        }
      }
    }
  }

  function Count<T>(s: seq<T>, p: T -> bool): nat {
    |Filter(s, p)|
  }

  lemma {:induction false} CountIsPartial<T(!new)>(s: seq<T>, p: T -> bool)
    ensures Count(s, p) <= |s|
    ensures Count(s, p) == |s| <==> forall x :: x in s ==> p(x)
  {
    if s != [] {
      CountIsPartial(s[1..], p);
      assert forall x :: x in s <==> x == s[0] || x in s[1..];
    }
  }

  lemma {:induction false} CountSplits<T(!new)>(s: seq<T>, p: T -> bool, q: T -> bool, r: T -> bool)
    requires forall x :: x in s ==> (p(x) <==> q(x) || r(x)) && !(q(x) && r(x))
    ensures Count(s, p) == Count(s, q) + Count(s, r)
  {
    if s != [] {
      CountSplits(s[1..], p, q, r);
      assert forall x :: x in s[1..] ==> x in s;
    }
  }

  lemma {:induction false} CountFiltered<T(!new)>(s: seq<T>, p: T -> bool, q: T -> bool, r: T -> bool)
    requires forall x :: x in s ==> (p(x) <==> q(x) && r(x))
    ensures Count(s, p) == Count(Filter(s, q), r)
  {
    if s != [] {
      CountFiltered(s[1..], p, q, r);
      assert forall x :: x in s[1..] ==> x in s;
      if q(s[0]) {
        assert ([s[0]] + Filter(s[1..], q))[1..] == Filter(s[1..], q);
      }
    }
  }

  lemma CountConcat<T(!new)>(a: seq<T>, b: seq<T>, p: T -> bool)
    ensures Count(a + b, p) == Count(a, p) + Count(b, p)
  {
    FilterConcat(a, b, p);
  }

  lemma {:induction false} CountMap<T(!new), U(!new)>(s: seq<T>, f: T -> U, p: T -> bool, q: U -> bool)
    requires forall x :: x in s ==> p(x) == q(f(x))
    ensures Count(Map(s, f), q) == Count(s, p)
  {
    if s != [] {
      CountMap(s[1..], f, p, q);
      assert Map(s, f)[1..] == Map(s[1..], f);
    }
  }

  lemma CountPositive<T(!new)>(s: seq<T>, p: T -> bool)
    ensures Count(s, p) > 0 <==> exists x :: x in s && p(x)
  {
    FilterIn(s, p);
    if Count(s, p) > 0 {
      assert Filter(s, p)[0] in Filter(s, p);
    }
  }

  lemma CountNone<T(!new)>(s: seq<T>, p: T -> bool)
    requires forall x :: x in s ==> !p(x)
    ensures Count(s, p) == 0
  {
    CountPositive(s, p);
  }

  /** Filtering keeps different keys different. */
  lemma {:induction false} FilterKeepsKeysDistinct<T(!new), K(!new)>(s: seq<T>, f: T -> K, p: T -> bool)
    requires Distinct(Map(s, f))
    ensures Distinct(Map(Filter(s, p), f))
  {
    if s != [] {
      var rest := s[1..];
      assert s == [s[0]] + rest;
      MapCons(s[0], rest, f);
      assert Map(s, f)[1..] == Map(rest, f) && Map(s, f)[0] == f(s[0]);
      FilterKeepsKeysDistinct(rest, f, p);
      FilterIn(rest, p);
      MapIn(rest, f);
      MapIn(Filter(rest, p), f);
      assert f(s[0]) !in Map(rest, f);
      MapCons(s[0], Filter(rest, p), f);
    }
  }

  /** Two sequences that agree, under different keys, on which elements satisfy a condition. */
  lemma CountsMatch<T(!new), U(!new), K(!new)>(
    s: seq<T>, u: seq<U>, f: T -> K, g: U -> K, p: T -> bool, q: U -> bool)
    requires Distinct(Map(s, f)) && Distinct(Map(u, g))
    requires forall x :: x in s && p(x) ==> exists y :: y in u && q(y) && g(y) == f(x)
    requires forall y :: y in u && q(y) ==> exists x :: x in s && p(x) && f(x) == g(y)
    ensures Count(s, p) == Count(u, q)
  {
    var a, b := Map(Filter(s, p), f), Map(Filter(u, q), g);
    FilterKeepsKeysDistinct(s, f, p);
    FilterKeepsKeysDistinct(u, g, q);
    FilterIn(s, p);
    FilterIn(u, q);
    MapIn(Filter(s, p), f);
    MapIn(Filter(u, q), g);
    assert Elements(a) == Elements(b);
    DistinctByCount(a);
    DistinctByCount(b);
  }

  /** A map's value for a key, or `none` where it has none. */
  function Get<T>(m: map<string, T>, key: string, none: T): T {
    if key in m then m[key] else none
  }

  function Min(a: nat, b: nat): nat {
    if a < b then a else b
  }
}
