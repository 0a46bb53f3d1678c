/**
 Orders, filtering and stable sorting over sequences.

 `StableSort` stands for Go's `sort.SliceStable`: the lemmas below show that it is a
 sorted permutation that keeps the order of ties, that it commutes with filtering and
 with projections, and that on pairwise distinct keys it does not depend on the order
 of its input.
 */
module Orders {

  // ---------------------------------------------------------------- strings

  /** Go's `<` on strings. Byte order on UTF-8 and code point order agree. */
  predicate StringLess(a: string, b: string) {
    b != [] && (a == [] || a[0] < b[0] || (a[0] == b[0] && StringLess(a[1..], b[1..])))
  }

  lemma {:induction false} StringLessIrreflexive(a: string)
    ensures !StringLess(a, a)
  {
    if a != [] {
      StringLessIrreflexive(a[1..]);
    }
  }

  lemma {:induction false} StringLessTransitive(a: string, b: string, c: string)
    requires StringLess(a, b) && StringLess(b, c)
    ensures StringLess(a, c)
  {
    if a != [] && a[0] == b[0] && b[0] == c[0] {
      StringLessTransitive(a[1..], b[1..], c[1..]);
    }
  }

  lemma {:induction false} StringLessTotal(a: string, b: string)
    ensures a == b || StringLess(a, b) || StringLess(b, a)
  {
    if a != [] && b != [] && a[0] == b[0] {
      StringLessTotal(a[1..], b[1..]);
      assert a == [a[0]] + a[1..] && b == [b[0]] + b[1..];
    }
  }

  /** Place `i` decides: the texts agree before it, and there `a` ends or has the smaller rune. */
  predicate FirstDiffer(a: string, b: string, i: nat) {
    i <= |a| && i < |b| && a[..i] == b[..i] && (i < |a| ==> a[i] < b[i])
  }

  lemma SharedHead(a: string, b: string, i: nat)
    ensures FirstDiffer(a, b, i) && i > 0 ==> a != [] && b != [] && a[0] == b[0]
  {
    if FirstDiffer(a, b, i) && i > 0 { assert a[..i][0] == b[..i][0]; }
  }

  /** The order is the dictionary's. */
  lemma {:induction false} StringLessIsLexicographic(a: string, b: string)
    ensures StringLess(a, b) <==> exists i: nat :: FirstDiffer(a, b, i)
  {
    if a == [] || b == [] || a[0] != b[0] {
      forall i: nat ensures FirstDiffer(a, b, i) && i > 0 ==> a != [] && b != [] && a[0] == b[0] { SharedHead(a, b, i); }
      if StringLess(a, b) { assert FirstDiffer(a, b, 0); }
    } else {
      StringLessIsLexicographic(a[1..], b[1..]);
      if i: nat :| FirstDiffer(a[1..], b[1..], i) {
        assert a[..i + 1] == [a[0]] + a[1..][..i] && b[..i + 1] == [b[0]] + b[1..][..i];
        assert FirstDiffer(a, b, i + 1);
      }
      if i: nat :| FirstDiffer(a, b, i) {
        assert i > 0;
        assert a[1..][..i - 1] == a[..i][1..] && b[1..][..i - 1] == b[..i][1..];
        assert FirstDiffer(a[1..], b[1..], i - 1);
      }
    }
  }

  // ------------------------------------------------------------ weak orders

  /** What `sort.SliceStable` asks of its comparison. */
  ghost predicate StrictWeak<T(!new)>(less: (T, T) -> bool) {
    forall x, y, z :: WeakAt(less, x, y, z)
  }

  /** Irreflexivity, transitivity and transitivity of ties, at three points. */
  predicate WeakAt<T>(less: (T, T) -> bool, x: T, y: T, z: T) {
    && !less(x, x)
    && (less(x, y) && less(y, z) ==> less(x, z))
    && (less(x, z) ==> less(x, y) || less(y, z))
  }

  /** A strict weak order whose only ties are equal values. */
  ghost predicate StrictTotal<T(!new)>(less: (T, T) -> bool) {
    && StrictWeak(less)
    && (forall x, y :: x == y || less(x, y) || less(y, x))
  }

  lemma StringLessIsTotal()
    ensures StrictTotal(StringLess)
  {
    forall x, y, z ensures WeakAt(StringLess, x, y, z) {
      StringLessIrreflexive(x);
      StringLessTotal(x, y);
      if StringLess(x, y) && StringLess(y, z) { StringLessTransitive(x, y, z); }
      if StringLess(x, z) && StringLess(y, x) { StringLessTransitive(y, x, z); }
    }
    forall x, y { StringLessTotal(x, y); }
  }

  lemma StringLessWeak(a: string, b: string, c: string)
    ensures WeakAt(StringLess, a, b, c)
  {
    StringLessIsTotal();
  }

  // ------------------------------------------------------ filter, map, distinct

  function Filter<T>(p: T -> bool, s: seq<T>): (r: seq<T>)
    ensures |r| <= |s|
  {
    if s == [] then []
    else if p(s[0]) then [s[0]] + Filter(p, s[1..])
    else Filter(p, s[1..])
  }

  lemma {:induction false} FilterIn<T>(p: T -> bool, s: seq<T>, x: T)
    ensures x in Filter(p, s) <==> x in s && p(x)
  {
    if s != [] { FilterIn(p, s[1..], x); }
  }

  lemma FilterMembers<T>(p: T -> bool, s: seq<T>)
    ensures forall x :: x in Filter(p, s) ==> x in s && p(x)
    ensures forall x :: x in s && p(x) ==> x in Filter(p, s)
  {
    forall x ensures x in Filter(p, s) <==> x in s && p(x) { FilterIn(p, s, x); }
  }

  function Map<A, B>(f: A -> B, s: seq<A>): (r: seq<B>)
    ensures |r| == |s|
    ensures forall i :: 0 <= i < |s| ==> r[i] == f(s[i])
  {
    if s == [] then [] else [f(s[0])] + Map(f, s[1..])
  }

  predicate Distinct<T(==)>(s: seq<T>) {
    forall i, j :: 0 <= i < j < |s| ==> s[i] != s[j]
  }

  function ToSet<T(==)>(s: seq<T>): (r: set<T>) { set x | x in s }

  lemma {:induction false} FilterConcat<T>(p: T -> bool, a: seq<T>, b: seq<T>)
    ensures Filter(p, a + b) == Filter(p, a) + Filter(p, b)
  {
    if a == [] {
      assert a + b == b;
    } else {
      assert a + b == [a[0]] + (a[1..] + b);
      FilterCons(p, a[0], a[1..] + b);
      FilterConcat(p, a[1..], b);
    }
  }

  lemma FilterCons<T>(p: T -> bool, x: T, s: seq<T>)
    ensures Filter(p, [x] + s) == if p(x) then [x] + Filter(p, s) else Filter(p, s)
  {
    assert ([x] + s)[1..] == s;
  }

  lemma {:induction false} FilterSame<T>(p: T -> bool, q: T -> bool, s: seq<T>)
    requires forall x :: x in s ==> p(x) == q(x)
    ensures Filter(p, s) == Filter(q, s)
  {
    if s != [] { FilterSame(p, q, s[1..]); }
  }

  lemma {:induction false} FilterAll<T>(p: T -> bool, s: seq<T>)
    requires forall x :: x in s ==> p(x)
    ensures Filter(p, s) == s
  {
    if s != [] { FilterAll(p, s[1..]); }
  }

  lemma {:induction false} FilterNone<T>(p: T -> bool, s: seq<T>)
    requires forall x :: x in s ==> !p(x)
    ensures Filter(p, s) == []
  {
    if s != [] { FilterNone(p, s[1..]); }
  }

  lemma {:induction false} FilterTwice<T>(p: T -> bool, q: T -> bool, both: T -> bool, s: seq<T>)
    requires forall x :: x in s ==> both(x) == (p(x) && q(x))
    ensures Filter(p, Filter(q, s)) == Filter(both, s)
  {
    if s != [] {
      var tail := s[1..];
      FilterTwice(p, q, both, tail);
      FilterCons(p, s[0], Filter(q, tail));
    }
  }

  lemma {:induction false} FilterMultiset<T>(p: T -> bool, s: seq<T>, x: T)
    ensures multiset(Filter(p, s))[x] == if p(x) then multiset(s)[x] else 0
  {
    if s != [] {
      FilterMultiset(p, s[1..], x);
      assert s == [s[0]] + s[1..];
    }
  }

  lemma {:induction false} FilterDistinct<T>(p: T -> bool, s: seq<T>)
    requires Distinct(s)
    ensures Distinct(Filter(p, s))
  {
    if s != [] {
      FilterDistinct(p, s[1..]);
      FilterIn(p, s[1..], s[0]);
      assert s[0] !in s[1..];
    }
  }

  /** Filtering a projection is projecting a filter. */
  lemma {:induction false} FilterMap<A, B>(f: A -> B, p: B -> bool, q: A -> bool, s: seq<A>)
    requires forall x :: x in s ==> q(x) == p(f(x))
    ensures Filter(p, Map(f, s)) == Map(f, Filter(q, s))
  {
    if s != [] { FilterMap(f, p, q, s[1..]); }
  }

  lemma MapConcat<A, B>(f: A -> B, a: seq<A>, b: seq<A>)
    ensures Map(f, a + b) == Map(f, a) + Map(f, b)
  {
  }

  lemma MapSplit<A, B>(f: A -> B, pre: seq<A>, x: A, post: seq<A>)
    ensures multiset(Map(f, pre + [x] + post)) == multiset(Map(f, pre + post)) + multiset{f(x)}
  {
    MapConcat(f, pre, post);
    MapConcat(f, pre + [x], post);
    MapConcat(f, pre, [x]);
    assert Map(f, [x]) == [f(x)];
  }

  lemma {:induction false} MapMultiset<A, B>(f: A -> B, a: seq<A>, b: seq<A>)
    requires multiset(a) == multiset(b)
    ensures multiset(Map(f, a)) == multiset(Map(f, b))
  {
    if a == [] {
      MemberOfPermutation(a, b);
    } else {
      var n := |a| - 1;
      assert a == a[..n] + [a[n]];
      var pre, post := TakeOut(a[..n], a[n], b);
      MapMultiset(f, a[..n], pre + post);
      MapSplit(f, pre, a[n], post);
      MapConcat(f, a[..n], [a[n]]);
      assert Map(f, [a[n]]) == [f(a[n])];
    }
  }

  lemma DistinctSnoc<T>(s: seq<T>, x: T)
    ensures Distinct(s + [x]) <==> Distinct(s) && x !in s
    ensures ToSet(s + [x]) == ToSet(s) + {x}
  {
    var all := s + [x];
    assert all[|s|] == x && forall i :: 0 <= i < |s| ==> all[i] == s[i];
  }

  lemma DistinctConcat<T>(a: seq<T>, b: seq<T>)
    requires forall x :: x in a ==> x !in b
    ensures Distinct(a + b) <==> Distinct(a) && Distinct(b)
  {
    var all := a + b;
    if Distinct(all) {
      forall i, j | 0 <= i < j < |b| ensures b[i] != b[j] { assert all[|a| + i] == b[i] && all[|a| + j] == b[j]; }
      forall i, j | 0 <= i < j < |a| ensures a[i] != a[j] { assert all[i] == a[i] && all[j] == a[j]; }
    }
    if Distinct(a) && Distinct(b) {
      forall i, j | 0 <= i < j < |all| ensures all[i] != all[j] {
        assert i < |a| ==> all[i] in a;
        assert j >= |a| ==> all[j] in b;
      }
    }
  }

  lemma DistinctSplit<T>(s: seq<T>, k: nat)
    requires Distinct(s) && k <= |s|
    ensures forall x :: x in s[k..] ==> x !in s[..k]
  {
    forall x | x in s[k..] ensures x !in s[..k] {
      var a :| 0 <= a < |s[k..]| && s[k..][a] == x;
      assert s[k + a] == x;
    }
  }

  lemma DistinctPrefix<T>(s: seq<T>, i: nat)
    requires i <= |s|
    ensures Distinct(s) ==> Distinct(s[..i])
  {
  }

  /** Item `p` is `x`, and `y` does not occur up to there. */
  predicate MetAt<T(==)>(all: seq<T>, p: nat, x: T, y: T) {
    p < |all| && all[p] == x && y !in all[..p + 1]
  }

  ghost predicate MetBefore<T>(all: seq<T>, x: T, y: T) { exists p: nat :: MetAt(all, p, x, y) }

  /** `rs` lists the members of `all` once each, in the order they are first met. */
  ghost predicate InFirstOrder<T>(rs: seq<T>, all: seq<T>) {
    && Distinct(rs)
    && (forall x :: x in rs ==> x in all) && (forall x :: x in all ==> x in rs)
    && (forall i, j :: 0 <= i < j < |rs| ==> MetBefore(all, rs[i], rs[j]))
  }

  lemma StillMetBefore<T>(all: seq<T>, n: T, x: T, y: T)
    requires MetBefore(all, x, y)
    ensures MetBefore(all + [n], x, y)
  {
    var p: nat :| MetAt(all, p, x, y);
    assert (all + [n])[..p + 1] == all[..p + 1];
    assert MetAt(all + [n], p, x, y);
  }

  lemma NewIsMetLast<T>(all: seq<T>, x: T, y: T)
    requires x in all && y !in all
    ensures MetBefore(all + [y], x, y)
  {
    var p: nat :| p < |all| && all[p] == x;
    assert (all + [y])[..p + 1] == all[..p + 1];
    assert MetAt(all + [y], p, x, y);
  }

  lemma FirstOrderSnoc<T>(rs: seq<T>, all: seq<T>, x: T)
    requires InFirstOrder(rs, all)
    ensures InFirstOrder(if x in rs then rs else rs + [x], all + [x])
  {
    var out := if x in rs then rs else rs + [x];
    DistinctSnoc(rs, x);
    forall i, j | 0 <= i < j < |out| ensures MetBefore(all + [x], out[i], out[j]) {
      if j < |rs| {
        StillMetBefore(all, x, rs[i], rs[j]);
      } else {
        assert rs[i] in rs;
        NewIsMetLast(all, rs[i], x);
      }
    }
  }

  lemma DistinctMultiset<T>(s: seq<T>)
    ensures Distinct(s) <==> forall x :: multiset(s)[x] <= 1
  {
    if Distinct(s) {
      forall x ensures multiset(s)[x] <= 1 { DistinctCount(s, x); }
    } else {
      var i, j :| 0 <= i < j < |s| && s[i] == s[j];
      assert s == s[..j] + [s[j]] + s[j + 1..];
      assert s[..j] == s[..i] + [s[i]] + s[i + 1..j];
      assert multiset(s)[s[i]] >= 2;
    }
  }

  lemma {:induction false} DistinctCount<T>(s: seq<T>, x: T)
    requires Distinct(s)
    ensures multiset(s)[x] == if x in s then 1 else 0
  {
    if s != [] {
      DistinctCount(s[1..], x);
      assert s == [s[0]] + s[1..];
      assert s[0] !in s[1..];
    }
  }

  lemma {:induction false} DistinctSize<T>(s: seq<T>)
    requires Distinct(s)
    ensures |ToSet(s)| == |s|
  {
    if s != [] {
      DistinctSize(s[1..]);
      assert s[0] !in s[1..];
      assert ToSet(s) == {s[0]} + ToSet(s[1..]);
    }
  }

  lemma DistinctSubset<T>(a: seq<T>, b: seq<T>)
    requires Distinct(a)
    ensures ToSet(a) <= ToSet(b) <==> multiset(a) <= multiset(b)
  {
    if ToSet(a) <= ToSet(b) {
      forall x ensures multiset(a)[x] <= multiset(b)[x] {
        DistinctCount(a, x);
        if x in a {
          assert x in ToSet(b);
          assert x in multiset(b);
        }
      }
    }
    if multiset(a) <= multiset(b) {
      forall x | x in ToSet(a) ensures x in ToSet(b) {
        assert x in multiset(a);
        assert x in multiset(b);
      }
    }
  }

  /** On duplicate-free sequences the multiset says no more than the set. */
  lemma DistinctSameSet<T>(a: seq<T>, b: seq<T>)
    requires Distinct(a) && Distinct(b)
    ensures ToSet(a) == ToSet(b) <==> multiset(a) == multiset(b)
    ensures ToSet(a) <= ToSet(b) <==> multiset(a) <= multiset(b)
  {
    DistinctSubset(a, b);
    DistinctSubset(b, a);
    assert ToSet(a) == ToSet(b) <==> ToSet(a) <= ToSet(b) && ToSet(b) <= ToSet(a);
    assert multiset(a) == multiset(b) <==> multiset(a) <= multiset(b) && multiset(b) <= multiset(a);
  }

  // ------------------------------------------------------------ stable sort

  function Insert<T>(less: (T, T) -> bool, x: T, s: seq<T>): (r: seq<T>)
    ensures |r| == |s| + 1
  {
    if s == [] then [x]
    else if less(s[0], x) then [s[0]] + Insert(less, x, s[1..])
    else [x] + s
  }

  lemma {:induction false} InsertPermutes<T>(less: (T, T) -> bool, x: T, s: seq<T>)
    ensures multiset(Insert(less, x, s)) == multiset(s) + multiset{x}
  {
    if s != [] && less(s[0], x) {
      InsertPermutes(less, x, s[1..]);
      assert s == [s[0]] + s[1..];
    }
  }

  function StableSort<T>(less: (T, T) -> bool, s: seq<T>): (r: seq<T>)
    ensures |r| == |s|
  {
    if s == [] then [] else Insert(less, s[0], StableSort(less, s[1..]))
  }

  lemma {:induction false} SortPermutes<T>(less: (T, T) -> bool, s: seq<T>)
    ensures multiset(StableSort(less, s)) == multiset(s)
  {
    if s != [] {
      SortPermutes(less, s[1..]);
      InsertPermutes(less, s[0], StableSort(less, s[1..]));
      assert s == [s[0]] + s[1..];
    }
  }

  lemma SortMembers<T>(less: (T, T) -> bool, s: seq<T>)
    ensures forall x :: x in StableSort(less, s) <==> x in s
  {
    SortPermutes(less, s);
    MemberOfPermutation(StableSort(less, s), s);
  }

  ghost predicate Sorted<T>(less: (T, T) -> bool, s: seq<T>) {
    forall i, j :: 0 <= i < j < |s| ==> !less(s[j], s[i])
  }

  lemma MemberOfPermutation<T>(a: seq<T>, b: seq<T>)
    requires multiset(a) == multiset(b)
    ensures |a| == |b|
    ensures forall x :: x in a <==> x in b
  {
    assert |a| == |multiset(a)| == |multiset(b)| == |b|;
    forall x ensures x in a <==> x in b {
      assert x in a <==> x in multiset(a);
      assert x in b <==> x in multiset(b);
    }
  }

  /** A permutation of `s + [x]` is some `pre + [x] + post` with `pre + post` a permutation of `s`. */
  lemma TakeOut<T>(s: seq<T>, x: T, b: seq<T>) returns (pre: seq<T>, post: seq<T>)
    requires multiset(s + [x]) == multiset(b)
    ensures b == pre + [x] + post && multiset(pre + post) == multiset(s)
  {
    MemberOfPermutation(s + [x], b);
    assert (s + [x])[|s|] == x;
    assert x in b;
    var i :| 0 <= i < |b| && b[i] == x;
    pre, post := b[..i], b[i + 1..];
    assert b == pre + [x] + post;
    assert multiset(pre + post) == multiset(b) - multiset{x};
    assert multiset(s) == multiset(s + [x]) - multiset{x};
  }

  lemma {:induction false} InsertSorted<T(!new)>(less: (T, T) -> bool, x: T, s: seq<T>)
    requires StrictWeak(less) && Sorted(less, s)
    ensures Sorted(less, Insert(less, x, s))
  {
    if s != [] {
      var tail := s[1..];
      if less(s[0], x) {
        InsertSorted(less, x, tail);
        var r := Insert(less, x, tail);
        InsertPermutes(less, x, tail);
        forall y | y in r ensures !less(y, s[0]) {
          assert y in multiset(r);
          assert y == x || y in tail;
          assert WeakAt(less, s[0], x, s[0]);
        }
      } else {
        forall j | 0 <= j < |s| ensures !less(s[j], x) {
          assert WeakAt(less, s[j], s[0], x);
        }
      }
    }
  }

  lemma {:induction false} SortSorted<T(!new)>(less: (T, T) -> bool, s: seq<T>)
    requires StrictWeak(less)
    ensures Sorted(less, StableSort(less, s))
  {
    if s != [] {
      SortSorted(less, s[1..]);
      InsertSorted(less, s[0], StableSort(less, s[1..]));
    }
  }

  lemma InsertCons<T>(less: (T, T) -> bool, x: T, y: T, s: seq<T>)
    ensures Insert(less, x, [y] + s) == if less(y, x) then [y] + Insert(less, x, s) else [x, y] + s
  {
    assert ([y] + s)[1..] == s;
    assert [x] + ([y] + s) == [x, y] + s;
  }

  lemma InsertFront<T>(less: (T, T) -> bool, x: T, s: seq<T>)
    requires s == [] || !less(s[0], x)
    ensures Insert(less, x, s) == [x] + s
  {
  }

  lemma {:induction false} FilterInsert<T(!new)>(less: (T, T) -> bool, p: T -> bool, x: T, s: seq<T>)
    requires StrictWeak(less) && Sorted(less, s)
    ensures Filter(p, Insert(less, x, s)) == if p(x) then Insert(less, x, Filter(p, s)) else Filter(p, s)
  {
    if s != [] {
      var tail := s[1..];
      if less(s[0], x) {
        FilterInsert(less, p, x, tail);
        FilterCons(p, s[0], Insert(less, x, tail));
        InsertCons(less, x, s[0], Filter(p, tail));
      } else {
        FilterCons(p, x, s);
        if p(x) && Filter(p, s) != [] {
          var y := Filter(p, s)[0];
          FilterIn(p, s, y);
          var k :| 0 <= k < |s| && s[k] == y;
          assert WeakAt(less, y, s[0], x);
        }
      }
    }
  }

  lemma SortCons<T>(less: (T, T) -> bool, x: T, s: seq<T>)
    ensures StableSort(less, [x] + s) == Insert(less, x, StableSort(less, s))
  {
    assert ([x] + s)[1..] == s;
  }

  /** A stable sort commutes with dropping elements. */
  lemma {:induction false} FilterSort<T(!new)>(less: (T, T) -> bool, p: T -> bool, s: seq<T>)
    requires StrictWeak(less)
    ensures Filter(p, StableSort(less, s)) == StableSort(less, Filter(p, s))
  {
    if s != [] {
      var tail := s[1..];
      FilterSort(less, p, tail);
      SortSorted(less, tail);
      FilterInsert(less, p, s[0], StableSort(less, tail));
      SortCons(less, s[0], Filter(p, tail));
    }
  }

  /** Sorting a sorted sequence changes nothing. */
  lemma {:induction false} SortOfSorted<T>(less: (T, T) -> bool, s: seq<T>)
    requires Sorted(less, s)
    ensures StableSort(less, s) == s
  {
    if s != [] {
      SortOfSorted(less, s[1..]);
      InsertFront(less, s[0], s[1..]);
    }
  }

  /** The elements tied with `v`. */
  function TiedWith<T>(less: (T, T) -> bool, v: T): T -> bool { (x: T) => !less(x, v) && !less(v, x) }

  /** Stability: the elements tied with any value keep their input order. */
  lemma SortKeepsTies<T(!new)>(less: (T, T) -> bool, s: seq<T>, v: T)
    requires StrictWeak(less)
    ensures Filter(TiedWith(less, v), StableSort(less, s)) == Filter(TiedWith(less, v), s)
  {
    var tied := TiedWith(less, v);
    FilterSort(less, tied, s);
    FilterMembers(tied, s);
    forall x, y | x in Filter(tied, s) && y in Filter(tied, s) ensures !less(x, y) {
      assert WeakAt(less, x, v, y);
    }
    SortOfSorted(less, Filter(tied, s));
  }

  lemma {:induction false} MapInsert<A(!new), B(!new)>(lessA: (A, A) -> bool, lessB: (B, B) -> bool, f: A -> B, x: A, s: seq<A>)
    requires forall a, b :: lessA(a, b) == lessB(f(a), f(b))
    ensures Map(f, Insert(lessA, x, s)) == Insert(lessB, f(x), Map(f, s))
  {
    if s != [] {
      MapInsert(lessA, lessB, f, x, s[1..]);
      assert Map(f, s)[1..] == Map(f, s[1..]);
    }
  }

  /** Sorting a projection is projecting the sort, when the comparison sees only the projection. */
  lemma {:induction false} MapSort<A(!new), B(!new)>(lessA: (A, A) -> bool, lessB: (B, B) -> bool, f: A -> B, s: seq<A>)
    requires forall a, b :: lessA(a, b) == lessB(f(a), f(b))
    ensures Map(f, StableSort(lessA, s)) == StableSort(lessB, Map(f, s))
  {
    if s != [] {
      MapSort(lessA, lessB, f, s[1..]);
      MapInsert(lessA, lessB, f, s[0], StableSort(lessA, s[1..]));
      assert Map(f, s)[1..] == Map(f, s[1..]);
    }
  }

  /** No two different members are tied. */
  ghost predicate NoTies<T>(less: (T, T) -> bool, s: seq<T>) {
    forall x, y :: x in s && y in s && x != y ==> less(x, y) || less(y, x)
  }

  lemma SortedHeads<T(!new)>(less: (T, T) -> bool, a: seq<T>, b: seq<T>)
    requires Sorted(less, a) && Sorted(less, b) && multiset(a) == multiset(b)
    requires NoTies(less, a) && a != []
    ensures b != [] && a[0] == b[0]
  {
    MemberOfPermutation(a, b);
    assert a[0] in b && b[0] in a;
    var i :| 0 <= i < |a| && a[i] == b[0];
    var j :| 0 <= j < |b| && b[j] == a[0];
    assert i > 0 ==> !less(a[i], a[0]);
    assert j > 0 ==> !less(b[j], b[0]);
  }

  lemma TailMultiset<T>(s: seq<T>)
    requires s != []
    ensures multiset(s[1..]) == multiset(s) - multiset{s[0]}
  {
    assert s == [s[0]] + s[1..];
  }

  /** Two sorted sequences of the same elements, no two of them tied, are one sequence. */
  lemma {:induction false} SortedUnique<T(!new)>(less: (T, T) -> bool, a: seq<T>, b: seq<T>)
    requires Sorted(less, a) && Sorted(less, b) && multiset(a) == multiset(b) && NoTies(less, a)
    ensures a == b
  {
    if a == [] {
      MemberOfPermutation(a, b);
    } else {
      SortedHeads(less, a, b);
      TailMultiset(a);
      TailMultiset(b);
      SortedUnique(less, a[1..], b[1..]);
      assert a == [a[0]] + a[1..] && b == [b[0]] + b[1..];
    }
  }

  /** When no two elements tie, the sort does not depend on the input order. */
  lemma SortOfPermutation<T(!new)>(less: (T, T) -> bool, a: seq<T>, b: seq<T>)
    requires StrictWeak(less) && multiset(a) == multiset(b) && NoTies(less, a)
    ensures StableSort(less, a) == StableSort(less, b)
  {
    SortSorted(less, a);
    SortSorted(less, b);
    SortPermutes(less, a);
    SortPermutes(less, b);
    SortMembers(less, a);
    SortedUnique(less, StableSort(less, a), StableSort(less, b));
  }
}
