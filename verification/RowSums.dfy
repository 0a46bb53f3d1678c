/**
 What a reviewer row adds up to, said without the accumulator: costs added in order,
 outcomes counted by word, and the middle of the latencies.
 */
module RowSums {
  import opened Basics
  import opened Orders
  import opened Benchmark
  import opened DebtFold
  import opened ReviewerFold
  import opened RunReport

  /** Costs added from zero, in the order given. */
  function Spent(add: AddCost, costs: seq<real>): real {
    if costs == [] then 0.0 else add(Spent(add, costs[..|costs| - 1]), costs[|costs| - 1])
  }

  lemma SpentSnoc(add: AddCost, costs: seq<real>, c: real)
    ensures Spent(add, costs + [c]) == add(Spent(add, costs), c)
  {
    assert (costs + [c])[..|costs|] == costs;
  }

  /** An outcome is counted under its own word, and the empty one as `unknown`. */
  predicate CountsAs(outcome: string, word: string) {
    word != "" && (outcome == word || (outcome == "" && word == "unknown"))
  }

  function CountAt(counts: map<string, int>, word: string): int { if word in counts then counts[word] else 0 }

  /** Bumping an outcome's word bumps exactly the word it counts as. */
  lemma BumpCounts(counts: map<string, int>, outcome: string, word: string)
    requires word != ""
    ensures CountAt(Bump(counts, OutcomeTallyKey(outcome)), word) == CountAt(counts, word) + if CountsAs(outcome, word) then 1 else 0
  {
  }

  /** By model, then by persona. */
  predicate PublicLess(a: ReviewerKey, b: ReviewerKey) {
    StringLess(a.model, b.model) || (a.model == b.model && StringLess(a.persona, b.persona))
  }

  // ------------------------------------------------------------------ the median

  function Below(x: int): int -> bool { (v: int) => v < x }

  function Above(x: int): int -> bool { (v: int) => v > x }

  /** `x` is one of the values and stands at place `r` when they are put in order. */
  ghost predicate StandsAt(vs: seq<int>, r: int, x: int) {
    x in vs && |Filter(Below(x), vs)| <= r < |vs| - |Filter(Above(x), vs)|
  }

  /** The middle value, or the floor of the mean of the two middle ones; none is zero. */
  ghost predicate IsMiddle(vs: seq<int>, m: int) {
    if vs == [] then m == 0
    else if |vs| % 2 == 1 then StandsAt(vs, |vs| / 2, m)
    else exists lo, hi :: AreMiddle(vs, lo, hi) && m == (lo + hi) / 2
  }

  ghost predicate AreMiddle(vs: seq<int>, lo: int, hi: int) {
    StandsAt(vs, |vs| / 2 - 1, lo) && StandsAt(vs, |vs| / 2, hi)
  }

  lemma SortedBelow(s: seq<int>, r: nat)
    requires Sorted(IntLess, s) && r < |s|
    ensures |Filter(Below(s[r]), s)| <= r && |Filter(Above(s[r]), s)| < |s| - r
  {
    var x := s[r];
    assert s == s[..r] + s[r..] && s == s[..r + 1] + s[r + 1..];
    FilterConcat(Below(x), s[..r], s[r..]);
    forall v | v in s[r..] ensures !(v < x) {
      var i :| r <= i < |s| && s[i] == v;
      assert i > r ==> !IntLess(s[i], s[r]);
    }
    FilterNone(Below(x), s[r..]);
    FilterConcat(Above(x), s[..r + 1], s[r + 1..]);
    var low := s[..r + 1];
    forall v | v in low ensures !(v > x) {
      var i :| 0 <= i <= r && s[i] == v;
      assert i < r ==> !IntLess(s[r], s[i]);
    }
    FilterNone(Above(x), low);
  }

  lemma SameCount<T(!new)>(p: T -> bool, a: seq<T>, b: seq<T>)
    requires multiset(a) == multiset(b)
    ensures |Filter(p, a)| == |Filter(p, b)|
  {
    forall x ensures multiset(Filter(p, a))[x] == multiset(Filter(p, b))[x] {
      FilterMultiset(p, a, x);
      FilterMultiset(p, b, x);
    }
    assert multiset(Filter(p, a)) == multiset(Filter(p, b));
    assert |Filter(p, a)| == |multiset(Filter(p, a))| == |multiset(Filter(p, b))| == |Filter(p, b)|;
  }

  lemma SortedStandsAt(vs: seq<int>, r: nat)
    requires r < |vs|
    ensures |StableSort(IntLess, vs)| == |vs| && StandsAt(vs, r, StableSort(IntLess, vs)[r])
  {
    var s := StableSort(IntLess, vs);
    SortPermutes(IntLess, vs);
    MemberOfPermutation(s, vs);
    forall x, y, z ensures WeakAt(IntLess, x, y, z) { }
    SortSorted(IntLess, vs);
    SortedBelow(s, r);
    SameCount(Below(s[r]), s, vs);
    SameCount(Above(s[r]), s, vs);
    assert s[r] in s;
  }

  /** `medianInt64` finds the middle. */
  lemma MedianIsMiddle(vs: seq<int>)
    ensures IsMiddle(vs, Median(vs))
  {
    var s, n := StableSort(IntLess, vs), |vs|;
    SortPermutes(IntLess, vs);
    MemberOfPermutation(s, vs);
    if n > 0 {
      SortedStandsAt(vs, n / 2);
      if n % 2 == 0 {
        SortedStandsAt(vs, n / 2 - 1);
        HalfWay(s[n / 2 - 1], s[n / 2]);
        assert AreMiddle(vs, s[n / 2 - 1], s[n / 2]);
      }
    }
  }

  lemma HalfWay(lo: int, hi: int)
    ensures lo + (hi - lo) / 2 == (lo + hi) / 2
  {
    assert lo + hi == 2 * lo + (hi - lo);
  }
}
