/**
 `atcr benchmark fit`: one row per (persona, model) pair with its call counts, its
 findings and tokens per replicate, and a health verdict (`buildFitReport`).
 */
module FitReport {
  import opened Basics
  import opened Orders
  import opened Benchmark

  // ------------------------------------------------------------------ one call

  const OUTCOME_FAILED := "failed"
  const OUTCOME_TRUNCATED := "truncated"
  const OUTCOME_UNPARSEABLE := "unparseable"

  datatype Health = TimedOut | Failed | Truncated | Unparseable | Healthy

  /** A timeout is a failure whatever else the call reports. */
  function HealthOf(f: Fit): Health {
    if f.timedOut then TimedOut
    else if f.outcome == OUTCOME_FAILED then Failed
    else if f.outcome == OUTCOME_TRUNCATED then Truncated
    else if f.outcome == OUTCOME_UNPARSEABLE then Unparseable
    else Healthy
  }

  function Max(a: int, b: int): int { if a < b then b else a }

  /** A row without a chunk count reads as one chunk. */
  function ChunksOf(f: Fit): int { Max(f.chunkCount, 1) }

  predicate WhollySilent(f: Fit) { f.silentChunks >= ChunksOf(f) }

  /** `checkFitRow`. */
  predicate Judgeable(text: Text, f: Fit, rows: int) {
    && text.PrintableKey(f.key)
    && f.outcome != OUTCOME_UNKNOWN && ValidOutcome(f.outcome)
    && 1 <= f.replicate <= rows
    && f.findings >= 0 && f.tokensOut >= 0 && f.chunkCount >= 0 && f.silentChunks >= 0
    && f.silentChunks <= ChunksOf(f)
  }

  /** What the sums and the verdict need of a row. */
  predicate Counted(f: Fit) {
    f.replicate >= 1 && f.silentChunks >= 0
  }

  // ------------------------------------------------------------------ one pair

  datatype PairRow = PairRow(
    key: ReviewerKey,
    calls: int,
    truncated: int,
    unparseable: int,
    failed: int,
    timedOut: int,
    whollySilent: int,
    silentChunks: int,
    chunks: int,
    findings: seq<int>,
    tokensOut: seq<int>,
    observed: seq<bool>)

  function EmptyRow(k: ReviewerKey): PairRow { PairRow(k, 0, 0, 0, 0, 0, 0, 0, 0, [], [], []) }

  function One(b: bool): int { if b then 1 else 0 }

  /** The array grown to `n` entries with `v` added to the last of them. */
  function Bumped(s: seq<int>, n: nat, v: int): (r: seq<int>)
    requires n >= 1
    ensures |r| == Max(|s|, n)
  {
    seq(Max(|s|, n), i requires 0 <= i < Max(|s|, n) => (if i < |s| then s[i] else 0) + (if i == n - 1 then v else 0))
  }

  function Marked(s: seq<bool>, n: nat): (r: seq<bool>)
    requires n >= 1
    ensures |r| == Max(|s|, n)
  {
    seq(Max(|s|, n), i requires 0 <= i < Max(|s|, n) => (i < |s| && s[i]) || i == n - 1)
  }

  function Add(r: PairRow, f: Fit): PairRow
    requires Counted(f)
  {
    var h := HealthOf(f);
    PairRow(r.key, r.calls + 1, r.truncated + One(h.Truncated?), r.unparseable + One(h.Unparseable?),
            r.failed + One(h.Failed? || h.TimedOut?), r.timedOut + One(h.TimedOut?), r.whollySilent + One(WhollySilent(f)),
            r.silentChunks + f.silentChunks, r.chunks + ChunksOf(f),
            Bumped(r.findings, f.replicate, f.findings), Bumped(r.tokensOut, f.replicate, f.tokensOut), Marked(r.observed, f.replicate))
  }

  ghost predicate AllCounted(fits: seq<Fit>) { forall i :: 0 <= i < |fits| ==> Counted(fits[i]) }

  function RowOf(k: ReviewerKey, fits: seq<Fit>): PairRow
    requires AllCounted(fits)
  {
    if fits == [] then EmptyRow(k) else Add(RowOf(k, fits[..|fits| - 1]), fits[|fits| - 1])
  }

  datatype Verdict = Unfit | Warned | IsFit

  /** `judge`: any nonzero count of bad calls is unfit; a silent chunk beside them is a warning. */
  function Judge(r: PairRow): Verdict {
    if r.truncated > 0 || r.unparseable > 0 || r.failed - r.timedOut > 0 || r.timedOut > 0 || r.whollySilent > 0 then Unfit
    else if r.silentChunks > 0 then Warned
    else IsFit
  }

  // ------------------------------------------------------ verdicts are declarative

  predicate BadCall(f: Fit) { !HealthOf(f).Healthy? || WhollySilent(f) }

  ghost predicate AnyBad(fits: seq<Fit>) { exists i :: 0 <= i < |fits| && BadCall(fits[i]) }

  ghost predicate AnySilent(fits: seq<Fit>) { exists i :: 0 <= i < |fits| && fits[i].silentChunks > 0 }

  lemma {:induction false} CountsFollowRows(k: ReviewerKey, fits: seq<Fit>)
    requires AllCounted(fits)
    ensures var r := RowOf(k, fits);
            && r.truncated >= 0 && r.unparseable >= 0 && r.failed >= r.timedOut >= 0 && r.whollySilent >= 0 && r.silentChunks >= 0
            && (r.truncated + r.unparseable + r.failed + r.whollySilent > 0 <==> AnyBad(fits))
            && (r.silentChunks > 0 <==> AnySilent(fits))
  {
    if fits != [] {
      var n := |fits| - 1;
      var pre, f := fits[..n], fits[n];
      CountsFollowRows(k, pre);
      assert forall i :: 0 <= i < n ==> pre[i] == fits[i];
      assert AnyBad(fits) <==> AnyBad(pre) || BadCall(f);
      assert AnySilent(fits) <==> AnySilent(pre) || f.silentChunks > 0;
    }
  }

  /** Unfit: some call failed, timed out, was cut, unreadable or silent throughout. Warned: not unfit, some chunk silent. */
  lemma VerdictIsDeclarative(k: ReviewerKey, fits: seq<Fit>)
    requires AllCounted(fits)
    ensures var v := Judge(RowOf(k, fits));
            && (v == Unfit <==> AnyBad(fits))
            && (v == Warned <==> !AnyBad(fits) && AnySilent(fits))
  {
    CountsFollowRows(k, fits);
  }

  // ------------------------------------------------------------ order does not matter

  lemma AddCommutes(r: PairRow, f: Fit, g: Fit)
    requires Counted(f) && Counted(g)
    ensures Add(Add(r, f), g) == Add(Add(r, g), f)
  {
    assert Bumped(Bumped(r.findings, f.replicate, f.findings), g.replicate, g.findings) ==
           Bumped(Bumped(r.findings, g.replicate, g.findings), f.replicate, f.findings);
    assert Bumped(Bumped(r.tokensOut, f.replicate, f.tokensOut), g.replicate, g.tokensOut) ==
           Bumped(Bumped(r.tokensOut, g.replicate, g.tokensOut), f.replicate, f.tokensOut);
    assert Marked(Marked(r.observed, f.replicate), g.replicate) == Marked(Marked(r.observed, g.replicate), f.replicate);
  }

  lemma RowSnoc(k: ReviewerKey, fits: seq<Fit>, f: Fit)
    requires AllCounted(fits) && Counted(f)
    ensures AllCounted(fits + [f]) && RowOf(k, fits + [f]) == Add(RowOf(k, fits), f)
  {
    assert (fits + [f])[..|fits|] == fits;
  }

  /** A call may be moved to the end. */
  lemma {:induction false} MoveToEnd(k: ReviewerKey, pre: seq<Fit>, f: Fit, post: seq<Fit>)
    requires AllCounted(pre) && Counted(f) && AllCounted(post)
    ensures AllCounted(pre + [f] + post) && AllCounted(pre + post)
    ensures RowOf(k, pre + [f] + post) == Add(RowOf(k, pre + post), f)
  {
    if post == [] {
      assert pre + [f] + post == pre + [f] && pre + post == pre;
      RowSnoc(k, pre, f);
    } else {
      var n := |post| - 1;
      var rest, g := post[..n], post[n];
      MoveToEnd(k, pre, f, rest);
      assert pre + [f] + post == (pre + [f] + rest) + [g] && pre + post == (pre + rest) + [g];
      RowSnoc(k, pre + [f] + rest, g);
      RowSnoc(k, pre + rest, g);
      AddCommutes(RowOf(k, pre + rest), f, g);
    }
  }

  /** A pair's row depends only on which calls it had. */
  lemma {:induction false} RowOfPermutation(k: ReviewerKey, a: seq<Fit>, b: seq<Fit>)
    requires AllCounted(a) && AllCounted(b) && multiset(a) == multiset(b)
    ensures RowOf(k, a) == RowOf(k, b)
  {
    if a == [] {
      MemberOfPermutation(a, b);
    } else {
      var n := |a| - 1;
      var f := a[n];
      assert a == a[..n] + [f];
      var pre, post := TakeOut(a[..n], f, b);
      assert AllCounted(pre) && AllCounted(post) by { PartsCounted(pre, f, post); }
      MoveToEnd(k, pre, f, post);
      RowOfPermutation(k, a[..n], pre + post);
    }
  }

  lemma PartsCounted(pre: seq<Fit>, f: Fit, post: seq<Fit>)
    requires AllCounted(pre + [f] + post)
    ensures AllCounted(pre) && AllCounted(post)
  {
    var all := pre + [f] + post;
    assert forall i :: 0 <= i < |pre| ==> pre[i] == all[i];
    assert forall i :: 0 <= i < |post| ==> post[i] == all[|pre| + 1 + i];
  }

  // ------------------------------------------------------------------ the report

  function OfPair(fits: seq<Fit>, k: ReviewerKey): (r: seq<Fit>) {
    Filter((f: Fit) => f.key == k, fits)
  }

  function Pairs(fits: seq<Fit>): seq<ReviewerKey> {
    if fits == [] then []
    else
      var before, k := Pairs(fits[..|fits| - 1]), fits[|fits| - 1].key;
      if k in before then before else before + [k]
  }

  /** Persona first, then model. */
  predicate PairLess(a: ReviewerKey, b: ReviewerKey) {
    if a.persona != b.persona then StringLess(a.persona, b.persona) else StringLess(a.model, b.model)
  }

  lemma PairLessIsTotal()
    ensures StrictTotal(PairLess)
  {
    StringLessIsTotal();
    forall x, y, z ensures WeakAt(PairLess, x, y, z) {
      StringLessWeak(x.persona, y.persona, z.persona);
      StringLessWeak(x.persona, z.persona, y.persona);
      StringLessWeak(y.persona, x.persona, z.persona);
      StringLessWeak(x.model, y.model, z.model);
    }
  }

  lemma OfPairCounted(fits: seq<Fit>, k: ReviewerKey)
    requires AllCounted(fits)
    ensures AllCounted(OfPair(fits, k))
  {
    var mine := OfPair(fits, k);
    FilterMembers((f: Fit) => f.key == k, fits);
    forall i | 0 <= i < |mine| ensures Counted(mine[i]) { assert mine[i] in fits; }
  }

  datatype Judged = Judged(row: PairRow, verdict: Verdict)

  function JudgedPair(fits: seq<Fit>, k: ReviewerKey): Judged
    requires AllCounted(fits)
  {
    OfPairCounted(fits, k);
    var row := RowOf(k, OfPair(fits, k));
    Judged(row, Judge(row))
  }

  function JudgedPairs(fits: seq<Fit>, ks: seq<ReviewerKey>): (r: seq<Judged>)
    requires AllCounted(fits)
    ensures |r| == |ks| && forall i :: 0 <= i < |ks| ==> r[i] == JudgedPair(fits, ks[i])
  {
    if ks == [] then [] else JudgedPairs(fits, ks[..|ks| - 1]) + [JudgedPair(fits, ks[|ks| - 1])]
  }

  function Report(fits: seq<Fit>): seq<Judged>
    requires AllCounted(fits)
  {
    JudgedPairs(fits, StableSort(PairLess, Pairs(fits)))
  }

  lemma {:induction false} PairsFacts(fits: seq<Fit>)
    ensures Distinct(Pairs(fits))
    ensures forall k :: k in Pairs(fits) <==> exists i :: 0 <= i < |fits| && fits[i].key == k
  {
    if fits != [] {
      var n := |fits| - 1;
      PairsFacts(fits[..n]);
      DistinctSnoc(Pairs(fits[..n]), fits[n].key);
      forall k ensures k in Pairs(fits) <==> exists i :: 0 <= i < |fits| && fits[i].key == k {
        if i :| 0 <= i < n && fits[..n][i].key == k { assert fits[i].key == k; }
        if i :| 0 <= i < n && fits[i].key == k { assert fits[..n][i].key == k; }
      }
    }
  }

  lemma SamePairs(a: seq<Fit>, b: seq<Fit>)
    requires multiset(a) == multiset(b)
    ensures multiset(Pairs(a)) == multiset(Pairs(b))
  {
    MemberOfPermutation(a, b);
    PairsFacts(a);
    PairsFacts(b);
    forall k ensures k in Pairs(a) <==> k in Pairs(b) {
      if i :| 0 <= i < |a| && a[i].key == k {
        assert a[i] in b;
        var j :| 0 <= j < |b| && b[j] == a[i];
      }
      if i :| 0 <= i < |b| && b[i].key == k {
        assert b[i] in a;
        var j :| 0 <= j < |a| && a[j] == b[i];
      }
    }
    DistinctSameSet(Pairs(a), Pairs(b));
  }

  lemma SamePairRows(a: seq<Fit>, b: seq<Fit>, k: ReviewerKey)
    requires multiset(a) == multiset(b) && AllCounted(a) && AllCounted(b)
    ensures JudgedPair(a, k) == JudgedPair(b, k)
  {
    OfPairCounted(a, k);
    OfPairCounted(b, k);
    assert multiset(OfPair(a, k)) == multiset(OfPair(b, k)) by {
      forall f ensures multiset(OfPair(a, k))[f] == multiset(OfPair(b, k))[f] {
        FilterMultiset((x: Fit) => x.key == k, a, f);
        FilterMultiset((x: Fit) => x.key == k, b, f);
      }
    }
    RowOfPermutation(k, OfPair(a, k), OfPair(b, k));
  }

  /** The report does not depend on the order of the run-result's rows. */
  lemma ReportIsOrderFree(a: seq<Fit>, b: seq<Fit>)
    requires multiset(a) == multiset(b) && AllCounted(a)
    ensures AllCounted(b) && Report(a) == Report(b)
  {
    MemberOfPermutation(a, b);
    forall i | 0 <= i < |b| ensures Counted(b[i]) {
      assert b[i] in a;
      var j :| 0 <= j < |a| && a[j] == b[i];
    }
    SamePairs(a, b);
    PairLessIsTotal();
    SortOfPermutation(PairLess, Pairs(a), Pairs(b));
    forall k ensures JudgedPair(a, k) == JudgedPair(b, k) { SamePairRows(a, b, k); }
  }

  // ----------------------------------------------------------------- conservation

  function Total(w: Fit -> int, fits: seq<Fit>): int {
    if fits == [] then 0 else Total(w, fits[..|fits| - 1]) + w(fits[|fits| - 1])
  }

  function Sum(s: seq<int>): int {
    if s == [] then 0 else Sum(s[..|s| - 1]) + s[|s| - 1]
  }

  /** The weights of each pair's calls, pair by pair. */
  function PairTotals(w: Fit -> int, fits: seq<Fit>, ks: seq<ReviewerKey>): int {
    if ks == [] then 0 else PairTotals(w, fits, ks[..|ks| - 1]) + Total(w, OfPair(fits, ks[|ks| - 1]))
  }

  lemma {:induction false} BumpedSum(s: seq<int>, n: nat, v: int)
    requires n >= 1
    ensures Sum(Bumped(s, n, v)) == Sum(s) + v
    decreases Max(|s|, n)
  {
    var r := Bumped(s, n, v);
    var m := |r| - 1;
    if n - 1 == m {
      if |s| == |r| {
        assert r[..m] == s[..m];
      } else {
        PadSum(s, r[..m]);
      }
    } else {
      assert r[..m] == Bumped(s[..m], n, v);
      BumpedSum(s[..m], n, v);
    }
  }

  lemma {:induction false} PadSum(s: seq<int>, r: seq<int>)
    requires |s| <= |r| && r[..|s|] == s && forall i :: |s| <= i < |r| ==> r[i] == 0
    ensures Sum(r) == Sum(s)
  {
    if |r| == |s| {
      assert r == s;
    } else {
      assert r[..|r| - 1][..|s|] == s;
      PadSum(s, r[..|r| - 1]);
    }
  }

  /** A pair's calls, findings and tokens are those of its rows. */
  lemma {:induction false} RowTotals(k: ReviewerKey, fits: seq<Fit>)
    requires AllCounted(fits)
    ensures var r := RowOf(k, fits);
            && r.calls == |fits|
            && Sum(r.findings) == Total((f: Fit) => f.findings, fits)
            && Sum(r.tokensOut) == Total((f: Fit) => f.tokensOut, fits)
  {
    if fits != [] {
      var n := |fits| - 1;
      RowTotals(k, fits[..n]);
      var r, f := RowOf(k, fits[..n]), fits[n];
      BumpedSum(r.findings, f.replicate, f.findings);
      BumpedSum(r.tokensOut, f.replicate, f.tokensOut);
    }
  }

  lemma OfPairSnoc(fits: seq<Fit>, f: Fit, k: ReviewerKey)
    ensures OfPair(fits + [f], k) == if f.key == k then OfPair(fits, k) + [f] else OfPair(fits, k)
  {
    var mine := (x: Fit) => x.key == k;
    FilterConcat(mine, fits, [f]);
    FilterCons(mine, f, []);
    assert [f] + [] == [f] && OfPair(fits, k) + [] == OfPair(fits, k);
  }

  lemma {:induction false} PairTotalsSnoc(w: Fit -> int, fits: seq<Fit>, f: Fit, ks: seq<ReviewerKey>)
    requires Distinct(ks)
    ensures PairTotals(w, fits + [f], ks) == PairTotals(w, fits, ks) + if f.key in ks then w(f) else 0
  {
    if ks != [] {
      var n := |ks| - 1;
      PairTotalsSnoc(w, fits, f, ks[..n]);
      OfPairSnoc(fits, f, ks[n]);
      assert ks == ks[..n] + [ks[n]];
      var mine := OfPair(fits, ks[n]);
      assert (mine + [f])[..|mine|] == mine;
    }
  }

  /** Nothing is lost or counted twice across pairs: any per-call weight adds up to the whole. */
  lemma {:induction false} PairsConserve(w: Fit -> int, fits: seq<Fit>, ks: seq<ReviewerKey>)
    requires Distinct(ks) && forall i :: 0 <= i < |fits| ==> fits[i].key in ks
    ensures PairTotals(w, fits, ks) == Total(w, fits)
  {
    if fits == [] {
      NothingTotals(w, ks);
    } else {
      var n := |fits| - 1;
      PairsConserve(w, fits[..n], ks);
      assert fits == fits[..n] + [fits[n]];
      PairTotalsSnoc(w, fits[..n], fits[n], ks);
    }
  }

  lemma {:induction false} NothingTotals(w: Fit -> int, ks: seq<ReviewerKey>)
    ensures PairTotals(w, [], ks) == 0
  {
    if ks != [] { NothingTotals(w, ks[..|ks| - 1]); }
  }

  function CallTotal(rows: seq<Judged>): int {
    if rows == [] then 0 else CallTotal(rows[..|rows| - 1]) + rows[|rows| - 1].row.calls
  }

  function FindingTotal(rows: seq<Judged>): int {
    if rows == [] then 0 else FindingTotal(rows[..|rows| - 1]) + Sum(rows[|rows| - 1].row.findings)
  }

  function TokenTotal(rows: seq<Judged>): int {
    if rows == [] then 0 else TokenTotal(rows[..|rows| - 1]) + Sum(rows[|rows| - 1].row.tokensOut)
  }

  lemma {:induction false} JudgedTotals(fits: seq<Fit>, ks: seq<ReviewerKey>)
    requires AllCounted(fits)
    ensures var rows := JudgedPairs(fits, ks);
            && CallTotal(rows) == PairTotals((f: Fit) => 1, fits, ks)
            && FindingTotal(rows) == PairTotals((f: Fit) => f.findings, fits, ks)
            && TokenTotal(rows) == PairTotals((f: Fit) => f.tokensOut, fits, ks)
  {
    if ks != [] {
      var n := |ks| - 1;
      JudgedTotals(fits, ks[..n]);
      OfPairCounted(fits, ks[n]);
      RowTotals(ks[n], OfPair(fits, ks[n]));
      UnitTotal(OfPair(fits, ks[n]));
      assert JudgedPairs(fits, ks)[..n] == JudgedPairs(fits, ks[..n]);
    }
  }

  lemma {:induction false} UnitTotal(fits: seq<Fit>)
    ensures Total((f: Fit) => 1, fits) == |fits|
  {
    if fits != [] { UnitTotal(fits[..|fits| - 1]); }
  }

  /** Calls, findings and tokens of the report are those of the run. */
  lemma ReportConserves(fits: seq<Fit>)
    requires AllCounted(fits)
    ensures CallTotal(Report(fits)) == |fits|
    ensures FindingTotal(Report(fits)) == Total((f: Fit) => f.findings, fits)
    ensures TokenTotal(Report(fits)) == Total((f: Fit) => f.tokensOut, fits)
  {
    var ks := StableSort(PairLess, Pairs(fits));
    PairsFacts(fits);
    SortPermutes(PairLess, Pairs(fits));
    SortMembers(PairLess, Pairs(fits));
    DistinctMultiset(Pairs(fits));
    DistinctMultiset(ks);
    JudgedTotals(fits, ks);
    UnitTotal(fits);
    PairsConserve((f: Fit) => 1, fits, ks);
    PairsConserve((f: Fit) => f.findings, fits, ks);
    PairsConserve((f: Fit) => f.tokensOut, fits, ks);
  }

  // ------------------------------------------------------------- imperatively

  /** `add`, growing the per-replicate arrays one entry at a time. */
  method AddFit(r: PairRow, f: Fit) returns (r': PairRow)
    requires Counted(f)
    ensures r' == Add(r, f)
  {
    var findings, tokens, observed := r.findings, r.tokensOut, r.observed;
    while |findings| < f.replicate
      invariant findings == Padded(r.findings, |findings|) && |r.findings| <= |findings| <= Max(|r.findings|, f.replicate)
    {
      findings := findings + [0];
    }
    while |tokens| < f.replicate
      invariant tokens == Padded(r.tokensOut, |tokens|) && |r.tokensOut| <= |tokens| <= Max(|r.tokensOut|, f.replicate)
    {
      tokens := tokens + [0];
    }
    while |observed| < f.replicate
      invariant |r.observed| <= |observed| <= Max(|r.observed|, f.replicate)
      invariant forall i :: 0 <= i < |observed| ==> observed[i] == (i < |r.observed| && r.observed[i])
    {
      observed := observed + [false];
    }
    findings := findings[f.replicate - 1 := findings[f.replicate - 1] + f.findings];
    tokens := tokens[f.replicate - 1 := tokens[f.replicate - 1] + f.tokensOut];
    observed := observed[f.replicate - 1 := true];
    assert findings == Bumped(r.findings, f.replicate, f.findings);
    assert tokens == Bumped(r.tokensOut, f.replicate, f.tokensOut);
    assert observed == Marked(r.observed, f.replicate);
    var h := HealthOf(f);
    return PairRow(r.key, r.calls + 1, r.truncated + One(h.Truncated?), r.unparseable + One(h.Unparseable?),
                   r.failed + One(h.Failed? || h.TimedOut?), r.timedOut + One(h.TimedOut?), r.whollySilent + One(WhollySilent(f)),
                   r.silentChunks + f.silentChunks, r.chunks + ChunksOf(f), findings, tokens, observed);
  }

  function Padded(s: seq<int>, n: nat): seq<int> {
    seq(n, i requires 0 <= i < n => if i < |s| then s[i] else 0)
  }

  ghost predicate RowFor(fits: seq<Fit>, k: ReviewerKey, row: PairRow) {
    AllCounted(OfPair(fits, k)) && row == RowOf(k, OfPair(fits, k))
  }

  lemma RowForSnoc(fits: seq<Fit>, f: Fit, k: ReviewerKey, row: PairRow)
    requires RowFor(fits, k, row) && Counted(f)
    ensures RowFor(fits + [f], k, if f.key == k then Add(row, f) else row)
  {
    OfPairSnoc(fits, f, k);
    RowSnoc(k, OfPair(fits, k), f);
  }

  ghost predicate Grouped(fits: seq<Fit>, order: seq<ReviewerKey>, byPair: map<ReviewerKey, PairRow>) {
    && order == Pairs(fits) && byPair.Keys == ToSet(order)
    && forall k :: k in byPair ==> RowFor(fits, k, byPair[k])
  }

  lemma GroupedSnoc(fits: seq<Fit>, f: Fit, order: seq<ReviewerKey>, byPair: map<ReviewerKey, PairRow>, row: PairRow, row': PairRow)
    requires Grouped(fits, order, byPair) && Counted(f)
    requires row == (if f.key in byPair then byPair[f.key] else EmptyRow(f.key)) && row' == Add(row, f)
    ensures Grouped(fits + [f], if f.key in byPair then order else order + [f.key], byPair[f.key := row'])
  {
    var all, byPair' := fits + [f], byPair[f.key := row'];
    assert all[..|fits|] == fits && all[|fits|] == f;
    assert f.key in order <==> f.key in ToSet(order);
    DistinctSnoc(order, f.key);
    if f.key !in byPair { NoneOfPair(fits, f.key); }
    assert RowFor(fits, f.key, row);
    forall k | k in byPair' ensures RowFor(all, k, byPair'[k]) {
      RowForSnoc(fits, f, k, if k == f.key then row else byPair[k]);
    }
  }

  lemma NoneOfPair(fits: seq<Fit>, k: ReviewerKey)
    requires k !in Pairs(fits)
    ensures OfPair(fits, k) == []
  {
    PairsFacts(fits);
    forall f | f in fits ensures f.key != k {
      var i :| 0 <= i < |fits| && fits[i] == f;
    }
    FilterNone((f: Fit) => f.key == k, fits);
  }

  lemma JudgeableIsCounted(text: Text, f: Fit, rows: int)
    requires Judgeable(text, f, rows)
    ensures Counted(f)
  {
  }

  method AddToPair(ghost fits: seq<Fit>, f: Fit, order: seq<ReviewerKey>, byPair: map<ReviewerKey, PairRow>)
    returns (order': seq<ReviewerKey>, byPair': map<ReviewerKey, PairRow>)
    requires Grouped(fits, order, byPair) && Counted(f)
    ensures Grouped(fits + [f], order', byPair')
  {
    var row := if f.key in byPair then byPair[f.key] else EmptyRow(f.key);
    var row' := AddFit(row, f);
    GroupedSnoc(fits, f, order, byPair, row, row');
    order' := if f.key in byPair then order else order + [f.key];
    byPair' := byPair[f.key := row'];
  }

  /** The first loop: check each row and add it to its pair. */
  method GroupFits(text: Text, fits: seq<Fit>) returns (ok: bool, order: seq<ReviewerKey>, byPair: map<ReviewerKey, PairRow>)
    ensures ok <==> forall i :: 0 <= i < |fits| ==> Judgeable(text, fits[i], |fits|)
    ensures ok ==> AllCounted(fits) && Grouped(fits, order, byPair)
  {
    order, byPair := [], map[];
    for i := 0 to |fits|
      invariant forall j :: 0 <= j < i ==> Judgeable(text, fits[j], |fits|) && Counted(fits[j])
      invariant Grouped(fits[..i], order, byPair)
    {
      var f := fits[i];
      if !Judgeable(text, f, |fits|) {
        return false, order, byPair;
      }
      JudgeableIsCounted(text, f, |fits|);
      assert fits[..i + 1] == fits[..i] + [f];
      order, byPair := AddToPair(fits[..i], f, order, byPair);
    }
    assert fits[..|fits|] == fits;
    return true, order, byPair;
  }

  /** The second loop: judge each pair, in report order. */
  method JudgeAll(ghost fits: seq<Fit>, sorted: seq<ReviewerKey>, byPair: map<ReviewerKey, PairRow>) returns (out: seq<Judged>)
    requires AllCounted(fits)
    requires forall i :: 0 <= i < |sorted| ==> sorted[i] in byPair && RowFor(fits, sorted[i], byPair[sorted[i]])
    ensures out == JudgedPairs(fits, sorted)
  {
    out := [];
    for i := 0 to |sorted|
      invariant out == JudgedPairs(fits, sorted)[..i]
    {
      out := out + [Judged(byPair[sorted[i]], Judge(byPair[sorted[i]]))];
    }
  }

  /** `buildFitReport`: refused exactly when some row cannot be judged. */
  method BuildFitReport(text: Text, fits: seq<Fit>) returns (r: Result<seq<Judged>>)
    ensures r.Ok? <==> forall i :: 0 <= i < |fits| ==> Judgeable(text, fits[i], |fits|)
    ensures r.Ok? ==> AllCounted(fits) && r.value == Report(fits)
  {
    var ok, order, byPair := GroupFits(text, fits);
    if !ok {
      return Err;
    }
    var sorted := StableSort(PairLess, order);
    SortMembers(PairLess, order);
    forall i | 0 <= i < |sorted| ensures sorted[i] in byPair {
      assert sorted[i] in order;
      assert sorted[i] in ToSet(order);
    }
    var out := JudgeAll(fits, sorted, byPair);
    return Ok(out);
  }
}
