/**
 What `atcr benchmark fit` says of a pair, counted from its calls: how many went wrong and
 how, what each replicate found, and the verdict.
 */
module FitRows {
  import opened Basics
  import opened Orders
  import opened DebtFold
  import opened Benchmark
  import opened FitReport

  function CallsWith(p: Fit -> bool, fits: seq<Fit>): nat { |Filter(p, fits)| }

  /** The weight of the calls of one replicate. */
  function InReplicate(n: int, w: Fit -> int): Fit -> int { (f: Fit) => if f.replicate == n then w(f) else 0 }

  function Chunks(f: Fit): int { if f.chunkCount > 1 then f.chunkCount else 1 }

  const TIMED_OUT := (f: Fit) => f.timedOut
  const WENT_WRONG := (f: Fit) => f.timedOut || f.outcome == "failed"
  const CUT_SHORT := (f: Fit) => !f.timedOut && f.outcome == "truncated"
  const UNREADABLE := (f: Fit) => !f.timedOut && f.outcome == "unparseable"
  const ALL_SILENT := (f: Fit) => f.silentChunks >= Chunks(f)

  /** Each kind of trouble is counted once per call; a timeout is nothing else. */
  ghost predicate CountsTroubles(fits: seq<Fit>, row: PairRow) {
    && row.calls == |fits|
    && row.timedOut == CallsWith(TIMED_OUT, fits) && row.failed == CallsWith(WENT_WRONG, fits)
    && row.truncated == CallsWith(CUT_SHORT, fits) && row.unparseable == CallsWith(UNREADABLE, fits)
    && row.whollySilent == CallsWith(ALL_SILENT, fits)
    && row.silentChunks == Total((f: Fit) => f.silentChunks, fits) && row.chunks == Total((f: Fit) => Chunks(f), fits)
  }

  /** Entry `i` of the arrays is replicate `i + 1`: what its calls found and wrote, and whether it had any. */
  ghost predicate ListsReplicates(fits: seq<Fit>, row: PairRow) {
    && |row.findings| == |row.tokensOut| == |row.observed|
    && (forall i :: 0 <= i < |fits| ==> fits[i].replicate <= |row.observed|)
    && (row.observed != [] ==> row.observed[|row.observed| - 1])
    && (forall n :: 0 <= n < |row.observed| ==> EntryOfReplicate(fits, row, n))
  }

  ghost predicate EntryOfReplicate(fits: seq<Fit>, row: PairRow, n: nat)
    requires n < |row.findings| == |row.tokensOut| == |row.observed|
  {
    && row.findings[n] == Total(InReplicate(n + 1, (f: Fit) => f.findings), fits)
    && row.tokensOut[n] == Total(InReplicate(n + 1, (f: Fit) => f.tokensOut), fits)
    && (row.observed[n] <==> exists i :: 0 <= i < |fits| && fits[i].replicate == n + 1)
  }

  lemma TimesSnoc(p: Fit -> bool, fits: seq<Fit>, f: Fit)
    ensures CallsWith(p, fits + [f]) == CallsWith(p, fits) + if p(f) then 1 else 0
  {
    FilterSnoc(p, fits, f);
  }

  lemma TotalSnoc(w: Fit -> int, fits: seq<Fit>, f: Fit)
    ensures Total(w, fits + [f]) == Total(w, fits) + w(f)
  {
    assert (fits + [f])[..|fits|] == fits;
  }

  lemma TroublesSnoc(fits: seq<Fit>, row: PairRow, f: Fit)
    requires CountsTroubles(fits, row) && Counted(f)
    ensures CountsTroubles(fits + [f], Add(row, f))
  {
    TimesSnoc(TIMED_OUT, fits, f);
    TimesSnoc(WENT_WRONG, fits, f);
    TimesSnoc(CUT_SHORT, fits, f);
    TimesSnoc(UNREADABLE, fits, f);
    TimesSnoc(ALL_SILENT, fits, f);
    TotalSnoc((g: Fit) => g.silentChunks, fits, f);
    TotalSnoc((g: Fit) => Chunks(g), fits, f);
  }

  lemma {:induction false} NothingIn(w: Fit -> int, n: int, fits: seq<Fit>)
    requires forall i :: 0 <= i < |fits| ==> fits[i].replicate != n
    ensures Total(InReplicate(n, w), fits) == 0
  {
    if fits != [] { NothingIn(w, n, fits[..|fits| - 1]); }
  }

  /** A replicate beyond the arrays has no calls yet. */
  lemma BeyondIsEmpty(fits: seq<Fit>, row: PairRow, n: nat)
    requires ListsReplicates(fits, row) && n >= |row.observed|
    ensures Total(InReplicate(n + 1, (f: Fit) => f.findings), fits) == 0
    ensures Total(InReplicate(n + 1, (f: Fit) => f.tokensOut), fits) == 0
    ensures forall i :: 0 <= i < |fits| ==> fits[i].replicate != n + 1
  {
    NothingIn((f: Fit) => f.findings, n + 1, fits);
    NothingIn((f: Fit) => f.tokensOut, n + 1, fits);
  }

  lemma EntrySnoc(fits: seq<Fit>, row: PairRow, f: Fit, n: nat)
    requires ListsReplicates(fits, row) && Counted(f) && n < |Add(row, f).observed|
    ensures EntryOfReplicate(fits + [f], Add(row, f), n)
  {
    var all, next := fits + [f], Add(row, f);
    TotalSnoc(InReplicate(n + 1, (g: Fit) => g.findings), fits, f);
    TotalSnoc(InReplicate(n + 1, (g: Fit) => g.tokensOut), fits, f);
    if n < |row.observed| { assert EntryOfReplicate(fits, row, n); } else { BeyondIsEmpty(fits, row, n); }
    assert next.observed[n] <==> (n < |row.observed| && row.observed[n]) || f.replicate == n + 1;
    if i :| 0 <= i < |fits| && fits[i].replicate == n + 1 { assert all[i].replicate == n + 1; }
    if f.replicate == n + 1 { assert all[|fits|].replicate == n + 1; }
    if i :| 0 <= i < |all| && all[i].replicate == n + 1 { assert i < |fits| ==> fits[i].replicate == n + 1; }
  }

  lemma ReplicatesSnoc(fits: seq<Fit>, row: PairRow, f: Fit)
    requires ListsReplicates(fits, row) && Counted(f)
    ensures ListsReplicates(fits + [f], Add(row, f))
  {
    forall n | 0 <= n < |Add(row, f).observed| ensures EntryOfReplicate(fits + [f], Add(row, f), n) { EntrySnoc(fits, row, f, n); }
  }

  /** A pair's row counts its calls. */
  lemma {:induction false} RowCountsCalls(k: ReviewerKey, fits: seq<Fit>)
    requires AllCounted(fits)
    ensures RowOf(k, fits).key == k && CountsTroubles(fits, RowOf(k, fits)) && ListsReplicates(fits, RowOf(k, fits))
  {
    if fits != [] {
      var n := |fits| - 1;
      var pre := fits[..n];
      RowCountsCalls(k, pre);
      assert fits == pre + [fits[n]];
      TroublesSnoc(pre, RowOf(k, pre), fits[n]);
      ReplicatesSnoc(pre, RowOf(k, pre), fits[n]);
    }
  }

  /** A call that went wrong, in any way. */
  predicate Trouble(f: Fit) {
    f.timedOut || f.outcome == "failed" || f.outcome == "truncated" || f.outcome == "unparseable" || f.silentChunks >= Chunks(f)
  }

  /** The verdict: unfit with any trouble; warned with none but a silent chunk; else fit. */
  ghost predicate Verdicts(fits: seq<Fit>, v: Verdict) {
    && (v == Unfit <==> exists i :: 0 <= i < |fits| && Trouble(fits[i]))
    && (v == IsFit <==> forall i :: 0 <= i < |fits| ==> !Trouble(fits[i]) && fits[i].silentChunks <= 0)
  }

  lemma VerdictIs(k: ReviewerKey, fits: seq<Fit>)
    requires AllCounted(fits)
    ensures Verdicts(fits, Judge(RowOf(k, fits)))
  {
    VerdictIsDeclarative(k, fits);
    forall f: Fit ensures BadCall(f) <==> Trouble(f) { }
  }

  /** A listed pair: counted and judged on its own calls. */
  ghost predicate SaysPair(fits: seq<Fit>, j: Judged) {
    var own := Filter((f: Fit) => f.key == j.row.key, fits);
    own != [] && CountsTroubles(own, j.row) && ListsReplicates(own, j.row) && Verdicts(own, j.verdict)
  }

  predicate PairBefore(a: ReviewerKey, b: ReviewerKey) {
    StringLess(a.persona, b.persona) || (a.persona == b.persona && StringLess(a.model, b.model))
  }

  lemma JudgedSays(fits: seq<Fit>, k: ReviewerKey)
    requires AllCounted(fits) && k in Pairs(fits)
    ensures JudgedPair(fits, k).row.key == k && SaysPair(fits, JudgedPair(fits, k))
  {
    OfPairCounted(fits, k);
    RowCountsCalls(k, OfPair(fits, k));
    VerdictIs(k, OfPair(fits, k));
    PairsFacts(fits);
    var i :| 0 <= i < |fits| && fits[i].key == k;
    FilterIn((f: Fit) => f.key == k, fits, fits[i]);
  }

  lemma PairsAscend(fits: seq<Fit>)
    ensures var ks := StableSort(PairLess, Pairs(fits));
            && (forall i, j :: 0 <= i < j < |ks| ==> PairBefore(ks[i], ks[j]))
            && (forall k :: k in ks <==> k in Pairs(fits))
  {
    var ks := StableSort(PairLess, Pairs(fits));
    PairLessIsTotal();
    PairsFacts(fits);
    SortSorted(PairLess, Pairs(fits));
    SortPermutes(PairLess, Pairs(fits));
    SortMembers(PairLess, Pairs(fits));
    DistinctMultiset(Pairs(fits));
    DistinctMultiset(ks);
    forall i, j | 0 <= i < j < |ks| ensures PairBefore(ks[i], ks[j]) {
      assert PairLess(ks[i], ks[j]);
      StringLessIrreflexive(ks[i].persona);
    }
  }

  lemma PairIsKeyed(fits: seq<Fit>, i: nat)
    requires i < |fits|
    ensures fits[i].key in StableSort(PairLess, Pairs(fits))
  {
    PairsFacts(fits);
    PairsAscend(fits);
    assert fits[i].key in Pairs(fits);
  }

  lemma ReportRow(fits: seq<Fit>, j: nat)
    requires AllCounted(fits) && j < |Report(fits)|
    ensures Report(fits)[j].row.key == StableSort(PairLess, Pairs(fits))[j] && SaysPair(fits, Report(fits)[j])
  {
    var ks := StableSort(PairLess, Pairs(fits));
    PairsAscend(fits);
    assert ks[j] in ks;
    JudgedSays(fits, ks[j]);
  }

  ghost predicate HasRow(rows: seq<Judged>, k: ReviewerKey) { exists j :: 0 <= j < |rows| && rows[j].row.key == k }

  lemma ReportHasRow(fits: seq<Fit>, i: nat)
    requires AllCounted(fits) && i < |fits|
    ensures HasRow(Report(fits), fits[i].key)
  {
    var ks := StableSort(PairLess, Pairs(fits));
    PairIsKeyed(fits, i);
    var j :| 0 <= j < |ks| && ks[j] == fits[i].key;
    ReportRow(fits, j);
  }

  /** The rows say their pairs, in report order. */
  lemma ReportRows(fits: seq<Fit>)
    requires AllCounted(fits)
    ensures var ks, rows := StableSort(PairLess, Pairs(fits)), Report(fits);
            |rows| == |ks| && forall j :: 0 <= j < |rows| ==> rows[j].row.key == ks[j] && SaysPair(fits, rows[j])
  {
    forall j | 0 <= j < |Report(fits)|
      ensures Report(fits)[j].row.key == StableSort(PairLess, Pairs(fits))[j] && SaysPair(fits, Report(fits)[j])
    {
      ReportRow(fits, j);
    }
  }

  /** The report lists every pair of the run once, by persona, then model, each counted and judged on its own calls. */
  lemma ReportSaysPairs(fits: seq<Fit>)
    requires AllCounted(fits)
    ensures var rows := Report(fits);
            && (forall j :: 0 <= j < |rows| ==> SaysPair(fits, rows[j]))
            && (forall i, j :: 0 <= i < j < |rows| ==> PairBefore(rows[i].row.key, rows[j].row.key))
            && (forall i :: 0 <= i < |fits| ==> HasRow(rows, fits[i].key))
  {
    var ks, rows := StableSort(PairLess, Pairs(fits)), Report(fits);
    PairsAscend(fits);
    ReportRows(fits);
    forall i | 0 <= i < |fits| ensures HasRow(rows, fits[i].key) { ReportHasRow(fits, i); }
  }
}
