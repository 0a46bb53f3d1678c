/**
 The emit tail of a benchmark run: scrubbed, collision-checked and sorted rows
 (`buildRunResult`), the public fit rows (`publicFit`), and what replicates beyond the
 first may change.
 */
module RunReport {
  import opened Basics
  import opened Orders
  import opened Benchmark
  import opened ReviewerFold
  import opened Checkpoint
  import opened BenchmarkRun

  predicate IntLess(a: int, b: int) { a < b }

  /** `medianInt64`: the middle element, or the floor of the two middle ones. */
  function Median(vs: seq<int>): int {
    var sorted := StableSort(IntLess, vs);
    var n := |sorted|;
    if n == 0 then 0
    else if n % 2 == 1 then sorted[n / 2]
    else sorted[n / 2 - 1] + (sorted[n / 2] - sorted[n / 2 - 1]) / 2
  }

  // ---------------------------------------------------------------- rows

  datatype ScoredRow = ScoredRow(id: ReviewerKey, acc: Acc)

  predicate RowLess(a: ScoredRow, b: ScoredRow) { KeyLess(a.id, b.id) }

  predicate FitLess(a: Fit, b: Fit) { KeyLess(a.key, b.key) }

  lemma RowOrders()
    ensures StrictWeak(RowLess) && StrictWeak(RecordLess) && StrictWeak(FitLess)
  {
    KeyLessIsTotal();
    forall x, y, z ensures WeakAt(RowLess, x, y, z) { assert WeakAt(KeyLess, x.id, y.id, z.id); }
    forall x, y, z ensures WeakAt(RecordLess, x, y, z) { assert WeakAt(KeyLess, x.key, y.key, z.key); }
    forall x, y, z ensures WeakAt(FitLess, x, y, z) { assert WeakAt(KeyLess, x.key, y.key, z.key); }
  }

  /** Every identity is printable and no two of them scrub to one public identity. */
  ghost predicate Publishable(text: Text, order: seq<ReviewerKey>) {
    && (forall i :: 0 <= i < |order| ==> text.PrintableKey(order[i]))
    && (forall i, j :: 0 <= i < j < |order| ==> text.Publish(order[i]) != text.Publish(order[j]))
  }

  function RowsOf(text: Text, accs: map<ReviewerKey, Acc>, order: seq<ReviewerKey>): (rows: seq<ScoredRow>)
    requires forall k :: k in order ==> k in accs
    ensures |rows| == |order|
    ensures forall i :: 0 <= i < |order| ==> rows[i] == ScoredRow(text.Publish(order[i]), accs[order[i]])
  {
    if order == [] then []
    else [ScoredRow(text.Publish(order[0]), accs[order[0]])] + RowsOf(text, accs, order[1..])
  }

  ghost function PublicIds(text: Text, order: seq<ReviewerKey>): set<ReviewerKey> {
    set k | k in order :: text.Publish(k)
  }

  lemma PublishableSnoc(text: Text, pre: seq<ReviewerKey>, k: ReviewerKey)
    ensures Publishable(text, pre + [k]) <==>
            Publishable(text, pre) && text.PrintableKey(k) && text.Publish(k) !in PublicIds(text, pre)
    ensures PublicIds(text, pre + [k]) == PublicIds(text, pre) + {text.Publish(k)}
  {
    var all := pre + [k];
    if Publishable(text, all) {
      assert forall i :: 0 <= i < |pre| ==> all[i] == pre[i];
      assert all[|pre|] == k;
    }
  }

  lemma PublishablePrefix(text: Text, order: seq<ReviewerKey>, i: nat)
    requires i <= |order|
    ensures Publishable(text, order) ==> Publishable(text, order[..i])
  {
  }

  /** The collision loop: a map from public identity to the raw key that claimed it. */
  method CollectRows(text: Text, accs: map<ReviewerKey, Acc>, order: seq<ReviewerKey>) returns (r: Result<seq<ScoredRow>>)
    requires forall k :: k in order ==> k in accs
    ensures r.Ok? <==> Publishable(text, order)
    ensures r.Ok? ==> r.value == RowsOf(text, accs, order)
  {
    var rows: seq<ScoredRow> := [];
    var scrubbed: map<ReviewerKey, ReviewerKey> := map[];
    for i := 0 to |order|
      invariant Publishable(text, order[..i])
      invariant scrubbed.Keys == PublicIds(text, order[..i])
      invariant |rows| == i && forall j :: 0 <= j < i ==> rows[j] == ScoredRow(text.Publish(order[j]), accs[order[j]])
    {
      var k := order[i];
      var id := text.Publish(k);
      assert order[..i + 1] == order[..i] + [k];
      PublishableSnoc(text, order[..i], k);
      if !text.PrintableKey(k) || id in scrubbed {
        PublishablePrefix(text, order, i + 1);
        return Err;
      }
      scrubbed := scrubbed[id := k];
      rows := rows + [ScoredRow(id, accs[k])];
    }
    assert order[..|order|] == order;
    return Ok(rows);
  }

  // ----------------------------------------------------------------- emit

  function ScoreInput(r: ScoredRow): ReviewerScore {
    ReviewerScore(r.id, r.acc.cases, r.acc.cost, Median(r.acc.latencies))
  }

  function CoverageOf(r: ScoredRow): Coverage {
    Coverage(r.id, r.acc.caseIDs, Some(r.acc.outcomes), r.acc.fallbackCases, r.acc.grounding)
  }

  function CaseIDsOf(m: Manifest): seq<string> {
    Map((c: SuiteCase) => c.id, m.cases)
  }

  function Emit(text: Text, metrics: Metrics, m: Manifest, rows: seq<ScoredRow>): RunResult {
    var sorted := StableSort(RowLess, rows);
    RunResult(m.suite, m.suiteVersion, Score(text, metrics, Map(ScoreInput, sorted)), CaseIDsOf(m),
              Map(CoverageOf, sorted), [], [], [])
  }

  /** `buildRunResult`. */
  method BuildRunResult(text: Text, metrics: Metrics, m: Manifest, b: Board) returns (r: Result<RunResult>)
    requires forall k :: k in b.order ==> k in b.accs
    ensures r.Ok? <==> Publishable(text, b.order)
    ensures r.Ok? ==> r.value == Emit(text, metrics, m, RowsOf(text, b.accs, b.order))
  {
    var rows := CollectRows(text, b.accs, b.order);
    match rows
    case Err => r := Err;
    case Ok(rs) => r := Ok(Emit(text, metrics, m, rs));
  }

  lemma PublishableIsDistinct(text: Text, order: seq<ReviewerKey>)
    ensures Publishable(text, order) <==>
            (forall k :: k in order ==> text.PrintableKey(k)) && Distinct(Map(text.Publish, order))
  {
  }

  /** Whether a run may publish does not depend on the order its identities were first seen in. */
  lemma PublishableOfPermutation(text: Text, a: seq<ReviewerKey>, b: seq<ReviewerKey>)
    requires multiset(a) == multiset(b)
    ensures Publishable(text, a) <==> Publishable(text, b)
  {
    MemberOfPermutation(a, b);
    MapMultiset(text.Publish, a, b);
    DistinctMultiset(Map(text.Publish, a));
    DistinctMultiset(Map(text.Publish, b));
    PublishableIsDistinct(text, a);
    PublishableIsDistinct(text, b);
  }

  lemma RowsAreMapped(text: Text, accs: map<ReviewerKey, Acc>, order: seq<ReviewerKey>)
    requires forall k :: k in order ==> k in accs
    ensures var row := (k: ReviewerKey) => ScoredRow(text.Publish(k), if k in accs then accs[k] else EMPTY_ACC);
            RowsOf(text, accs, order) == Map(row, order)
  {
  }

  /** Rows of distinct public identities never tie. */
  lemma RowsNeverTie(text: Text, accs: map<ReviewerKey, Acc>, order: seq<ReviewerKey>)
    requires (forall k :: k in order ==> k in accs) && Publishable(text, order)
    ensures NoTies(RowLess, RowsOf(text, accs, order))
  {
    KeyLessIsTotal();
    var rows := RowsOf(text, accs, order);
    forall x, y | x in rows && y in rows && x != y ensures RowLess(x, y) || RowLess(y, x) {
      var i :| 0 <= i < |rows| && rows[i] == x;
      var j :| 0 <= j < |rows| && rows[j] == y;
      assert x.id != y.id;
    }
  }

  /** The emitted run-result is the same for every first-sighting order of the same rows. */
  lemma EmitIsOrderFree(text: Text, metrics: Metrics, m: Manifest, accs: map<ReviewerKey, Acc>, a: seq<ReviewerKey>, b: seq<ReviewerKey>)
    requires forall k :: k in a ==> k in accs
    requires multiset(a) == multiset(b) && Publishable(text, a)
    ensures forall k :: k in b ==> k in accs
    ensures Emit(text, metrics, m, RowsOf(text, accs, a)) == Emit(text, metrics, m, RowsOf(text, accs, b))
  {
    MemberOfPermutation(a, b);
    var row := (k: ReviewerKey) => ScoredRow(text.Publish(k), if k in accs then accs[k] else EMPTY_ACC);
    RowsAreMapped(text, accs, a);
    RowsAreMapped(text, accs, b);
    MapMultiset(row, a, b);
    RowOrders();
    RowsNeverTie(text, accs, a);
    SortOfPermutation(RowLess, RowsOf(text, accs, a), RowsOf(text, accs, b));
  }

  /** Sorted rows of a publishable run: the same rows, strictly increasing in identity. */
  lemma SortedRows(text: Text, accs: map<ReviewerKey, Acc>, order: seq<ReviewerKey>)
    requires (forall k :: k in order ==> k in accs) && Publishable(text, order)
    ensures var rows := StableSort(RowLess, RowsOf(text, accs, order));
            && |rows| == |order|
            && (forall i, j :: 0 <= i < j < |rows| ==> KeyLess(rows[i].id, rows[j].id))
            && (forall r :: r in rows <==> r in RowsOf(text, accs, order))
  {
    var raw := RowsOf(text, accs, order);
    var rows := StableSort(RowLess, raw);
    RowOrders();
    SortSorted(RowLess, raw);
    SortPermutes(RowLess, raw);
    SortMembers(RowLess, raw);
    RowsNeverTie(text, accs, order);
    DistinctMultiset(raw);
    DistinctMultiset(rows);
    assert Distinct(raw);
    forall i, j | 0 <= i < j < |rows| ensures KeyLess(rows[i].id, rows[j].id) {
      assert rows[i] in raw && rows[j] in raw && rows[i] != rows[j];
    }
  }

  /** A scrub that reached its fixed point is left alone by another pass. */
  ghost predicate ScrubIdempotent(text: Text) {
    forall x :: text.scrub(text.scrub(x)) == text.scrub(x)
  }

  lemma ScoredRowsAlign(text: Text, metrics: Metrics, b: Board, i: nat)
    requires BoardInv(b) && (forall k :: k in b.order ==> k in b.accs) && Publishable(text, b.order) && ScrubIdempotent(text)
    requires i < |b.order|
    ensures var rows := StableSort(RowLess, RowsOf(text, b.accs, b.order));
            && |rows| == |b.order| && text.Publish(rows[i].id) == rows[i].id
            && |rows[i].acc.cases| == |rows[i].acc.caseIDs|
  {
    SortedRows(text, b.accs, b.order);
    var rows := StableSort(RowLess, RowsOf(text, b.accs, b.order));
    assert rows[i] in RowsOf(text, b.accs, b.order);
    var j :| 0 <= j < |b.order| && RowsOf(text, b.accs, b.order)[j] == rows[i];
    assert b.order[j] in b.accs;
  }

  lemma ScoreKeepsOrder(text: Text, metrics: Metrics, rows: seq<ScoredRow>)
    requires forall i :: 0 <= i < |rows| ==> text.Publish(rows[i].id) == rows[i].id
    requires forall i, j :: 0 <= i < j < |rows| ==> KeyLess(rows[i].id, rows[j].id)
    ensures var scored := Score(text, metrics, Map(ScoreInput, rows));
            |scored| == |rows| && forall i :: 0 <= i < |rows| ==>
              scored[i] == PublicRecord(rows[i].id, |rows[i].acc.cases|, metrics(ScoreInput(rows[i])))
  {
    var scored := Map((r: ReviewerScore) => ScoreOne(text, metrics, r), Map(ScoreInput, rows));
    KeyLessIsTotal();
    forall i, j | 0 <= i < j < |scored| ensures !RecordLess(scored[j], scored[i]) {
      assert WeakAt(KeyLess, rows[i].id, rows[j].id, rows[i].id);
    }
    SortOfSorted(RecordLess, scored);
  }

  /**
   What a standard-tier run publishes: coverage rows strictly increasing by scrubbed
   identity, one public row beside each of them, counting exactly the covered cases.
   */
  lemma {:induction false} EmittedRowsAlign(text: Text, metrics: Metrics, m: Manifest, b: Board)
    requires BoardInv(b) && Publishable(text, b.order) && ScrubIdempotent(text)
    ensures forall k :: k in b.order ==> k in b.accs
    ensures var rr := Emit(text, metrics, m, RowsOf(text, b.accs, b.order));
            && |rr.reviewers| == |rr.coverage| == |b.order|
            && (forall i, j :: 0 <= i < j < |rr.coverage| ==> KeyLess(rr.coverage[i].key, rr.coverage[j].key))
            && (forall i :: 0 <= i < |rr.coverage| ==>
                  && rr.reviewers[i].key == rr.coverage[i].key
                  && rr.reviewers[i].runs == |rr.coverage[i].caseIDs|)
  {
    assert forall k :: k in b.order ==> k in ToSet(b.order);
    SortedRows(text, b.accs, b.order);
    var rows := StableSort(RowLess, RowsOf(text, b.accs, b.order));
    forall i | 0 <= i < |rows| ensures text.Publish(rows[i].id) == rows[i].id && |rows[i].acc.cases| == |rows[i].acc.caseIDs| {
      ScoredRowsAlign(text, metrics, b, i);
    }
    ScoreKeepsOrder(text, metrics, rows);
  }

  // ------------------------------------------------------------------ fit

  function PublishFit(text: Text, f: Fit): Fit {
    f.(key := text.Publish(f.key))
  }

  /** `publicFit`: scrub each row's identity, then a stable sort by identity. */
  function PublicFit(text: Text, fits: seq<Fit>): seq<Fit> {
    StableSort(FitLess, Map((f: Fit) => PublishFit(text, f), fits))
  }

  predicate ScoredReplicate(f: Fit) { f.replicate == 1 }

  /** Publishing fit rows and keeping one replicate commute. */
  lemma PublicFitOfReplicate(text: Text, fits: seq<Fit>)
    ensures Filter(ScoredReplicate, PublicFit(text, fits)) == PublicFit(text, Filter(ScoredReplicate, fits))
  {
    RowOrders();
    var pub := (f: Fit) => PublishFit(text, f);
    FilterSort(FitLess, ScoredReplicate, Map(pub, fits));
    FilterMap(pub, ScoredReplicate, ScoredReplicate, fits);
  }

  // ---------------------------------------------------- replicate erasure

  /** Same score, same refusals, same fit rows for replicate 1. */
  ghost predicate SameScore(many: RunState, one: RunState) {
    && many.stopped == one.stopped
    && (!one.stopped ==> many.board == one.board && Filter(ScoredReplicate, many.fits) == one.fits)
  }

  lemma FitRowsOfReplicate(caseID: string, replicate: int, rs: seq<CheckpointReviewer>)
    ensures Filter(ScoredReplicate, FitRows(caseID, replicate, rs)) == if replicate == 1 then FitRows(caseID, replicate, rs) else []
  {
    var rows := FitRows(caseID, replicate, rs);
    forall f | f in rows ensures f.replicate == replicate {
      var i :| 0 <= i < |rows| && rows[i] == f;
      assert rows[i] == FitRow(caseID, replicate, rs[i]);
    }
    if replicate == 1 { FilterAll(ScoredReplicate, rows); } else { FilterNone(ScoredReplicate, rows); }
  }

  lemma FirstReplicateStep(s: Setup, n: int, panelN: CaseRun -> PoolSummary, panel1: CaseRun -> PoolSummary,
                           many: RunState, one: RunState, i: nat)
    requires i < |s.manifest.cases| && panelN(CaseRun(i, 1)) == panel1(CaseRun(i, 1))
    requires SameScore(many, one) && many.checkpoint.None? && one.checkpoint.None?
    ensures var many', one' := Step(s, map[], Attempt(n, false, panelN, r => RunsOn), many, CaseRun(i, 1)),
                               Step(s, map[], Attempt(1, false, panel1, r => RunsOn), one, CaseRun(i, 1));
            SameScore(many', one') && many'.checkpoint.None? && one'.checkpoint.None?
  {
    var c, p := s.manifest.cases[i], panel1(CaseRun(i, 1));
    var rows := FitRows(c.id, 1, Records(s, p));
    FilterConcat(ScoredReplicate, many.fits, rows);
    FitRowsOfReplicate(c.id, 1, Records(s, p));
  }

  lemma LaterReplicateStep(s: Setup, n: int, panelN: CaseRun -> PoolSummary, many: RunState, one: RunState, run: CaseRun)
    requires 0 <= run.index < |s.manifest.cases| && run.replicate > 1
    requires SameScore(many, one) && many.checkpoint.None?
    ensures var many' := Step(s, map[], Attempt(n, false, panelN, r => RunsOn), many, run);
            SameScore(many', one) && many'.checkpoint.None?
  {
    var c, p := s.manifest.cases[run.index], panelN(run);
    var rows := FitRows(c.id, run.replicate, Records(s, p));
    FilterConcat(ScoredReplicate, many.fits, rows);
    FitRowsOfReplicate(c.id, run.replicate, Records(s, p));
    assert Filter(ScoredReplicate, many.fits) + [] == Filter(ScoredReplicate, many.fits);
  }

  function PlainReach(s: Setup, n: int, panel: CaseRun -> PoolSummary, i: nat, rep: nat): RunState
    requires i <= |s.manifest.cases| && 1 <= rep && (rep > 1 ==> i < |s.manifest.cases|) && n >= 1
  {
    Reach(s, map[], Attempt(n, false, panel, r => RunsOn), StartState(None, World(None, [])), i, rep)
  }

  lemma {:induction false} ReachSameScore(s: Setup, n: int, panelN: CaseRun -> PoolSummary, panel1: CaseRun -> PoolSummary, i: nat, rep: nat)
    requires n >= 1 && 1 <= rep <= n + 1 && (if rep == 1 then i <= |s.manifest.cases| else i < |s.manifest.cases|)
    requires forall j :: 0 <= j < |s.manifest.cases| ==> panelN(CaseRun(j, 1)) == panel1(CaseRun(j, 1))
    ensures var many, one := PlainReach(s, n, panelN, i, rep), PlainReach(s, 1, panel1, i, if rep == 1 then 1 else 2);
            SameScore(many, one) && many.checkpoint.None? && one.checkpoint.None?
    decreases i, rep
  {
    if rep == 1 && i > 0 {
      ReachSameScore(s, n, panelN, panel1, i - 1, n + 1);
    } else if rep == 2 {
      ReachSameScore(s, n, panelN, panel1, i, 1);
      FirstReplicateStep(s, n, panelN, panel1, PlainReach(s, n, panelN, i, 1), PlainReach(s, 1, panel1, i, 1), i);
    } else if rep > 2 {
      ReachSameScore(s, n, panelN, panel1, i, rep - 1);
      LaterReplicateStep(s, n, panelN, PlainReach(s, n, panelN, i, rep - 1), PlainReach(s, 1, panel1, i, 2), CaseRun(i, rep - 1));
    }
  }

  /**
   Replicates beyond the first leave the score alone: an N-replicate run finishes exactly
   when the single run does, with the same accumulators, and its published fit rows,
   restricted to replicate 1, are the single run's published fit rows in the same order.
   */
  lemma ReplicateErasure(s: Setup, text: Text, n: int, panelN: CaseRun -> PoolSummary, panel1: CaseRun -> PoolSummary)
    requires n >= 1
    requires forall j :: 0 <= j < |s.manifest.cases| ==> panelN(CaseRun(j, 1)) == panel1(CaseRun(j, 1))
    ensures var many, one := Uninterrupted(s, n, panelN), Uninterrupted(s, 1, panel1);
            && (many.Finished? <==> one.Finished?)
            && (one.Finished? ==>
                  && many.board == one.board
                  && Filter(ScoredReplicate, PublicFit(text, many.fits)) == PublicFit(text, one.fits))
  {
    ReachSameScore(s, n, panelN, panel1, |s.manifest.cases|, 1);
    var many := Uninterrupted(s, n, panelN);
    if many.Finished? { PublicFitOfReplicate(text, many.fits); }
  }
}
