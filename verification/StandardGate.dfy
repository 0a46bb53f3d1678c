/**
 The standard tier meets the gate too: whatever crashes preceded it, the file a finished
 run publishes passes all three validators as soon as some agent answered, and passes
 without the partial-coverage opt-out exactly when every identity answered every case.
 */
module StandardGate {
  import opened Basics
  import opened Orders
  import opened Benchmark
  import opened ReviewerFold
  import opened Checkpoint
  import opened BenchmarkRun
  import opened CrashResume
  import opened RunReport
  import opened ExportGate

  type Oracle = CaseRun -> PoolSummary

  // ---------------------------------------------- the board is a fold of the panels

  /** Everything replicate 1 of the first `i` cases produced, in order. */
  function Outcomes(s: Setup, p: Oracle, i: nat): seq<CaseOutcome>
    requires i <= |s.manifest.cases|
  {
    if i == 0 then [] else Outcomes(s, p, i - 1) + FreshOutcomes(s, s.manifest.cases[i - 1], p(CaseRun(i - 1, 1)))
  }

  function AllOutcomes(s: Setup, p: Oracle): seq<CaseOutcome> { Outcomes(s, p, |s.manifest.cases|) }

  /** The cases whose replicate 1 is behind the walk. */
  function Behind(i: int, rep: int): int { if rep > 1 then i + 1 else i }

  ghost predicate Folded(s: Setup, p: Oracle, st: RunState, i: int, rep: int) {
    st.stopped ||
    (&& 0 <= Behind(i, rep) <= |s.manifest.cases|
     && ApplyAll(s.add, EMPTY_BOARD, Outcomes(s, p, Behind(i, rep))) == Ok(st.board))
  }

  ghost function Folds(s: Setup, p: Oracle): Invariant {
    (st: RunState, k: int, r: int) => Folded(s, p, st, k, r)
  }

  lemma OutcomesStep(s: Setup, p: Oracle, k: nat, before: Board, after: Result<Board>)
    requires k < |s.manifest.cases| && ApplyAll(s.add, EMPTY_BOARD, Outcomes(s, p, k)) == Ok(before)
    requires ApplyAll(s.add, before, FreshOutcomes(s, s.manifest.cases[k], p(CaseRun(k, 1)))) == after
    ensures ApplyAll(s.add, EMPTY_BOARD, Outcomes(s, p, k + 1)) == after
  {
    ApplyAllConcat(s.add, EMPTY_BOARD, Outcomes(s, p, k), FreshOutcomes(s, s.manifest.cases[k], p(CaseRun(k, 1))));
  }

  /** Taking an answer moves the board only in replicate 1. */
  lemma TakenBoard(s: Setup, board: Board, fits: seq<Fit>, run: CaseRun, q: PoolSummary, next: RunState)
    requires 0 <= run.index < |s.manifest.cases| && Takes(s, board, fits, run, q, next)
    ensures run.replicate == 1 ==> ApplyAll(s.add, board, FreshOutcomes(s, s.manifest.cases[run.index], q)) == Ok(next.board)
    ensures run.replicate != 1 ==> next.board == board
  {
  }

  lemma TakingFolds(s: Setup, p: Oracle, st: RunState, k: nat, r: nat, next: RunState)
    requires k < |s.manifest.cases| && r >= 1 && !st.stopped && Folded(s, p, st, k, r)
    requires Takes(s, st.board, st.fits, CaseRun(k, r), p(CaseRun(k, r)), next)
    ensures ApplyAll(s.add, EMPTY_BOARD, Outcomes(s, p, Behind(k, r + 1))) == Ok(next.board)
  {
    TakenBoard(s, st.board, st.fits, CaseRun(k, r), p(CaseRun(k, r)), next);
    if r == 1 {
      OutcomesStep(s, p, k, st.board, Ok(next.board));
    } else {
      assert Behind(k, r) == Behind(k, r + 1);
    }
  }

  lemma StepFolds(s: Setup, n: int, p: Oracle, st: RunState, k: nat, r: nat)
    requires k < |s.manifest.cases| && r >= 1 && Folded(s, p, st, k, r)
    ensures Folded(s, p, StepOf(s, map[], Steady(n, p))(st, CaseRun(k, r)), k, r + 1)
  {
    var next := Step(s, map[], Steady(n, p), st, CaseRun(k, r));
    if !next.stopped {
      StepsStopForGood(s, map[], Steady(n, p));
      ExecuteTakes(s, Steady(n, p), st, CaseRun(k, r));
      TakingFolds(s, p, st, k, r, next);
    }
  }

  lemma FoldsInductive(s: Setup, n: int, p: Oracle)
    requires n >= 1
    ensures Inductive(Folds(s, p), StepOf(s, map[], Steady(n, p)), |s.manifest.cases|, n)
  {
    var inv, step := Folds(s, p), StepOf(s, map[], Steady(n, p));
    forall st, k, r | inv(st, k, r) && 0 <= k < |s.manifest.cases| && 1 <= r <= n ensures inv(step(st, CaseRun(k, r)), k, r + 1) {
      StepFolds(s, n, p, st, k, r);
    }
  }

  /** A finished run's board is the fold of what the panels answered in replicate 1. */
  lemma FinishedBoardIsFold(s: Setup, n: int, p: Oracle)
    requires n >= 1 && Uninterrupted(s, n, p).Finished?
    ensures ApplyAll(s.add, EMPTY_BOARD, AllOutcomes(s, p)) == Ok(Uninterrupted(s, n, p).board)
  {
    FoldsInductive(s, n, p);
    WalkKeeps(Folds(s, p), StepOf(s, map[], Steady(n, p)), |s.manifest.cases|, n, StartState(None, World(None, [])), |s.manifest.cases|, 1);
  }

  // ------------------------------------------------------------- rows and panels

  /** An agent of identity `k` answered case `i`. */
  ghost predicate Answers(s: Setup, p: Oracle, i: int, k: ReviewerKey) {
    0 <= i < |s.manifest.cases| && exists a :: a in p(CaseRun(i, 1)).agents && KeyOf(s, a) == k
  }

  ghost predicate AnswerOf(s: Setup, p: Oracle, i: int, a: AgentStatus, o: CaseOutcome) {
    && 0 <= i < |s.manifest.cases| && a in p(CaseRun(i, 1)).agents
    && o == FreshOutcome(s, s.manifest.cases[i], p(CaseRun(i, 1)), a)
  }

  lemma FreshMembers(s: Setup, c: SuiteCase, q: PoolSummary, o: CaseOutcome)
    ensures o in FreshOutcomes(s, c, q) <==> exists a :: a in q.agents && o == FreshOutcome(s, c, q, a)
  {
    var os := FreshOutcomes(s, c, q);
    if o in os {
      var i :| 0 <= i < |os| && os[i] == o;
      assert q.agents[i] in q.agents && o == FreshOutcome(s, c, q, q.agents[i]);
    }
    if a :| a in q.agents && o == FreshOutcome(s, c, q, a) {
      var i :| 0 <= i < |q.agents| && q.agents[i] == a;
      assert os[i] == o;
    }
  }

  /** `o` is an answer to one of the first `n` cases. */
  ghost predicate Produced(s: Setup, p: Oracle, n: int, o: CaseOutcome) {
    exists i, a :: 0 <= i < n && AnswerOf(s, p, i, a, o)
  }

  lemma LastCaseProduces(s: Setup, p: Oracle, n: nat, o: CaseOutcome)
    requires 0 < n <= |s.manifest.cases|
    ensures Produced(s, p, n, o) <==>
            Produced(s, p, n - 1, o) || o in FreshOutcomes(s, s.manifest.cases[n - 1], p(CaseRun(n - 1, 1)))
  {
    var c, q := s.manifest.cases[n - 1], p(CaseRun(n - 1, 1));
    FreshMembers(s, c, q, o);
    if a :| a in q.agents && o == FreshOutcome(s, c, q, a) { assert AnswerOf(s, p, n - 1, a, o); }
    if i, a :| 0 <= i < n && AnswerOf(s, p, i, a, o) { assert i < n - 1 ==> Produced(s, p, n - 1, o); }
  }

  lemma {:induction false} OutcomeMembers(s: Setup, p: Oracle, n: nat, o: CaseOutcome)
    requires n <= |s.manifest.cases|
    ensures o in Outcomes(s, p, n) <==> Produced(s, p, n, o)
  {
    if n > 0 {
      OutcomeMembers(s, p, n - 1, o);
      LastCaseProduces(s, p, n, o);
    }
  }

  /** A listed case was answered, under its own id. */
  lemma ListedIsAnswered(s: Setup, p: Oracle, k: ReviewerKey, id: string) returns (m: nat)
    requires id in Row(s.add, OfKey(AllOutcomes(s, p), k)).caseIDs
    ensures m < |s.manifest.cases| && Answers(s, p, m, k) && CaseIDsOf(s.manifest)[m] == id
  {
    var os := AllOutcomes(s, p);
    var mine := OfKey(os, k);
    var ids := Map((o: CaseOutcome) => o.caseID, mine);
    RowCaseIDs(s.add, mine);
    var j :| 0 <= j < |ids| && ids[j] == id;
    assert mine[j] in mine;
    FilterIn((o: CaseOutcome) => o.key == k, os, mine[j]);
    OutcomeMembers(s, p, |s.manifest.cases|, mine[j]);
    var i, a :| 0 <= i < |s.manifest.cases| && AnswerOf(s, p, i, a, mine[j]);
    m := i;
  }

  lemma AnsweredIsListed(s: Setup, p: Oracle, k: ReviewerKey, i: nat)
    requires Answers(s, p, i, k)
    ensures s.manifest.cases[i].id in Row(s.add, OfKey(AllOutcomes(s, p), k)).caseIDs
  {
    var os := AllOutcomes(s, p);
    var mine := OfKey(os, k);
    var ids := Map((o: CaseOutcome) => o.caseID, mine);
    RowCaseIDs(s.add, mine);
    var a :| a in p(CaseRun(i, 1)).agents && KeyOf(s, a) == k;
    var o := FreshOutcome(s, s.manifest.cases[i], p(CaseRun(i, 1)), a);
    assert AnswerOf(s, p, i, a, o);
    OutcomeMembers(s, p, |s.manifest.cases|, o);
    FilterIn((x: CaseOutcome) => x.key == k, os, o);
    var j :| 0 <= j < |mine| && mine[j] == o;
    assert ids[j] == s.manifest.cases[i].id;
  }

  /** The row lists case `i` exactly when an agent of its identity answered it. */
  lemma RowListsAnswers(s: Setup, p: Oracle, k: ReviewerKey, i: nat)
    requires i < |s.manifest.cases| && Distinct(CaseIDsOf(s.manifest))
    ensures s.manifest.cases[i].id in Row(s.add, OfKey(AllOutcomes(s, p), k)).caseIDs <==> Answers(s, p, i, k)
  {
    if s.manifest.cases[i].id in Row(s.add, OfKey(AllOutcomes(s, p), k)).caseIDs {
      var m := ListedIsAnswered(s, p, k, s.manifest.cases[i].id);
      assert CaseIDsOf(s.manifest)[i] == CaseIDsOf(s.manifest)[m];
    }
    if Answers(s, p, i, k) { AnsweredIsListed(s, p, k, i); }
  }

  // ------------------------------------------------------------- tally and tag

  lemma {:induction false} TallyHasOutcome(add: AddCost, os: seq<CaseOutcome>, t: string)
    requires t in Row(add, os).outcomes
    ensures Row(add, os).outcomes[t] > 0
    ensures exists i :: 0 <= i < |os| && OutcomeTallyKey(os[i].outcome) == t
  {
    var n := |os| - 1;
    if t in Row(add, os[..n]).outcomes {
      TallyHasOutcome(add, os[..n], t);
      var i :| 0 <= i < n && OutcomeTallyKey(os[..n][i].outcome) == t;
      assert os[i] == os[..n][i];
    } else {
      assert OutcomeTallyKey(os[n].outcome) == t;
    }
  }

  lemma {:induction false} ObservedIsListed(os: seq<CaseOutcome>, i: nat)
    requires i < |os| && os[i].grounding.Some?
    ensures os[i].grounding in GroundingStates(os)
  {
    var gs := Map((o: CaseOutcome) => o.grounding, os);
    FilterIn((g: Option<bool>) => g.Some?, gs, os[i].grounding);
    assert gs[i] == os[i].grounding;
  }

  /** Outcomes come from the vocabulary, and `ungrounded` only where the gate was seen on. */
  ghost predicate HonestAgents(s: Setup, p: Oracle) {
    forall i, a :: 0 <= i < |s.manifest.cases| && a in p(CaseRun(i, 1)).agents ==>
      && ValidOutcome(a.outcome)
      && (a.outcome == OUTCOME_UNGROUNDED ==> p(CaseRun(i, 1)).grounding == Some(true))
  }

  ghost predicate HonestOutcome(o: CaseOutcome) {
    ValidOutcome(o.outcome) && (o.outcome == OUTCOME_UNGROUNDED ==> o.grounding == Some(true))
  }

  /** Every tallied word is an outcome of the row, so it is in the vocabulary. */
  lemma HonestTally(add: AddCost, os: seq<CaseOutcome>, t: string) returns (i: nat)
    requires (forall i :: 0 <= i < |os| ==> HonestOutcome(os[i])) && t in Row(add, os).outcomes
    ensures i < |os| && OutcomeTallyKey(os[i].outcome) == t
    ensures Row(add, os).outcomes[t] > 0 && t != "" && (t == OUTCOME_UNKNOWN_LABEL || ValidOutcome(t))
  {
    TallyHasOutcome(add, os, t);
    i :| 0 <= i < |os| && OutcomeTallyKey(os[i].outcome) == t;
    assert HonestOutcome(os[i]);
  }

  /** A row with an observed gate is not tagged ungated. */
  lemma {:induction false} ObservedOnIsNotOff(add: AddCost, os: seq<CaseOutcome>, i: nat)
    requires i < |os| && os[i].grounding == Some(true)
    ensures Row(add, os).grounding != Some(false)
  {
    ObservedIsListed(os, i);
    RowGroundingIsObservedUnanimity(add, os, false);
  }

  lemma {:induction false} HonestRowIsLegal(add: AddCost, os: seq<CaseOutcome>, cov: Coverage)
    requires forall i :: 0 <= i < |os| ==> HonestOutcome(os[i])
    requires cov.outcomes == Some(Row(add, os).outcomes) && cov.grounding == Row(add, os).grounding
    ensures LegalRow(cov)
  {
    forall t | t in cov.outcomes.value
      ensures cov.outcomes.value[t] > 0 && t != "" && (t == OUTCOME_UNKNOWN_LABEL || ValidOutcome(t))
    {
      var i := HonestTally(add, os, t);
    }
    if OUTCOME_UNGROUNDED in cov.outcomes.value {
      var i := HonestTally(add, os, OUTCOME_UNGROUNDED);
      assert HonestOutcome(os[i]);
      ObservedOnIsNotOff(add, os, i);
    }
  }

  lemma OwnOutcomesAreHonest(s: Setup, p: Oracle, k: ReviewerKey)
    requires HonestAgents(s, p)
    ensures var mine := OfKey(AllOutcomes(s, p), k); forall i :: 0 <= i < |mine| ==> HonestOutcome(mine[i])
  {
    var os := AllOutcomes(s, p);
    var mine := OfKey(os, k);
    FilterMembers((o: CaseOutcome) => o.key == k, os);
    forall i | 0 <= i < |mine| ensures HonestOutcome(mine[i]) {
      assert mine[i] in mine;
      OutcomeMembers(s, p, |s.manifest.cases|, mine[i]);
    }
  }

  // ------------------------------------------------------------------ the file

  function SortedIds(text: Text, b: Board): seq<ReviewerKey>
    requires forall k :: k in b.order ==> k in b.accs
  {
    Map((r: ScoredRow) => r.id, StableSort(RowLess, RowsOf(text, b.accs, b.order)))
  }

  lemma RowOrigin(text: Text, b: Board, i: nat) returns (k: ReviewerKey)
    requires (forall k :: k in b.order ==> k in b.accs) && Publishable(text, b.order) && i < |b.order|
    ensures |StableSort(RowLess, RowsOf(text, b.accs, b.order))| == |b.order|
    ensures k in b.order && StableSort(RowLess, RowsOf(text, b.accs, b.order))[i] == ScoredRow(text.Publish(k), b.accs[k])
  {
    SortedRows(text, b.accs, b.order);
    var raw := RowsOf(text, b.accs, b.order);
    var rows := StableSort(RowLess, raw);
    assert rows[i] in raw;
    var j :| 0 <= j < |raw| && raw[j] == rows[i];
    k := b.order[j];
  }

  /** What the gate needs of a board: legal rows over the suite. */
  ghost predicate Sound(b: Board, suite: seq<string>) {
    forall k :: k in b.order ==>
      && k in b.accs && Distinct(b.accs[k].caseIDs) && ToSet(b.accs[k].caseIDs) <= ToSet(suite)
      && LegalRow(CoverageOf(ScoredRow(k, b.accs[k])))
  }

  lemma LegalityIgnoresIdentity(a: ReviewerKey, b: ReviewerKey, acc: Acc)
    ensures LegalRow(CoverageOf(ScoredRow(a, acc))) == LegalRow(CoverageOf(ScoredRow(b, acc)))
  {
  }

  lemma EmittedRowStands(text: Text, metrics: Metrics, m: Manifest, b: Board, i: nat)
    requires BoardInv(b) && Publishable(text, b.order) && ScrubIdempotent(text) && Sound(b, CaseIDsOf(m)) && Distinct(CaseIDsOf(m))
    requires i < |b.order|
    ensures forall k :: k in b.order ==> k in b.accs
    ensures var rr := Emit(text, metrics, m, RowsOf(text, b.accs, b.order));
            && |rr.coverage| == |rr.reviewers| == |b.order| == |SortedIds(text, b)|
            && Stands(text, SortedIds(text, b)[i], rr.reviewers[i], rr.coverage[i], rr.suiteCaseIDs) && LegalRow(rr.coverage[i])
  {
    EmittedRowsAlign(text, metrics, m, b);
    var k := RowOrigin(text, b, i);
    assert RowInv(b.accs[k]);
    LegalityIgnoresIdentity(k, text.Publish(k), b.accs[k]);
    SubsetIsSubmultiset(b.accs[k].caseIDs, CaseIDsOf(m));
  }

  lemma EmittedIdsDistinct(text: Text, b: Board)
    requires (forall k :: k in b.order ==> k in b.accs) && Publishable(text, b.order)
    ensures Distinct(SortedIds(text, b))
  {
    SortedRows(text, b.accs, b.order);
    KeyLessIsTotal();
    var ids := SortedIds(text, b);
    forall i, j | 0 <= i < j < |ids| ensures ids[i] != ids[j] { assert WeakAt(KeyLess, ids[i], ids[j], ids[i]); }
  }

  lemma SoundBoardIsWellFormed(text: Text, metrics: Metrics, m: Manifest, b: Board)
    requires BoardInv(b) && Publishable(text, b.order) && ScrubIdempotent(text) && Sound(b, CaseIDsOf(m)) && Distinct(CaseIDsOf(m))
    requires b.order != []
    ensures forall k :: k in b.order ==> k in b.accs
    ensures WellFormed(text, Emit(text, metrics, m, RowsOf(text, b.accs, b.order)))
  {
    EmittedRowsAlign(text, metrics, m, b);
    var rr, ids := Emit(text, metrics, m, RowsOf(text, b.accs, b.order)), SortedIds(text, b);
    EmittedRowStands(text, metrics, m, b, 0);
    forall i | 0 <= i < |ids| ensures Stands(text, ids[i], rr.reviewers[i], rr.coverage[i], rr.suiteCaseIDs) && LegalRow(rr.coverage[i]) {
      EmittedRowStands(text, metrics, m, b, i);
    }
    EmittedIdsDistinct(text, b);
    AllLegalIsEach(rr.coverage);
    StandingRowsCorrespond(text, ids, rr);
  }

  /** Full coverage, row by row. */
  lemma FullIsEachRow(text: Text, metrics: Metrics, m: Manifest, b: Board)
    requires BoardInv(b) && Publishable(text, b.order) && ScrubIdempotent(text) && Sound(b, CaseIDsOf(m)) && Distinct(CaseIDsOf(m))
    ensures forall k :: k in b.order ==> k in b.accs
    ensures FullyCovered(Emit(text, metrics, m, RowsOf(text, b.accs, b.order))) <==>
            forall k :: k in b.order ==> ToSet(CaseIDsOf(m)) <= ToSet(b.accs[k].caseIDs)
  {
    EmittedRowsAlign(text, metrics, m, b);
    SortedRows(text, b.accs, b.order);
    var rr, suite := Emit(text, metrics, m, RowsOf(text, b.accs, b.order)), CaseIDsOf(m);
    forall k | k in b.order
      ensures multiset(b.accs[k].caseIDs) == multiset(suite) <==> ToSet(suite) <= ToSet(b.accs[k].caseIDs)
    {
      SubsetIsSubmultiset(b.accs[k].caseIDs, suite);
    }
    if FullyCovered(rr) {
      forall k | k in b.order ensures ToSet(suite) <= ToSet(b.accs[k].caseIDs) {
        var j := RowPosition(text, b, k);
        assert rr.coverage[j].caseIDs == b.accs[k].caseIDs;
      }
    }
    if forall k :: k in b.order ==> ToSet(suite) <= ToSet(b.accs[k].caseIDs) {
      forall j | 0 <= j < |rr.coverage| ensures multiset(rr.coverage[j].caseIDs) == multiset(suite) {
        var k := RowOrigin(text, b, j);
        assert rr.coverage[j].caseIDs == b.accs[k].caseIDs;
      }
    }
  }

  lemma RowPosition(text: Text, b: Board, k: ReviewerKey) returns (j: nat)
    requires (forall k :: k in b.order ==> k in b.accs) && Publishable(text, b.order) && k in b.order
    ensures j < |b.order| == |StableSort(RowLess, RowsOf(text, b.accs, b.order))|
    ensures StableSort(RowLess, RowsOf(text, b.accs, b.order))[j] == ScoredRow(text.Publish(k), b.accs[k])
  {
    SortedRows(text, b.accs, b.order);
    var raw := RowsOf(text, b.accs, b.order);
    var rows := StableSort(RowLess, raw);
    var i :| 0 <= i < |b.order| && b.order[i] == k;
    assert raw[i] in raw;
    assert raw[i] in rows;
    j :| 0 <= j < |rows| && rows[j] == raw[i];
  }

  // -------------------------------------------------------------- the theorem

  lemma BoardIsSound(s: Setup, p: Oracle, b: Board)
    requires ApplyAll(s.add, EMPTY_BOARD, AllOutcomes(s, p)) == Ok(b) && HonestAgents(s, p)
    ensures BoardInv(b) && Sound(b, CaseIDsOf(s.manifest))
  {
    var os := AllOutcomes(s, p);
    ReachableBoardInv(s.add, os);
    forall k | k in b.order
      ensures k in b.accs && Distinct(b.accs[k].caseIDs) && ToSet(b.accs[k].caseIDs) <= ToSet(CaseIDsOf(s.manifest))
      ensures LegalRow(CoverageOf(ScoredRow(k, b.accs[k])))
    {
      assert k in ToSet(b.order);
      assert RowInv(b.accs[k]);
      RowIsOwnHistory(s.add, os, k);
      forall id | id in b.accs[k].caseIDs ensures id in CaseIDsOf(s.manifest) { var m := ListedIsAnswered(s, p, k, id); }
      OwnOutcomesAreHonest(s, p, k);
      HonestRowIsLegal(s.add, OfKey(os, k), CoverageOf(ScoredRow(k, b.accs[k])));
    }
  }

  /** Some agent answered some case. */
  ghost predicate AnyAnswer(s: Setup, p: Oracle) { exists i, k :: Answers(s, p, i, k) }

  /** Every identity that answered any case answered every case. */
  ghost predicate EveryoneAnswersAll(s: Setup, p: Oracle) {
    forall i, k, m :: Answers(s, p, i, k) && 0 <= m < |s.manifest.cases| ==> Answers(s, p, m, k)
  }

  lemma RegisteredIffAnswers(s: Setup, p: Oracle, b: Board, k: ReviewerKey)
    requires ApplyAll(s.add, EMPTY_BOARD, AllOutcomes(s, p)) == Ok(b)
    ensures k in b.order <==> exists i :: Answers(s, p, i, k)
  {
    var os, n := AllOutcomes(s, p), |s.manifest.cases|;
    OrderIsFirstSighting(s.add, os);
    RowIsOwnHistory(s.add, os, k);
    FilterMembers((o: CaseOutcome) => o.key == k, os);
    if k in b.order {
      var o := OfKey(os, k)[0];
      assert o in OfKey(os, k);
      OutcomeMembers(s, p, n, o);
      var i, a :| 0 <= i < n && AnswerOf(s, p, i, a, o);
      assert Answers(s, p, i, k);
    }
    if i :| Answers(s, p, i, k) {
      var a :| a in p(CaseRun(i, 1)).agents && KeyOf(s, a) == k;
      var o := FreshOutcome(s, s.manifest.cases[i], p(CaseRun(i, 1)), a);
      assert AnswerOf(s, p, i, a, o);
      OutcomeMembers(s, p, n, o);
      assert o in OfKey(os, k);
    }
  }

  lemma RowsFullIffEveryoneAnswers(s: Setup, p: Oracle, b: Board)
    requires ApplyAll(s.add, EMPTY_BOARD, AllOutcomes(s, p)) == Ok(b) && Distinct(CaseIDsOf(s.manifest))
    requires forall k :: k in b.order ==> k in b.accs
    ensures (forall k :: k in b.order ==> ToSet(CaseIDsOf(s.manifest)) <= ToSet(b.accs[k].caseIDs)) <==> EveryoneAnswersAll(s, p)
  {
    var n, ids := |s.manifest.cases|, CaseIDsOf(s.manifest);
    forall k | k in b.order ensures ToSet(ids) <= ToSet(b.accs[k].caseIDs) <==> forall m :: 0 <= m < n ==> Answers(s, p, m, k) {
      RowIsOwnHistory(s.add, AllOutcomes(s, p), k);
      RowFullIff(s, p, k, b.accs[k].caseIDs);
    }
    if EveryoneAnswersAll(s, p) {
      forall k | k in b.order ensures ToSet(ids) <= ToSet(b.accs[k].caseIDs) { RegisteredIffAnswers(s, p, b, k); }
    }
    if forall k :: k in b.order ==> ToSet(ids) <= ToSet(b.accs[k].caseIDs) {
      forall i, k, m | Answers(s, p, i, k) && 0 <= m < n ensures Answers(s, p, m, k) { RegisteredIffAnswers(s, p, b, k); }
    }
  }

  lemma RowFullIff(s: Setup, p: Oracle, k: ReviewerKey, caseIDs: seq<string>)
    requires Distinct(CaseIDsOf(s.manifest)) && caseIDs == Row(s.add, OfKey(AllOutcomes(s, p), k)).caseIDs
    ensures ToSet(CaseIDsOf(s.manifest)) <= ToSet(caseIDs) <==> forall m :: 0 <= m < |s.manifest.cases| ==> Answers(s, p, m, k)
  {
    var n, ids := |s.manifest.cases|, CaseIDsOf(s.manifest);
    forall m | 0 <= m < n ensures ids[m] in caseIDs <==> Answers(s, p, m, k) { RowListsAnswers(s, p, k, m); }
    if ToSet(ids) <= ToSet(caseIDs) {
      forall m | 0 <= m < n ensures Answers(s, p, m, k) { assert ids[m] in ToSet(ids); }
    }
  }

  /**
   After any crashes, a checkpointed invocation that finishes and may publish emits a file
   the gate accepts exactly when some agent answered (or the suite is empty), and accepts
   without the opt-out exactly when, besides, every identity answered every case.
   */
  lemma ResumedRunMeetsGate(text: Text, metrics: Metrics, s: Setup, history: seq<Attempt>, last: Attempt, p: Oracle)
    requires forall a :: a in history ==> a.checkpointed
    requires last.checkpointed && Agrees(p, Answered(s, history), last)
    requires Invoke(s, last, After(s, history)).1.Finished?
    requires Publishable(text, Invoke(s, last, After(s, history)).1.board.order)
    requires ScrubIdempotent(text) && Distinct(CaseIDsOf(s.manifest)) && HonestAgents(s, p)
    ensures var b := Invoke(s, last, After(s, history)).1.board;
            && (forall k :: k in b.order ==> k in b.accs)
            && var rr := Emit(text, metrics, s.manifest, RowsOf(text, b.accs, b.order));
               && (GateSpec(text, rr, true) <==> s.manifest.cases == [] || AnyAnswer(s, p))
               && (GateSpec(text, rr, false) <==> s.manifest.cases == [] || (AnyAnswer(s, p) && EveryoneAnswersAll(s, p)))
  {
    CrashResumeEquivalence(s, history, last, p);
    HistoryIsFaithful(s, history);
    var cp, st := InvokeShape(s, last, After(s, history), Answered(s, history));
    FinishedBoardIsFold(s, last.replicates, p);
    FinishedFileMeetsGate(text, metrics, s, p, Invoke(s, last, After(s, history)).1.board);
  }

  lemma RegisteredIffAnyAnswer(s: Setup, p: Oracle, b: Board)
    requires ApplyAll(s.add, EMPTY_BOARD, AllOutcomes(s, p)) == Ok(b)
    ensures b.order != [] <==> AnyAnswer(s, p)
  {
    if b.order != [] {
      RegisteredIffAnswers(s, p, b, b.order[0]);
      assert b.order[0] in b.order;
      var i :| Answers(s, p, i, b.order[0]);
    }
    if i, k :| Answers(s, p, i, k) { RegisteredIffAnswers(s, p, b, k); }
  }

  /** Without recorded failures the gate is its coverage part. */
  lemma GateWithoutFailures(text: Text, rr: RunResult)
    requires rr.caseFailures == [] && rr.slotFailures == []
    requires rr.coverage != [] ==> rr.suiteCaseIDs != [] && WellFormed(text, rr)
    ensures GateSpec(text, rr, true) <==> rr.suiteCaseIDs == [] || rr.coverage != []
    ensures GateSpec(text, rr, false) <==> rr.suiteCaseIDs == [] || (rr.coverage != [] && FullyCovered(rr))
  {
    assert CaseFailuresSpec(text, rr) && SlotFailuresSpec(text, rr);
  }

  lemma SoundBoardMeetsGate(text: Text, metrics: Metrics, m: Manifest, b: Board)
    requires BoardInv(b) && Publishable(text, b.order) && ScrubIdempotent(text) && Sound(b, CaseIDsOf(m)) && Distinct(CaseIDsOf(m))
    requires m.cases == [] ==> b.order == []
    ensures forall k :: k in b.order ==> k in b.accs
    ensures var rr := Emit(text, metrics, m, RowsOf(text, b.accs, b.order));
            && (GateSpec(text, rr, true) <==> m.cases == [] || b.order != [])
            && (GateSpec(text, rr, false) <==> m.cases == [] || (b.order != [] && FullyCovered(rr)))
  {
    EmittedRowsAlign(text, metrics, m, b);
    var rr := Emit(text, metrics, m, RowsOf(text, b.accs, b.order));
    if b.order != [] { SoundBoardIsWellFormed(text, metrics, m, b); }
    assert rr.coverage == [] <==> b.order == [];
    assert rr.suiteCaseIDs == [] <==> m.cases == [];
    GateWithoutFailures(text, rr);
  }

  lemma FinishedFileMeetsGate(text: Text, metrics: Metrics, s: Setup, p: Oracle, b: Board)
    requires ApplyAll(s.add, EMPTY_BOARD, AllOutcomes(s, p)) == Ok(b) && Publishable(text, b.order)
    requires ScrubIdempotent(text) && Distinct(CaseIDsOf(s.manifest)) && HonestAgents(s, p)
    ensures forall k :: k in b.order ==> k in b.accs
    ensures var rr := Emit(text, metrics, s.manifest, RowsOf(text, b.accs, b.order));
            && (GateSpec(text, rr, true) <==> s.manifest.cases == [] || AnyAnswer(s, p))
            && (GateSpec(text, rr, false) <==> s.manifest.cases == [] || (AnyAnswer(s, p) && EveryoneAnswersAll(s, p)))
  {
    BoardIsSound(s, p, b);
    RegisteredIffAnyAnswer(s, p, b);
    SoundBoardMeetsGate(text, metrics, s.manifest, b);
    FullIsEachRow(text, metrics, s.manifest, b);
    RowsFullIffEveryoneAnswers(s, p, b);
  }
}
