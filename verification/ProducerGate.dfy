/**
 The producer meets the gate. For every repo-state run that succeeds, the file it emits
 passes all three export validators exactly when no reviewed case ran two lanes under one
 realized identity and every lost lane still has a name once scrubbed; it passes without
 the partial-coverage opt-out exactly when, besides, every identity scored every case.
 */
module ProducerGate {
  import opened Basics
  import opened Orders
  import opened Benchmark
  import opened ReviewerFold
  import opened BenchmarkRun
  import opened RunReport
  import opened ExportGate
  import opened RepoStateRun
  import opened RepoStateGate

  // ------------------------------------------------------------- hypotheses

  /** The laws of the two text passes: one scrub is enough, and it adds no control rune. */
  ghost predicate TextLaws(text: Text) {
    && ScrubIdempotent(text)
    && (forall x :: text.printable(x) ==> text.printable(text.scrub(x)))
  }

  predicate Named(text: Text, k: ReviewerKey) {
    !Blank(text.scrub(k.model)) && !Blank(text.scrub(k.persona))
  }

  /** An outcome comes from the vocabulary, and `ungrounded` only where the gate may have run. */
  ghost predicate Honest(e: Event) {
    e.Scores() ==> ValidOutcome(e.slot.outcome) && (e.slot.outcome == OUTCOME_UNGROUNDED ==> e.grounding != Some(false))
  }

  ghost predicate HonestPanels(j: Job) {
    forall i, s :: SlotMet(j, i, s) && SlotLoss(s).None? ==>
      && ValidOutcome(s.outcome)
      && (s.outcome == OUTCOME_UNGROUNDED ==> PanelOf(j, i).grounding != Some(false))
  }

  /** Every lost lane keeps a model and a persona once scrubbed. */
  ghost predicate LostLanesNamed(text: Text, j: Job) {
    forall i, s :: SlotMet(j, i, s) && SlotLoss(s).Some? ==> Named(text, s.key)
  }

  ghost predicate ScoredBy(j: Job, i: int, k: ReviewerKey) {
    exists s :: SlotMet(j, i, s) && s.key == k && SlotLoss(s).None?
  }

  /** Every identity that met any case scored every case. */
  ghost predicate EveryRowFull(j: Job) {
    forall i, s, n :: SlotMet(j, i, s) && 0 <= n < |j.manifest.cases| ==> ScoredBy(j, n, s.key)
  }

  // --------------------------------------------------- what an emitted file holds

  ghost predicate PublishedApart(text: Text, out: seq<ReviewerKey>) {
    forall a, b :: 0 <= a < b < |out| ==> text.Publish(out[a]) != text.Publish(out[b])
  }

  /** Identity `k`'s entry in the ledger, in terms of the events alone. */
  ghost predicate LedgerAt(es: seq<Event>, l: Ledger, k: ReviewerKey) {
    && (k in l.accs <==> Seen(es, k))
    && AccOf(l, k).caseIDs == ScoredIds(es, k)
    && |AccOf(l, k).cases| == |ScoredIds(es, k)|
    && MapSum(AccOf(l, k).outcomes) == |ScoredIds(es, k)|
    && LostOf(l, k) == LostBy(es, k)
    && (k !in l.accs ==> LostOf(l, k) == [])
    && Distinct(ScoredIds(es, k))
  }

  ghost predicate LedgerOf(es: seq<Event>, l: Ledger) { forall k :: LedgerAt(es, l, k) }

  /** The file's rows and slot failures are those of the ledger, in emit order. */
  ghost predicate EmittedFrom(text: Text, es: seq<Event>, l: Ledger, out: seq<ReviewerKey>, rr: RunResult) {
    && LedgerOf(es, l)
    && (forall k :: k in out <==> k in l.accs)
    && PublishedApart(text, out)
    && |rr.coverage| == |rr.reviewers| == |out|
    && (forall i :: 0 <= i < |out| ==>
          && rr.coverage[i] == CoverageRow(text, l, out[i])
          && rr.reviewers[i].key == text.Publish(out[i])
          && rr.reviewers[i].runs == |AccOf(l, out[i]).cases|)
    && rr.slotFailures == PublicSlotFailures(text, l, out)
  }

  /** Each event is about a suite case whose id may be published. */
  ghost predicate AboutSuite(text: Text, es: seq<Event>, rr: RunResult) {
    forall e :: e in es ==> e.caseID in rr.suiteCaseIDs && !Blank(e.caseID) && text.printable(e.caseID)
  }

  /** The ledger of a run is the ledger of its events. */
  lemma FoldIsLedgerOf(add: AddCost, es: seq<Event>, l: Ledger)
    requires FoldEvents(add, EMPTY_LEDGER, es) == Ok(l)
    ensures LedgerOf(es, l)
  {
    ReachableLedgerInv(add, es);
    forall k ensures LedgerAt(es, l, k) {
      LedgerRows(add, es, k);
      RowCounts(add, ScoredOf(es, k));
      assert AccOf(l, k).caseIDs == ScoredIds(es, k);
    }
  }

  // ------------------------------------------------------------ slot failures

  lemma RowCoversIs(text: Text, es: seq<Event>, l: Ledger, out: seq<ReviewerKey>, rr: RunResult, k: ReviewerKey, id: string)
    requires EmittedFrom(text, es, l, out, rr) && k in out
    ensures RowExists(rr.coverage, text.Publish(k))
    ensures RowCovers(rr.coverage, text.Publish(k), id) <==> id in ScoredIds(es, k)
  {
    assert LedgerAt(es, l, k);
    var i :| 0 <= i < |out| && out[i] == k;
    assert rr.coverage[i] == CoverageRow(text, l, k);
  }

  function PublicFailure(text: Text, k: ReviewerKey, s: LostSlot): SlotFailure {
    SlotFailure(text.Publish(k), s.caseID, LossReason(s.loss))
  }

  lemma PublicMembers(text: Text, k: ReviewerKey, ls: seq<LostSlot>, fs: seq<SlotFailure>, f: SlotFailure)
    requires |fs| == |ls| && forall i :: 0 <= i < |ls| ==> fs[i] == PublicFailure(text, k, ls[i])
    ensures f in fs <==> exists s :: s in ls && f == PublicFailure(text, k, s)
  {
    if f in fs {
      var i :| 0 <= i < |fs| && fs[i] == f;
      assert ls[i] in ls && f == PublicFailure(text, k, ls[i]);
    }
    if s :| s in ls && f == PublicFailure(text, k, s) {
      var i :| 0 <= i < |ls| && ls[i] == s;
      assert fs[i] == f;
    }
  }

  lemma PublicLostMembers(text: Text, l: Ledger, k: ReviewerKey, f: SlotFailure)
    ensures f in PublicLost(text, l, k) <==> exists s :: s in LostOf(l, k) && f == PublicFailure(text, k, s)
  {
    PublicMembers(text, k, LostOf(l, k), PublicLost(text, l, k), f);
  }

  /** `f` is a lost slot of some identity in `out`. */
  ghost predicate LostIn(text: Text, l: Ledger, out: seq<ReviewerKey>, f: SlotFailure) {
    exists k, s :: k in out && s in LostOf(l, k) && f == PublicFailure(text, k, s)
  }

  lemma {:induction false} FlatMembers(text: Text, l: Ledger, out: seq<ReviewerKey>, f: SlotFailure)
    ensures f in PublicSlotFailures(text, l, out) <==> LostIn(text, l, out, f)
  {
    if out != [] {
      var n := |out| - 1;
      FlatMembers(text, l, out[..n], f);
      PublicLostMembers(text, l, out[n], f);
      assert out == out[..n] + [out[n]];
    }
  }

  lemma PairsOfOneKey(text: Text, l: Ledger, k: ReviewerKey)
    ensures var pairs := FailedPairs(PublicLost(text, l, k));
            && (Distinct(pairs) <==> Distinct(LostIds(LostOf(l, k))))
            && (forall p :: p in pairs ==> p.key == text.Publish(k))
  {
    var pairs, ids := FailedPairs(PublicLost(text, l, k)), LostIds(LostOf(l, k));
    assert |pairs| == |ids| && forall i :: 0 <= i < |ids| ==> pairs[i] == Pair(text.Publish(k), ids[i]);
  }

  ghost predicate LossesDistinct(l: Ledger, out: seq<ReviewerKey>) {
    forall k :: k in out ==> Distinct(LostIds(LostOf(l, k)))
  }

  ghost predicate PublicKeyOf(text: Text, out: seq<ReviewerKey>, id: ReviewerKey) {
    exists i :: 0 <= i < |out| && text.Publish(out[i]) == id
  }

  lemma {:induction false} FlatKeys(text: Text, l: Ledger, out: seq<ReviewerKey>, p: Pair)
    requires p in FailedPairs(PublicSlotFailures(text, l, out))
    ensures PublicKeyOf(text, out, p.key)
  {
    var fs := PublicSlotFailures(text, l, out);
    var i :| 0 <= i < |fs| && FailedPairs(fs)[i] == p;
    FlatMembers(text, l, out, fs[i]);
    var k, s :| k in out && s in LostOf(l, k) && fs[i] == PublicFailure(text, k, s);
    var n :| 0 <= n < |out| && out[n] == k;
    assert text.Publish(out[n]) == p.key;
  }

  lemma FlatSplit(text: Text, l: Ledger, before: seq<ReviewerKey>, k: ReviewerKey)
    requires PublishedApart(text, before + [k])
    ensures var xs, ys := FailedPairs(PublicSlotFailures(text, l, before)), FailedPairs(PublicLost(text, l, k));
            FailedPairs(PublicSlotFailures(text, l, before + [k])) == xs + ys && forall p :: p in xs ==> p !in ys
  {
    var fs, gs := PublicSlotFailures(text, l, before), PublicLost(text, l, k);
    assert (before + [k])[..|before|] == before;
    assert PublicSlotFailures(text, l, before + [k]) == fs + gs;
    assert FailedPairs(fs + gs) == FailedPairs(fs) + FailedPairs(gs);
    PairsOfOneKey(text, l, k);
    forall p | p in FailedPairs(fs) ensures p !in FailedPairs(gs) {
      FlatKeys(text, l, before, p);
      var i :| 0 <= i < |before| && text.Publish(before[i]) == p.key;
      assert (before + [k])[i] == before[i] && (before + [k])[|before|] == k;
    }
  }

  /** No pair repeats in the flattened array exactly when no identity lost a case twice. */
  lemma {:induction false} FlatDistinct(text: Text, l: Ledger, out: seq<ReviewerKey>)
    requires PublishedApart(text, out)
    ensures Distinct(FailedPairs(PublicSlotFailures(text, l, out))) <==> LossesDistinct(l, out)
  {
    if out != [] {
      var n := |out| - 1;
      var before, k := out[..n], out[n];
      assert out == before + [k];
      FlatDistinct(text, l, before);
      FlatSplit(text, l, before, k);
      PairsOfOneKey(text, l, k);
      DistinctConcat(FailedPairs(PublicSlotFailures(text, l, before)), FailedPairs(PublicLost(text, l, k)));
    }
  }

  ghost predicate LostNamed(text: Text, es: seq<Event>) {
    forall e :: e in es && !e.Scores() ==> Named(text, e.Key())
  }

  lemma PublicFailureOk(text: Text, es: seq<Event>, l: Ledger, out: seq<ReviewerKey>, rr: RunResult, e: Event)
    requires EmittedFrom(text, es, l, out, rr) && AboutSuite(text, es, rr) && TextLaws(text)
    requires e in es && !e.Scores() && e.Key() in out && text.PrintableKey(e.Key())
    ensures SlotFailureOk(text, rr, PublicFailure(text, e.Key(), Lost(e))) <==>
            Named(text, e.Key()) && e.caseID !in ScoredIds(es, e.Key())
  {
    RowCoversIs(text, es, l, out, rr, e.Key(), e.caseID);
  }

  /** Every lost slot of the file is named and was not scored by its own row. */
  ghost predicate LossesStand(text: Text, es: seq<Event>) {
    forall e :: e in es && !e.Scores() ==> Named(text, e.Key()) && e.caseID !in ScoredIds(es, e.Key())
  }

  lemma FailuresStand(text: Text, es: seq<Event>, l: Ledger, out: seq<ReviewerKey>, rr: RunResult)
    requires EmittedFrom(text, es, l, out, rr) && AboutSuite(text, es, rr) && TextLaws(text)
    requires forall k :: k in out ==> text.PrintableKey(k)
    ensures (forall f :: f in rr.slotFailures ==> SlotFailureOk(text, rr, f)) <==> LossesStand(text, es)
  {
    forall e | e in es ensures e.Key() in out {
      assert LedgerAt(es, l, e.Key());
      var i :| 0 <= i < |es| && es[i] == e;
    }
    if LossesStand(text, es) {
      forall f | f in rr.slotFailures ensures SlotFailureOk(text, rr, f) {
        FlatMembers(text, l, out, f);
        var k, s :| k in out && s in LostOf(l, k) && f == PublicFailure(text, k, s);
        assert LedgerAt(es, l, k);
        LostMembers(es, k, s);
        var e :| e in es && e.Key() == k && !e.Scores() && Lost(e) == s;
        PublicFailureOk(text, es, l, out, rr, e);
      }
    }
    if forall f :: f in rr.slotFailures ==> SlotFailureOk(text, rr, f) {
      forall e | e in es && !e.Scores() ensures Named(text, e.Key()) && e.caseID !in ScoredIds(es, e.Key()) {
        assert LedgerAt(es, l, e.Key());
        LostMembers(es, e.Key(), Lost(e));
        FlatMembers(text, l, out, PublicFailure(text, e.Key(), Lost(e)));
        PublicFailureOk(text, es, l, out, rr, e);
      }
    }
  }

  ghost predicate NoCaseLostAndScored(es: seq<Event>, k: ReviewerKey) {
    ToSet(ScoredIds(es, k)) !! ToSet(LostIds(LostBy(es, k)))
  }

  lemma DisjointIsUnscored(es: seq<Event>)
    ensures (forall k :: NoCaseLostAndScored(es, k)) <==>
            (forall e :: e in es && !e.Scores() ==> e.caseID !in ScoredIds(es, e.Key()))
  {
    if forall k :: NoCaseLostAndScored(es, k) {
      forall e | e in es && !e.Scores() ensures e.caseID !in ScoredIds(es, e.Key()) {
        LostMembers(es, e.Key(), Lost(e));
        var ls := LostBy(es, e.Key());
        var i :| 0 <= i < |ls| && ls[i] == Lost(e);
        assert LostIds(ls)[i] in ToSet(LostIds(ls));
        assert NoCaseLostAndScored(es, e.Key());
      }
    }
    if forall e :: e in es && !e.Scores() ==> e.caseID !in ScoredIds(es, e.Key()) {
      forall k ensures NoCaseLostAndScored(es, k) {
        forall id | id in LostIds(LostBy(es, k)) ensures id !in ScoredIds(es, k) {
          var ls := LostBy(es, k);
          var i :| 0 <= i < |ls| && LostIds(ls)[i] == id;
          LostMembers(es, k, ls[i]);
        }
      }
    }
  }

  lemma AllOnceByKey(es: seq<Event>)
    ensures AllOnce(es) <==> forall k :: OnceFor(es, k)
  {
    if forall k :: OnceFor(es, k) {
      forall a, b | 0 <= a < b < |es| && es[a].Key() == es[b].Key() ensures es[a].caseID != es[b].caseID {
        assert OnceFor(es, es[a].Key());
      }
    }
  }

  lemma LossesDistinctByKey(es: seq<Event>, l: Ledger, out: seq<ReviewerKey>, k: ReviewerKey)
    requires LedgerOf(es, l) && (forall k :: k in out <==> k in l.accs) && LossesDistinct(l, out)
    ensures Distinct(LostIds(LostBy(es, k)))
  {
    assert LedgerAt(es, l, k);
    assert k in out ==> Distinct(LostIds(LostOf(l, k)));
  }

  /** The slot channel passes its validator exactly when each identity met each case once. */
  lemma SlotChannel(text: Text, es: seq<Event>, l: Ledger, out: seq<ReviewerKey>, rr: RunResult)
    requires EmittedFrom(text, es, l, out, rr) && AboutSuite(text, es, rr) && TextLaws(text)
    requires forall k :: k in out ==> text.PrintableKey(k)
    ensures SlotFailuresSpec(text, rr) <==> AllOnce(es) && LostNamed(text, es)
  {
    FailuresStand(text, es, l, out, rr);
    FlatDistinct(text, l, out);
    LossesStandSplit(text, es);
    OnceIsLosses(es, l, out);
    AllOk(text, rr, rr.slotFailures);
  }

  lemma AllOk(text: Text, rr: RunResult, fs: seq<SlotFailure>)
    ensures AllSlotFailuresOk(text, rr, fs) <==> (forall f :: f in fs ==> SlotFailureOk(text, rr, f)) && Distinct(FailedPairs(fs))
  {
  }

  lemma LossesStandSplit(text: Text, es: seq<Event>)
    ensures LossesStand(text, es) <==> LostNamed(text, es) && forall k :: NoCaseLostAndScored(es, k)
  {
    DisjointIsUnscored(es);
  }

  lemma OnceIsLosses(es: seq<Event>, l: Ledger, out: seq<ReviewerKey>)
    requires LedgerOf(es, l) && forall k :: k in out <==> k in l.accs
    ensures AllOnce(es) <==> LossesDistinct(l, out) && forall k :: NoCaseLostAndScored(es, k)
  {
    AllOnceByKey(es);
    if AllOnce(es) {
      forall k ensures NoCaseLostAndScored(es, k) && Distinct(LostIds(LostOf(l, k))) {
        assert OnceFor(es, k) && LedgerAt(es, l, k);
        OnceIsDisjoint(es, k);
      }
    }
    if LossesDistinct(l, out) && forall k :: NoCaseLostAndScored(es, k) {
      forall k ensures OnceFor(es, k) {
        assert LedgerAt(es, l, k) && NoCaseLostAndScored(es, k);
        LossesDistinctByKey(es, l, out, k);
        OnceIsDisjoint(es, k);
      }
    }
  }

  // ----------------------------------------------------------------- coverage

  lemma {:induction false} HonestRowIsLegal(text: Text, add: AddCost, es: seq<Event>, l: Ledger, k: ReviewerKey)
    requires FoldEvents(add, EMPTY_LEDGER, es) == Ok(l)
    requires forall e :: e in es ==> Honest(e)
    ensures LegalRow(CoverageRow(text, l, k))
  {
    LedgerRows(add, es, k);
    var mine := ScoredOf(es, k);
    var c := CoverageRow(text, l, k);
    forall i | 0 <= i < |mine| ensures Honest(mine[i]) && mine[i].Scores() { ScoredMembers(es, k, mine[i]); }
    forall t | t in c.outcomes.value
      ensures c.outcomes.value[t] > 0 && t != "" && (t == OUTCOME_UNKNOWN_LABEL || ValidOutcome(t))
      ensures t == OUTCOME_UNGROUNDED ==> c.grounding != Some(false)
    {
      RowTally(add, mine, t);
      var i :| 0 <= i < |mine| && OutcomeTallyKey(mine[i].slot.outcome) == t;
      assert Honest(mine[i]);
      RowTag(add, mine, false);
    }
  }

  lemma ScoredIdsAreSuite(text: Text, es: seq<Event>, k: ReviewerKey, rr: RunResult)
    requires AboutSuite(text, es, rr)
    ensures ToSet(ScoredIds(es, k)) <= ToSet(rr.suiteCaseIDs)
  {
    forall id | id in ScoredIds(es, k) ensures id in rr.suiteCaseIDs {
      var i :| 0 <= i < |ScoredIds(es, k)| && ScoredIds(es, k)[i] == id;
      ScoredMembers(es, k, ScoredOf(es, k)[i]);
    }
  }

  /** Row `i` of the file agrees with its partner, is legal and covers part of the suite. */
  ghost predicate RowStands(text: Text, es: seq<Event>, k: ReviewerKey, rev: PublicRecord, cov: Coverage, suite: seq<string>) {
    && Stands(text, text.Publish(k), rev, cov, suite)
    && LegalRow(cov)
    && (multiset(cov.caseIDs) == multiset(suite) <==> ToSet(suite) <= ToSet(ScoredIds(es, k)))
  }

  lemma EmittedRowStands(text: Text, es: seq<Event>, l: Ledger, out: seq<ReviewerKey>, rr: RunResult, i: nat)
    requires EmittedFrom(text, es, l, out, rr) && AboutSuite(text, es, rr) && TextLaws(text)
    requires i < |out| && Distinct(rr.suiteCaseIDs) && LegalRow(CoverageRow(text, l, out[i]))
    ensures RowStands(text, es, out[i], rr.reviewers[i], rr.coverage[i], rr.suiteCaseIDs)
  {
    assert LedgerAt(es, l, out[i]);
    ScoredIdsAreSuite(text, es, out[i], rr);
    SubsetIsSubmultiset(ScoredIds(es, out[i]), rr.suiteCaseIDs);
  }

  lemma StandingRowsAreWellFormed(text: Text, es: seq<Event>, out: seq<ReviewerKey>, rr: RunResult)
    requires PublishedApart(text, out) && out != [] && Distinct(rr.suiteCaseIDs)
    requires |rr.coverage| == |rr.reviewers| == |out|
    requires forall i :: 0 <= i < |out| ==> RowStands(text, es, out[i], rr.reviewers[i], rr.coverage[i], rr.suiteCaseIDs)
    ensures WellFormed(text, rr)
    ensures FullyCovered(rr) <==> forall k :: k in out ==> ToSet(rr.suiteCaseIDs) <= ToSet(ScoredIds(es, k))
  {
    AllLegalIsEach(rr.coverage);
    var ids := Map(text.Publish, out);
    forall i | 0 <= i < |out| ensures Stands(text, ids[i], rr.reviewers[i], rr.coverage[i], rr.suiteCaseIDs) {
      assert RowStands(text, es, out[i], rr.reviewers[i], rr.coverage[i], rr.suiteCaseIDs);
    }
    StandingRowsCorrespond(text, ids, rr);
  }

  /** The coverage array is always well formed; it is full when every row scored the whole suite. */
  lemma CoverageChannel(text: Text, es: seq<Event>, l: Ledger, out: seq<ReviewerKey>, rr: RunResult)
    requires EmittedFrom(text, es, l, out, rr) && AboutSuite(text, es, rr) && TextLaws(text)
    requires out != [] && Distinct(rr.suiteCaseIDs)
    requires forall k :: k in out ==> LegalRow(CoverageRow(text, l, k))
    ensures WellFormed(text, rr)
    ensures FullyCovered(rr) <==> forall k :: k in out ==> ToSet(rr.suiteCaseIDs) <= ToSet(ScoredIds(es, k))
  {
    forall i | 0 <= i < |out| ensures RowStands(text, es, out[i], rr.reviewers[i], rr.coverage[i], rr.suiteCaseIDs) {
      EmittedRowStands(text, es, l, out, rr, i);
    }
    StandingRowsAreWellFormed(text, es, out, rr);
  }

  // ---------------------------------------------------------------- case failures

  /** A case recorded as failed is named in no row, is recorded once, and is a suite case. */
  lemma CaseChannel(text: Text, j: Job, n: nat, l: Ledger, out: seq<ReviewerKey>, rr: RunResult)
    requires n == |j.manifest.cases| && LoadedSuite(text, j.manifest)
    requires EmittedFrom(text, History(j, n), l, out, rr)
    requires rr.suiteCaseIDs == SuiteIds(j.manifest) && rr.caseFailures == PublicCaseFailures(FailuresSoFar(j, n))
    ensures CaseFailuresSpec(text, rr)
  {
    var fs := FailuresSoFar(j, n);
    FailureMembers(j, n);
    assert FailedIds(rr.caseFailures) == Map((f: FailedCase) => f.caseID, fs);
    forall a | 0 <= a < |fs| ensures CaseFailureOk(text, rr, rr.caseFailures[a]) {
      assert fs[a] in fs;
      var i :| 0 <= i < n && Failing(j, i) && j.manifest.cases[i].id == fs[a].caseID;
      assert SuiteIds(j.manifest)[i] == fs[a].caseID;
      if fs[a].caseID in CoveredCases(rr.coverage) { CoveredIsReviewed(text, j, n, l, out, rr, i); }
    }
  }

  lemma CoveredIsReviewed(text: Text, j: Job, n: nat, l: Ledger, out: seq<ReviewerKey>, rr: RunResult, i: nat)
    requires n == |j.manifest.cases| && i < n && Distinct(SuiteIds(j.manifest))
    requires EmittedFrom(text, History(j, n), l, out, rr)
    requires SuiteIds(j.manifest)[i] in CoveredCases(rr.coverage)
    ensures WasReviewed(j, i)
  {
    var es, id := History(j, n), SuiteIds(j.manifest)[i];
    var r :| 0 <= r < |rr.coverage| && id in rr.coverage[r].caseIDs;
    assert LedgerAt(es, l, out[r]);
    var a :| 0 <= a < |ScoredIds(es, out[r])| && ScoredIds(es, out[r])[a] == id;
    var e := ScoredOf(es, out[r])[a];
    ScoredMembers(es, out[r], e);
    HistoryMembers(j, n, e);
    var m :| 0 <= m < n && EventOfCase(j, m, e);
    assert SuiteIds(j.manifest)[m] == id;
  }

  // ---------------------------------------------------------------- the theorem

  lemma RowsAreEmitted(text: Text, metrics: Metrics, m: Manifest, es: seq<Event>, st: RepoRun)
    requires LedgerOf(es, st.ledger) && LedgerInv(st.ledger) && Publishable(text, st.ledger.order) && st.ledger.order != []
    ensures var out := EmitOrder(text, st.ledger.order);
            && EmittedFrom(text, es, st.ledger, out, EmitRun(text, metrics, m, st))
            && out != [] && (forall k :: k in out ==> text.PrintableKey(k))
  {
    var out := EmitOrder(text, st.ledger.order);
    EmitOrderFacts(text, st.ledger.order);
    RowsAlign(text, metrics, st.ledger, out);
    assert forall k :: k in st.ledger.order <==> k in ToSet(st.ledger.order);
  }

  lemma LedgerAtEnd(j: Job)
    requires !At(j, |j.manifest.cases|).aborted
    ensures var n, st := |j.manifest.cases|, At(j, |j.manifest.cases|);
            && LedgerOf(History(j, n), st.ledger) && LedgerInv(st.ledger)
            && st.caseIDs == SuiteIds(j.manifest) && st.caseFailures == FailuresSoFar(j, n)
  {
    var n := |j.manifest.cases|;
    var l := At(j, n).ledger;
    LoopAccounting(j, n);
    assert SuiteIds(j.manifest)[..n] == SuiteIds(j.manifest);
    assert LedgerOf(History(j, n), l) && LedgerInv(l) by {
      LedgerIsHistory(j, n);
      ReachableLedgerInv(j.add, History(j, n));
      FoldIsLedgerOf(j.add, History(j, n), l);
    }
  }

  lemma EmissionFacts(text: Text, metrics: Metrics, j: Job)
    requires Succeeds(text, j)
    ensures var n := |j.manifest.cases|;
            var st := At(j, n);
            var rr := EmitRun(text, metrics, j.manifest, st);
            var out := EmitOrder(text, st.ledger.order);
            && EmittedFrom(text, History(j, n), st.ledger, out, rr)
            && out != [] && (forall k :: k in out ==> text.PrintableKey(k))
            && st.caseIDs == SuiteIds(j.manifest)
            && st.caseFailures == FailuresSoFar(j, n)
  {
    LedgerAtEnd(j);
    RowsAreEmitted(text, metrics, j.manifest, History(j, |j.manifest.cases|), At(j, |j.manifest.cases|));
  }

  lemma HistoryIsAboutSuite(text: Text, j: Job, rr: RunResult)
    requires LoadedSuite(text, j.manifest) && rr.suiteCaseIDs == SuiteIds(j.manifest)
    ensures AboutSuite(text, History(j, |j.manifest.cases|), rr)
  {
    forall e | e in History(j, |j.manifest.cases|)
      ensures e.caseID in rr.suiteCaseIDs && !Blank(e.caseID) && text.printable(e.caseID)
    {
      HistoryMembers(j, |j.manifest.cases|, e);
      var i :| 0 <= i < |j.manifest.cases| && EventOfCase(j, i, e);
      assert SuiteIds(j.manifest)[i] == e.caseID;
    }
  }

  function EventAt(j: Job, i: int, s: Slot): Event
    requires 0 <= i < |j.manifest.cases| && WasReviewed(j, i)
  {
    Event(j.manifest.cases[i].id, j.manifest.cases[i].expected, PanelOf(j, i).grounding, s)
  }

  lemma SlotIsEvent(j: Job, i: int, s: Slot)
    requires SlotMet(j, i, s)
    ensures EventAt(j, i, s) in History(j, |j.manifest.cases|)
  {
    HistoryMembers(j, |j.manifest.cases|, EventAt(j, i, s));
    assert EventOfCase(j, i, EventAt(j, i, s));
  }

  lemma HypothesesByEvent(text: Text, j: Job)
    ensures HonestPanels(j) ==> forall e :: e in History(j, |j.manifest.cases|) ==> Honest(e)
    ensures LostLanesNamed(text, j) <==> LostNamed(text, History(j, |j.manifest.cases|))
  {
    var es := History(j, |j.manifest.cases|);
    forall e | e in es ensures exists i :: EventOfCase(j, i, e) { HistoryMembers(j, |j.manifest.cases|, e); }
    if LostNamed(text, es) {
      forall i, s | SlotMet(j, i, s) && SlotLoss(s).Some? ensures Named(text, s.key) {
        SlotIsEvent(j, i, s);
        assert !EventAt(j, i, s).Scores();
      }
    }
  }

  lemma ScoredIdIsScoredBy(j: Job, i: nat, k: ReviewerKey)
    requires i < |j.manifest.cases| && Distinct(SuiteIds(j.manifest))
    ensures SuiteIds(j.manifest)[i] in ScoredIds(History(j, |j.manifest.cases|), k) <==> ScoredBy(j, i, k)
  {
    var n := |j.manifest.cases|;
    var es, id := History(j, n), SuiteIds(j.manifest)[i];
    if id in ScoredIds(es, k) {
      var a :| 0 <= a < |ScoredIds(es, k)| && ScoredIds(es, k)[a] == id;
      var e := ScoredOf(es, k)[a];
      ScoredMembers(es, k, e);
      HistoryMembers(j, n, e);
      var m :| 0 <= m < n && EventOfCase(j, m, e);
      assert SuiteIds(j.manifest)[m] == id;
      assert SlotMet(j, i, e.slot);
    }
    if s :| SlotMet(j, i, s) && s.key == k && SlotLoss(s).None? {
      SlotIsEvent(j, i, s);
      ScoredMembers(es, k, EventAt(j, i, s));
      var a :| 0 <= a < |ScoredOf(es, k)| && ScoredOf(es, k)[a] == EventAt(j, i, s);
      assert ScoredIds(es, k)[a] == id;
    }
  }

  lemma SuiteScoredBy(j: Job, k: ReviewerKey)
    requires Distinct(SuiteIds(j.manifest))
    ensures ToSet(SuiteIds(j.manifest)) <= ToSet(ScoredIds(History(j, |j.manifest.cases|), k)) <==>
            forall m :: 0 <= m < |j.manifest.cases| ==> ScoredBy(j, m, k)
  {
    var n := |j.manifest.cases|;
    var es, ids := History(j, n), SuiteIds(j.manifest);
    forall m | 0 <= m < n ensures ids[m] in ScoredIds(es, k) <==> ScoredBy(j, m, k) { ScoredIdIsScoredBy(j, m, k); }
    forall m | 0 <= m < n ensures ids[m] in ToSet(ids) { }
    if ToSet(ids) <= ToSet(ScoredIds(es, k)) {
      forall m | 0 <= m < n ensures ScoredBy(j, m, k) { assert ids[m] in ToSet(ids); }
    }
  }

  lemma FullIsEveryRow(text: Text, j: Job, l: Ledger, out: seq<ReviewerKey>, rr: RunResult)
    requires EmittedFrom(text, History(j, |j.manifest.cases|), l, out, rr) && Distinct(SuiteIds(j.manifest))
    ensures (forall k :: k in out ==> ToSet(SuiteIds(j.manifest)) <= ToSet(ScoredIds(History(j, |j.manifest.cases|), k)))
            <==> EveryRowFull(j)
  {
    var n := |j.manifest.cases|;
    var es, ids := History(j, n), SuiteIds(j.manifest);
    if EveryRowFull(j) {
      forall k | k in out ensures ToSet(ids) <= ToSet(ScoredIds(es, k)) {
        assert LedgerAt(es, l, k);
        SeenIsMet(j, k);
        SuiteScoredBy(j, k);
      }
    }
    if forall k :: k in out ==> ToSet(ids) <= ToSet(ScoredIds(es, k)) {
      forall i, s, m | SlotMet(j, i, s) && 0 <= m < n ensures ScoredBy(j, m, s.key) {
        assert LedgerAt(es, l, s.key);
        SeenIsMet(j, s.key);
        SuiteScoredBy(j, s.key);
      }
    }
  }

  lemma SeenIsMet(j: Job, k: ReviewerKey)
    ensures Seen(History(j, |j.manifest.cases|), k) <==> exists i, s :: SlotMet(j, i, s) && s.key == k
  {
    var es := History(j, |j.manifest.cases|);
    if Seen(es, k) {
      var a :| 0 <= a < |es| && es[a].Key() == k;
      HistoryMembers(j, |j.manifest.cases|, es[a]);
      var i :| 0 <= i < |j.manifest.cases| && EventOfCase(j, i, es[a]);
      assert SlotMet(j, i, es[a].slot);
    }
    if i, s :| SlotMet(j, i, s) && s.key == k {
      SlotIsEvent(j, i, s);
      var a :| 0 <= a < |es| && es[a] == EventAt(j, i, s);
      assert es[a].Key() == k;
    }
  }

  /** Every file a successful repo-state run emits passes the gate exactly under these conditions. */
  lemma ProducerMeetsGate(text: Text, metrics: Metrics, j: Job)
    requires Succeeds(text, j) && LoadedSuite(text, j.manifest) && TextLaws(text) && HonestPanels(j)
    ensures var rr := EmitRun(text, metrics, j.manifest, At(j, |j.manifest.cases|));
            var lanes := LanesDistinct(j, |j.manifest.cases|) && LostLanesNamed(text, j);
            && (GateSpec(text, rr, true) <==> lanes)
            && (GateSpec(text, rr, false) <==> lanes && EveryRowFull(j))
  {
    var n := |j.manifest.cases|;
    var st := At(j, n);
    var rr := EmitRun(text, metrics, j.manifest, st);
    var out := EmitOrder(text, st.ledger.order);
    EmissionFacts(text, metrics, j);
    HistoryIsAboutSuite(text, j, rr);
    HypothesesByEvent(text, j);
    CaseChannel(text, j, n, st.ledger, out, rr);
    SlotChannel(text, History(j, n), st.ledger, out, rr);
    OnceIsDistinctLanes(j, n);
    forall k ensures LegalRow(CoverageRow(text, st.ledger, k)) {
      LedgerIsHistory(j, n);
      HonestRowIsLegal(text, j.add, History(j, n), st.ledger, k);
    }
    CoverageChannel(text, History(j, n), st.ledger, out, rr);
    FullIsEveryRow(text, j, st.ledger, out, rr);
    assert rr.suiteCaseIDs != [] by { OrderNeedsCases(j); }
  }

  lemma OrderNeedsCases(j: Job)
    requires At(j, |j.manifest.cases|).ledger.order != []
    ensures j.manifest.cases != []
  {
  }

  // ------------------------------------------------------- two lanes, one identity

  function Lane(agent: string, k: ReviewerKey, status: CallStatus, worthless: bool): Slot {
    Slot(agent, k, status, worthless, [], "clean", false, false, 0.0, 0)
  }

  /** One case, reviewed by two lanes; the call of the first one succeeded. */
  function TwoLaneJob(add: AddCost, id: string, a: Slot, b: Slot): Job {
    Job(Manifest("s", "1", [SuiteCase(id, [])]), 0, add,
        i => Trial(false, Passed, true, true, Passed, Passed, Panel(None, [a, b]), true, true), false)
  }

  lemma TwoLanesAreReviewed(add: AddCost, id: string, a: Slot, b: Slot)
    requires a.status.CallOk? && a.agent != VISUAL_PERSONA
    ensures var j := TwoLaneJob(add, id, a, b); WasReviewed(j, 0) && PanelOf(j, 0) == Panel(None, [a, b])
  {
    var readers := (s: Slot) => s.agent != VISUAL_PERSONA;
    FilterIn(readers, [a, b], a);
    var judged := Judged([a, b]);
    assert a in judged;
    var k :| 0 <= k < |judged| && judged[k] == a;
  }

  lemma TwoLanesFold(add: AddCost, id: string, a: Slot, b: Slot)
    requires SlotLoss(b).Some?
    ensures var order := if a.key == b.key then [a.key] else [a.key, b.key];
            var es := EventsOf(SuiteCase(id, []), Panel(None, [a, b]));
            FoldEvents(add, EMPTY_LEDGER, es).Ok? && FoldEvents(add, EMPTY_LEDGER, es).value.order == order
  {
    var e, f := Event(id, [], None, a), Event(id, [], None, b);
    assert EventsOf(SuiteCase(id, []), Panel(None, [a, b])) == [e, f];
    assert [e, f][..1] == [e] && [e][..0] == [];
    var l := FoldEvent(add, EMPTY_LEDGER, e).value;
    assert FoldEvents(add, EMPTY_LEDGER, [e]) == Ok(l);
    assert l.order == [a.key] && l.accs.Keys == {a.key};
  }

  lemma TwoLanesSucceed(text: Text, add: AddCost, id: string, a: Slot, b: Slot)
    requires a.status.CallOk? && a.agent != VISUAL_PERSONA && SlotLoss(b).Some?
    requires Publishable(text, if a.key == b.key then [a.key] else [a.key, b.key])
    ensures Succeeds(text, TwoLaneJob(add, id, a, b))
  {
    var j := TwoLaneJob(add, id, a, b);
    TwoLanesAreReviewed(add, id, a, b);
    TwoLanesFold(add, id, a, b);
    assert At(j, 0) == FIRST_HEAD;
  }

  lemma TwoLanesAreSound(text: Text, add: AddCost, id: string, a: Slot, b: Slot)
    requires a.status.CallOk? && a.agent != VISUAL_PERSONA && a.outcome == b.outcome == "clean"
    requires text.printable(id) && !Blank(id)
    ensures var j := TwoLaneJob(add, id, a, b); LoadedSuite(text, j.manifest) && HonestPanels(j)
  {
    var j := TwoLaneJob(add, id, a, b);
    TwoLanesAreReviewed(add, id, a, b);
    forall i, s | SlotMet(j, i, s) ensures s.outcome == "clean" { }
  }

  /**
   The run accepts such a panel, whether the first lane scored or came back worthless, and
   publishes a file that its own gate then rejects.
   */
  lemma SharedLaneIsRefused(text: Text, metrics: Metrics, add: AddCost, id: string, k: ReviewerKey, worthless: bool)
    requires TextLaws(text) && text.PrintableKey(k) && text.printable(id) && !Blank(id)
    ensures var j := TwoLaneJob(add, id, Lane("a", k, CallOk, worthless), Lane("b", k, CallFailed, false));
            Succeeds(text, j) && !GateSpec(text, EmitRun(text, metrics, j.manifest, At(j, 1)), true)
  {
    var a, b := Lane("a", k, CallOk, worthless), Lane("b", k, CallFailed, false);
    var j := TwoLaneJob(add, id, a, b);
    TwoLanesSucceed(text, add, id, a, b);
    TwoLanesAreSound(text, add, id, a, b);
    TwoLanesAreReviewed(add, id, a, b);
    var keys := Map((s: Slot) => s.key, PanelOf(j, 0).slots);
    assert keys[0] == keys[1];
    assert !LanesDistinct(j, 1);
    ProducerMeetsGate(text, metrics, j);
  }

  // ----------------------------------------------------------- a lane without a name

  lemma NamelessLaneApart(text: Text, add: AddCost, id: string, a: Slot, b: Slot)
    requires a.status.CallOk? && a.agent != VISUAL_PERSONA && a.key != b.key && SlotLoss(b).Some? && !Named(text, b.key)
    ensures var j := TwoLaneJob(add, id, a, b); LanesDistinct(j, 1) && !LostLanesNamed(text, j)
  {
    var j := TwoLaneJob(add, id, a, b);
    TwoLanesAreReviewed(add, id, a, b);
    assert PanelOf(j, 0).slots[1] == b;
    assert SlotMet(j, 0, b);
  }

  /**
   Beside a lane that scored under a proper name, a lane whose identity scrubs to blank text
   and whose call failed: the run succeeds and its gate rejects the file.
   */
  lemma NamelessLaneIsRefused(text: Text, metrics: Metrics, add: AddCost, id: string, named: ReviewerKey, k: ReviewerKey)
    requires TextLaws(text) && text.PrintableKey(named) && Named(text, named) && text.printable(id) && !Blank(id)
    requires text.PrintableKey(k) && !Named(text, k)
    ensures var j := TwoLaneJob(add, id, Lane("a", named, CallOk, false), Lane("b", k, CallFailed, false));
            Succeeds(text, j) && LanesDistinct(j, 1) && !GateSpec(text, EmitRun(text, metrics, j.manifest, At(j, 1)), true)
  {
    var a, b := Lane("a", named, CallOk, false), Lane("b", k, CallFailed, false);
    var j := TwoLaneJob(add, id, a, b);
    assert text.Publish(named) != text.Publish(k);
    TwoLanesSucceed(text, add, id, a, b);
    TwoLanesAreSound(text, add, id, a, b);
    NamelessLaneApart(text, add, id, a, b);
    ProducerMeetsGate(text, metrics, j);
  }
}
