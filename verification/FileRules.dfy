/**
 The file checks of the benchmark, rule by rule: which checkpoint a run resumes from and
 which run-result publishes, with every word, sign and bound written out. Each check is
 shown to accept exactly the files that obey its rules.
 */
module FileRules {
  import opened Basics
  import opened Orders
  import opened Benchmark
  import opened ReviewerFold
  import opened Checkpoint
  import opened BenchmarkRun
  import opened ExportGate
  import opened Export
  import opened FitReport

  // ------------------------------------------------------------------ vocabulary

  /** The outcomes a slot can have, once one is known. */
  predicate KnownOutcome(s: string) {
    || s == "findings" || s == "clean" || s == "unparseable" || s == "truncated" || s == "incomplete"
    || s == "ungrounded" || s == "filtered" || s == "failed"
  }

  predicate CaseReason(s: string) {
    || s == "work_dir" || s == "materialize" || s == "prepare" || s == "execute" || s == "pool_summary" || s == "read_findings"
  }

  predicate SlotReason(s: string) {
    || s == "call_failed" || s == "call_timeout" || s == "call_status_unknown" || s == "unmeasured_salvaged_ok"
  }

  lemma Words(s: string)
    ensures ValidOutcome(s) <==> s == "" || KnownOutcome(s)
    ensures ValidCaseFailureReason(s) <==> CaseReason(s)
    ensures ValidSlotFailureReason(s) <==> SlotReason(s)
  {
  }

  /** The code points Unicode calls white space. */
  predicate SpaceCode(n: int) {
    || 9 <= n <= 13 || n == 32 || n == 133 || n == 160 || n == 5760 || 8192 <= n <= 8202
    || n == 8232 || n == 8233 || n == 8239 || n == 8287 || n == 12288
  }

  /** A text is blank iff it holds nothing but white space. */
  lemma BlankIff(s: string)
    ensures Blank(s) <==> forall i :: 0 <= i < |s| ==> SpaceCode(s[i] as int)
  {
    forall i | 0 <= i < |s| ensures IsSpace(s[i]) <==> SpaceCode(s[i] as int) { }
  }

  // ------------------------------------------------------------------ checkpoint

  /** One entry: a place in the suite, a replicate from 0, a case name, and outcomes of the vocabulary. */
  ghost predicate EntryObeys(c: CheckpointCase) {
    && 0 <= c.index && 0 <= c.replicate && |c.caseID| > 0
    && forall j :: 0 <= j < |c.reviewers| ==> c.reviewers[j].outcome == "" || KnownOutcome(c.reviewers[j].outcome)
  }

  /** Two entries are of one case run: one index, and one replicate where 0 reads as 1. */
  predicate SameRun(a: CheckpointCase, b: CheckpointCase) {
    a.index == b.index && (a.replicate == b.replicate || (a.replicate <= 1 && b.replicate <= 1))
  }

  ghost predicate CheckpointObeys(cp: RunCheckpoint) {
    && (cp.rosterFormat == "" || cp.rosterFormat == "union")
    && (forall i :: 0 <= i < |cp.cases| ==> EntryObeys(cp.cases[i]))
    && (forall i, j :: 0 <= i < j < |cp.cases| ==> !SameRun(cp.cases[i], cp.cases[j]))
  }

  lemma EntryObeysIff(c: CheckpointCase)
    ensures EntryWellFormed(c) <==> EntryObeys(c)
  {
    forall s: string { Words(s); }
  }

  /** The integrity check passes exactly the files that obey. */
  lemma IntegrityIff(cp: RunCheckpoint)
    ensures Integrity(cp) <==> CheckpointObeys(cp)
  {
    forall i | 0 <= i < |cp.cases| ensures EntryWellFormed(cp.cases[i]) <==> EntryObeys(cp.cases[i]) { EntryObeysIff(cp.cases[i]); }
    forall i, j | 0 <= i < j < |cp.cases| ensures cp.cases[i].Key() == cp.cases[j].Key() <==> SameRun(cp.cases[i], cp.cases[j]) { }
  }

  /** The recorded panel is this panel, or its parallel half in a file written before rosters were stamped. */
  ghost predicate PanelAgrees(cp: RunCheckpoint, roster: seq<string>, legacyRoster: seq<string>) {
    && cp.roster.Some?
    && (|| multiset(cp.roster.value) == multiset(roster)
        || (cp.rosterFormat == "" && cp.roster.value != [] && multiset(cp.roster.value) == multiset(legacyRoster)))
  }

  /** Every entry is of a case of the suite and a replicate the run asks for. */
  ghost predicate InRange(cp: RunCheckpoint, cases: int, replicates: int) {
    forall i :: 0 <= i < |cp.cases| ==> cp.cases[i].index < cases && cp.cases[i].replicate <= replicates
  }

  ghost predicate Resumable(s: Setup, replicates: int, cp: RunCheckpoint) {
    && CheckpointObeys(cp)
    && cp.reproHash == s.reproHash && cp.suite == s.manifest.suite && cp.suiteVersion == s.manifest.suiteVersion
    && PanelAgrees(cp, s.roster, s.legacyRoster) && InRange(cp, |s.manifest.cases|, replicates)
  }

  lemma RangeIff(s: Setup, replicates: int, cp: RunCheckpoint)
    requires replicates >= 1 && CheckpointObeys(cp)
    ensures (forall run :: run in DoneMap(cp.cases) ==> WithinRun(s, replicates, run)) <==> InRange(cp, |s.manifest.cases|, replicates)
  {
    forall i | 0 <= i < |cp.cases| ensures cp.cases[i].Key() in DoneMap(cp.cases) {
      assert EntryObeys(cp.cases[i]);
      assert cp.cases[i] in cp.cases;
    }
    if InRange(cp, |s.manifest.cases|, replicates) {
      forall run | run in DoneMap(cp.cases) ensures WithinRun(s, replicates, run) {
        var c :| c in cp.cases && c.Key() == run;
        var i :| 0 <= i < |cp.cases| && cp.cases[i] == c;
        assert EntryObeys(cp.cases[i]);
      }
    }
    if forall run :: run in DoneMap(cp.cases) ==> WithinRun(s, replicates, run) {
      forall i | 0 <= i < |cp.cases| ensures cp.cases[i].index < |s.manifest.cases| && cp.cases[i].replicate <= replicates {
        assert WithinRun(s, replicates, cp.cases[i].Key());
      }
    }
  }

  /** An invocation is refused iff it asks for no replicate, or finds a checkpoint, of whatever origin, that does not obey or is not its own. */
  lemma RefusedIff(s: Setup, a: Attempt, w: World)
    ensures Invoke(s, a, w).1 == Refused <==>
            a.replicates < 1 || (a.checkpointed && w.disk.Some? && !Resumable(s, a.replicates, w.disk.value))
  {
    if a.replicates >= 1 && a.checkpointed && w.disk.Some? {
      var cp := w.disk.value;
      IntegrityIff(cp);
      RosterGuardIsPanelEquality(cp, s.roster, s.legacyRoster);
      if CheckpointObeys(cp) { RangeIff(s, a.replicates, cp); }
    }
  }

  /** A panel that agrees leaves the file as it is; an unstamped half is replaced by the whole panel and stamped. */
  lemma RosterIs(cp: RunCheckpoint, roster: seq<string>, legacyRoster: seq<string>)
    requires PanelAgrees(cp, roster, legacyRoster)
    ensures var guarded := RosterGuard(cp, roster, legacyRoster);
            && guarded.Ok?
            && (multiset(cp.roster.value) == multiset(roster) ==> guarded.value == cp)
            && (multiset(cp.roster.value) != multiset(roster) ==>
                  && guarded.value.roster.Some? && multiset(guarded.value.roster.value) == multiset(roster)
                  && guarded.value == cp.(roster := guarded.value.roster, rosterFormat := "union"))
  {
    RosterGuardIsPanelEquality(cp, roster, legacyRoster);
    SortedCopiesAgree(cp.roster.value, roster);
  }

  /** A legacy entry is folded as replicate 1 of its case and adds no fit rows; an entry of another case stops the run. */
  lemma EntryReplays(s: Setup, a: Attempt, st: RunState, run: CaseRun, e: CheckpointCase)
    requires 0 <= run.index < |s.manifest.cases| && a.fate(run) == RunsOn
    ensures var next := ReplayStep(s, a, st, run, e);
            && (e.caseID != s.manifest.cases[run.index].id ==> next == st.(stopped := true))
            && (e.caseID == s.manifest.cases[run.index].id && e.replicate == 0 && !next.stopped ==> next.fits == st.fits)
            && (e.caseID == s.manifest.cases[run.index].id && e.replicate > 0 && !st.stopped && !next.stopped ==>
                  |next.fits| == |st.fits| + |e.reviewers| && forall i :: |st.fits| <= i < |next.fits| ==> next.fits[i].replicate == e.replicate)
  {
    assert st.fits + [] == st.fits;
  }

  // ------------------------------------------------------------------ coverage

  /** Every counted word is of the vocabulary and no count is negative. */
  ghost predicate TallyObeys(tally: map<string, int>) {
    forall w :: w in tally ==> tally[w] >= 0 && (w == "unknown" || KnownOutcome(w))
  }

  /** A row does not say that the gate was off beside outcomes only the gate gives. */
  predicate TagObeys(c: Coverage) {
    c.grounding == Some(false) && c.outcomes.Some? && "ungrounded" in c.outcomes.value ==> c.outcomes.value["ungrounded"] <= 0
  }

  ghost predicate RowObeys(c: Coverage) { (c.outcomes.Some? ==> TallyObeys(c.outcomes.value)) && TagObeys(c) }

  ghost predicate RowsObey(rows: seq<Coverage>) { forall j :: 0 <= j < |rows| ==> RowObeys(rows[j]) }

  predicate OneName(text: Text, a: ReviewerKey, b: ReviewerKey) {
    text.scrub(a.model) == text.scrub(b.model) && text.scrub(a.persona) == text.scrub(b.persona)
  }

  /** The rows of one name: as many cases as the reviewer counts and the tally adds up to, each once, each of the suite. */
  ghost predicate PairObeys(rev: PublicRecord, cov: Coverage, suite: seq<string>) {
    && rev.runs == |cov.caseIDs|
    && (cov.outcomes.Some? ==> MapSum(cov.outcomes.value) == |cov.caseIDs|)
    && (forall i, j :: 0 <= i < j < |cov.caseIDs| ==> cov.caseIDs[i] != cov.caseIDs[j])
    && (forall i :: 0 <= i < |cov.caseIDs| ==> cov.caseIDs[i] in suite)
  }

  ghost predicate NamesOnce(text: Text, rr: RunResult) {
    && (forall i, j :: 0 <= i < j < |rr.coverage| ==> !OneName(text, rr.coverage[i].key, rr.coverage[j].key))
    && (forall i, j :: 0 <= i < j < |rr.reviewers| ==> !OneName(text, rr.reviewers[i].key, rr.reviewers[j].key))
  }

  ghost predicate HasCoverage(text: Text, rr: RunResult, k: ReviewerKey) { exists j :: 0 <= j < |rr.coverage| && OneName(text, k, rr.coverage[j].key) }

  ghost predicate HasReviewer(text: Text, rr: RunResult, k: ReviewerKey) { exists i :: 0 <= i < |rr.reviewers| && OneName(text, rr.reviewers[i].key, k) }

  ghost predicate SameNames(text: Text, rr: RunResult) {
    && (forall i :: 0 <= i < |rr.reviewers| ==> HasCoverage(text, rr, rr.reviewers[i].key))
    && (forall j :: 0 <= j < |rr.coverage| ==> HasReviewer(text, rr, rr.coverage[j].key))
  }

  ghost predicate PairsObey(text: Text, rr: RunResult) {
    forall i, j :: 0 <= i < |rr.reviewers| && 0 <= j < |rr.coverage| && OneName(text, rr.reviewers[i].key, rr.coverage[j].key) ==>
      PairObeys(rr.reviewers[i], rr.coverage[j], rr.suiteCaseIDs)
  }

  /** The two arrays list the same names, each name once in each, and the rows of one name agree. */
  ghost predicate ArraysObey(text: Text, rr: RunResult) { NamesOnce(text, rr) && SameNames(text, rr) && PairsObey(text, rr) }

  /** Every row has every case of the suite. */
  ghost predicate NothingMissing(rr: RunResult) {
    forall i, j :: 0 <= i < |rr.suiteCaseIDs| && 0 <= j < |rr.coverage| ==> rr.suiteCaseIDs[i] in rr.coverage[j].caseIDs
  }

  ghost predicate CoverageObeys(text: Text, rr: RunResult, allowPartial: bool) {
    if rr.suiteCaseIDs == [] then rr.coverage == []
    else CasesOnce(rr) && rr.coverage != [] && RowsObey(rr.coverage) && ArraysObey(text, rr) && (allowPartial || NothingMissing(rr))
  }

  /** The suite names each case once. */
  ghost predicate CasesOnce(rr: RunResult) {
    forall i, j :: 0 <= i < j < |rr.suiteCaseIDs| ==> rr.suiteCaseIDs[i] != rr.suiteCaseIDs[j]
  }

  lemma RowObeysIff(c: Coverage)
    ensures LegalRow(c) <==> RowObeys(c)
  {
    if c.outcomes.Some? {
      var tally := c.outcomes.value;
      forall w | w in tally ensures w != "" && (w == OUTCOME_UNKNOWN_LABEL || ValidOutcome(w)) <==> w == "unknown" || KnownOutcome(w) { Words(w); }
    }
  }

  lemma OneNameIff(text: Text, a: ReviewerKey, b: ReviewerKey)
    ensures OneName(text, a, b) <==> text.Publish(a) == text.Publish(b)
  {
  }

  lemma PairObeysIff(rev: PublicRecord, cov: Coverage, suite: seq<string>)
    requires Distinct(suite)
    ensures CountsAgree(rev, cov) && multiset(cov.caseIDs) <= multiset(suite) <==> PairObeys(rev, cov, suite)
  {
    var ids := cov.caseIDs;
    DistinctMultiset(ids);
    DistinctMultiset(suite);
    if multiset(ids) <= multiset(suite) {
      forall x ensures multiset(ids)[x] <= 1 { assert multiset(ids)[x] <= multiset(suite)[x]; }
      forall i | 0 <= i < |ids| ensures ids[i] in suite { assert ids[i] in multiset(ids); }
    }
    if PairObeys(rev, cov, suite) {
      forall x | x in ToSet(ids) ensures x in ToSet(suite) { }
      DistinctSubset(ids, suite);
    }
  }

  lemma HasCoverageIff(text: Text, rr: RunResult, k: ReviewerKey)
    ensures HasCoverage(text, rr, k) <==> text.Publish(k) in CoverageIds(text, rr.coverage)
  {
    var covs := CoverageIds(text, rr.coverage);
    if HasCoverage(text, rr, k) {
      var j :| 0 <= j < |rr.coverage| && OneName(text, k, rr.coverage[j].key);
      assert covs[j] == text.Publish(k);
    }
    if text.Publish(k) in covs {
      var j :| 0 <= j < |covs| && covs[j] == text.Publish(k);
      assert OneName(text, k, rr.coverage[j].key);
    }
  }

  lemma HasReviewerIff(text: Text, rr: RunResult, k: ReviewerKey)
    ensures HasReviewer(text, rr, k) <==> text.Publish(k) in ReviewerIds(text, rr.reviewers)
  {
    var revs := ReviewerIds(text, rr.reviewers);
    if HasReviewer(text, rr, k) {
      var i :| 0 <= i < |rr.reviewers| && OneName(text, rr.reviewers[i].key, k);
      assert revs[i] == text.Publish(k);
    }
    if text.Publish(k) in revs {
      var i :| 0 <= i < |revs| && revs[i] == text.Publish(k);
      assert OneName(text, rr.reviewers[i].key, k);
    }
  }

  lemma SameSetIff<T>(a: seq<T>, b: seq<T>)
    ensures ToSet(a) == ToSet(b) <==> (forall i :: 0 <= i < |a| ==> a[i] in b) && (forall i :: 0 <= i < |b| ==> b[i] in a)
  {
    if ToSet(a) == ToSet(b) {
      forall i | 0 <= i < |a| ensures a[i] in b { assert a[i] in ToSet(b); }
      forall i | 0 <= i < |b| ensures b[i] in a { assert b[i] in ToSet(a); }
    }
  }

  lemma CoverageNamed(text: Text, rr: RunResult)
    ensures (forall i :: 0 <= i < |rr.reviewers| ==> HasCoverage(text, rr, rr.reviewers[i].key)) <==>
            (forall i :: 0 <= i < |rr.reviewers| ==> ReviewerIds(text, rr.reviewers)[i] in CoverageIds(text, rr.coverage))
  {
    forall i | 0 <= i < |rr.reviewers|
      ensures HasCoverage(text, rr, rr.reviewers[i].key) <==> ReviewerIds(text, rr.reviewers)[i] in CoverageIds(text, rr.coverage)
    {
      HasCoverageIff(text, rr, rr.reviewers[i].key);
    }
  }

  lemma ReviewersNamed(text: Text, rr: RunResult)
    ensures (forall j :: 0 <= j < |rr.coverage| ==> HasReviewer(text, rr, rr.coverage[j].key)) <==>
            (forall j :: 0 <= j < |rr.coverage| ==> CoverageIds(text, rr.coverage)[j] in ReviewerIds(text, rr.reviewers))
  {
    forall j | 0 <= j < |rr.coverage|
      ensures HasReviewer(text, rr, rr.coverage[j].key) <==> CoverageIds(text, rr.coverage)[j] in ReviewerIds(text, rr.reviewers)
    {
      HasReviewerIff(text, rr, rr.coverage[j].key);
    }
  }

  lemma SameNamesIff(text: Text, rr: RunResult)
    ensures ToSet(CoverageIds(text, rr.coverage)) == ToSet(ReviewerIds(text, rr.reviewers)) <==> SameNames(text, rr)
  {
    SameSetIff(CoverageIds(text, rr.coverage), ReviewerIds(text, rr.reviewers));
    CoverageNamed(text, rr);
    ReviewersNamed(text, rr);
  }

  lemma NamesOnceIff(text: Text, rr: RunResult)
    ensures Distinct(CoverageIds(text, rr.coverage)) && Distinct(ReviewerIds(text, rr.reviewers)) <==> NamesOnce(text, rr)
  {
    forall i, j | 0 <= i < j < |rr.coverage|
      ensures OneName(text, rr.coverage[i].key, rr.coverage[j].key) <==> CoverageIds(text, rr.coverage)[i] == CoverageIds(text, rr.coverage)[j]
    {
      OneNameIff(text, rr.coverage[i].key, rr.coverage[j].key);
    }
    forall i, j | 0 <= i < j < |rr.reviewers|
      ensures OneName(text, rr.reviewers[i].key, rr.reviewers[j].key) <==> ReviewerIds(text, rr.reviewers)[i] == ReviewerIds(text, rr.reviewers)[j]
    {
      OneNameIff(text, rr.reviewers[i].key, rr.reviewers[j].key);
    }
  }

  lemma PairsObeyIff(text: Text, rr: RunResult)
    requires Distinct(rr.suiteCaseIDs)
    ensures RowsAgree(text, rr) <==> PairsObey(text, rr)
  {
    forall i, j | 0 <= i < |rr.reviewers| && 0 <= j < |rr.coverage|
      ensures OneName(text, rr.reviewers[i].key, rr.coverage[j].key) <==> text.Publish(rr.reviewers[i].key) == text.Publish(rr.coverage[j].key)
      ensures CountsAgree(rr.reviewers[i], rr.coverage[j]) && multiset(rr.coverage[j].caseIDs) <= multiset(rr.suiteCaseIDs) <==>
              PairObeys(rr.reviewers[i], rr.coverage[j], rr.suiteCaseIDs)
    {
      OneNameIff(text, rr.reviewers[i].key, rr.coverage[j].key);
      PairObeysIff(rr.reviewers[i], rr.coverage[j], rr.suiteCaseIDs);
    }
  }

  lemma ArraysObeyIff(text: Text, rr: RunResult)
    requires Distinct(rr.suiteCaseIDs)
    ensures Corresponds(text, rr) <==> ArraysObey(text, rr)
  {
    NamesOnceIff(text, rr);
    SameNamesIff(text, rr);
    PairsObeyIff(text, rr);
  }

  lemma RowIsInSuite(text: Text, rr: RunResult, j: nat)
    requires SameNames(text, rr) && PairsObey(text, rr) && j < |rr.coverage|
    ensures Distinct(rr.coverage[j].caseIDs) && forall i :: 0 <= i < |rr.coverage[j].caseIDs| ==> rr.coverage[j].caseIDs[i] in rr.suiteCaseIDs
  {
    assert HasReviewer(text, rr, rr.coverage[j].key);
    var i :| 0 <= i < |rr.reviewers| && OneName(text, rr.reviewers[i].key, rr.coverage[j].key);
    assert PairObeys(rr.reviewers[i], rr.coverage[j], rr.suiteCaseIDs);
  }

  lemma MissingIff(text: Text, rr: RunResult)
    requires Distinct(rr.suiteCaseIDs) && ArraysObey(text, rr)
    ensures FullyCovered(rr) <==> NothingMissing(rr)
  {
    var suite := rr.suiteCaseIDs;
    forall j | 0 <= j < |rr.coverage|
      ensures multiset(rr.coverage[j].caseIDs) == multiset(suite) <==> forall i :: 0 <= i < |suite| ==> suite[i] in rr.coverage[j].caseIDs
    {
      RowIsInSuite(text, rr, j);
      RowIsWhole(rr.coverage[j].caseIDs, suite);
    }
  }

  lemma RowIsWhole(ids: seq<string>, suite: seq<string>)
    requires Distinct(suite) && Distinct(ids) && forall i :: 0 <= i < |ids| ==> ids[i] in suite
    ensures multiset(ids) == multiset(suite) <==> forall i :: 0 <= i < |suite| ==> suite[i] in ids
  {
    DistinctSameSet(ids, suite);
    if ToSet(ids) == ToSet(suite) {
      forall i | 0 <= i < |suite| ensures suite[i] in ids { assert suite[i] in ToSet(ids); }
    }
    if forall i :: 0 <= i < |suite| ==> suite[i] in ids {
      assert ToSet(suite) == ToSet(ids);
    }
  }

  lemma RowsObeyIff(rows: seq<Coverage>)
    ensures AllLegal(rows) <==> RowsObey(rows)
  {
    AllLegalIsEach(rows);
    forall j | 0 <= j < |rows| ensures LegalRow(rows[j]) <==> RowObeys(rows[j]) { RowObeysIff(rows[j]); }
  }

  /** The coverage check accepts exactly the files that obey. */
  lemma CoverageIff(text: Text, rr: RunResult, allowPartial: bool)
    ensures CoverageSpec(text, rr, allowPartial) <==> CoverageObeys(text, rr, allowPartial)
  {
    assert CasesOnce(rr) <==> Distinct(rr.suiteCaseIDs);
    if rr.suiteCaseIDs != [] && CasesOnce(rr) {
      RowsObeyIff(rr.coverage);
      ArraysObeyIff(text, rr);
      if ArraysObey(text, rr) { MissingIff(text, rr); }
    }
  }

  // ---------------------------------------------------------- the failure channels

  ghost predicate ScoredBySomeone(rr: RunResult, id: string) { exists j :: 0 <= j < |rr.coverage| && id in rr.coverage[j].caseIDs }

  /** A failed case: a known reason, a printable name that is not blank, a case of the suite that no row scored. */
  ghost predicate CaseFailureObeys(text: Text, rr: RunResult, f: CaseFailure) {
    CaseReason(f.reason) && !Blank(f.caseID) && text.printable(f.caseID) && f.caseID in rr.suiteCaseIDs && !ScoredBySomeone(rr, f.caseID)
  }

  ghost predicate CaseFailuresObey(text: Text, rr: RunResult) {
    && (forall i :: 0 <= i < |rr.caseFailures| ==> CaseFailureObeys(text, rr, rr.caseFailures[i]))
    && (forall i, j :: 0 <= i < j < |rr.caseFailures| ==> rr.caseFailures[i].caseID != rr.caseFailures[j].caseID)
  }

  lemma CaseFailuresIff(text: Text, rr: RunResult)
    ensures CaseFailuresSpec(text, rr) <==> CaseFailuresObey(text, rr)
  {
    var fs := rr.caseFailures;
    forall i | 0 <= i < |fs| ensures CaseFailureOk(text, rr, fs[i]) <==> CaseFailureObeys(text, rr, fs[i]) {
      Words(fs[i].reason);
      assert fs[i].caseID in CoveredCases(rr.coverage) <==> ScoredBySomeone(rr, fs[i].caseID);
    }
  }

  /** A lost slot: a known reason, printable names that are not blank, a case of the suite, and a row of that reviewer, none of which has the case. */
  ghost predicate SlotFailureObeys(text: Text, rr: RunResult, f: SlotFailure) {
    && SlotReason(f.reason)
    && !Blank(f.caseID) && !Blank(f.key.model) && !Blank(f.key.persona)
    && text.printable(f.caseID) && text.printable(f.key.model) && text.printable(f.key.persona)
    && f.caseID in rr.suiteCaseIDs
    && (exists j :: 0 <= j < |rr.coverage| && rr.coverage[j].key == f.key)
    && (forall j :: 0 <= j < |rr.coverage| && rr.coverage[j].key == f.key ==> f.caseID !in rr.coverage[j].caseIDs)
  }

  ghost predicate SlotFailuresObey(text: Text, rr: RunResult) {
    && (forall i :: 0 <= i < |rr.slotFailures| ==> SlotFailureObeys(text, rr, rr.slotFailures[i]))
    && (forall i, j :: 0 <= i < j < |rr.slotFailures| ==>
          rr.slotFailures[i].key != rr.slotFailures[j].key || rr.slotFailures[i].caseID != rr.slotFailures[j].caseID)
  }

  lemma SlotFailuresIff(text: Text, rr: RunResult)
    ensures SlotFailuresSpec(text, rr) <==> SlotFailuresObey(text, rr)
  {
    var fs := rr.slotFailures;
    forall i | 0 <= i < |fs| ensures SlotFailureOk(text, rr, fs[i]) <==> SlotFailureObeys(text, rr, fs[i]) { Words(fs[i].reason); }
    forall i, j | 0 <= i < j < |fs|
      ensures FailedPairs(fs)[i] == FailedPairs(fs)[j] <==> fs[i].key == fs[j].key && fs[i].caseID == fs[j].caseID
    {
    }
  }

  // ---------------------------------------------------------------------- export

  predicate AsItStands(text: Text, v: string) { |v| > 0 && text.printable(v) && text.scrub(v) == v }

  /** Export's own rules: names that publish as they stand, and reviewers that keep a name once scrubbed. */
  ghost predicate NamesObey(text: Text, rr: RunResult) {
    && !Blank(rr.suite) && AsItStands(text, rr.suite) && !Blank(rr.suiteVersion) && AsItStands(text, rr.suiteVersion)
    && |rr.reviewers| > 0
    && (forall i :: 0 <= i < |rr.reviewers| ==>
          && text.printable(rr.reviewers[i].key.model) && text.printable(rr.reviewers[i].key.persona)
          && !Blank(text.scrub(rr.reviewers[i].key.model)) && !Blank(text.scrub(rr.reviewers[i].key.persona)))
    && (forall i :: 0 <= i < |rr.suiteCaseIDs| ==> AsItStands(text, rr.suiteCaseIDs[i]))
    && (rr.suiteCaseIDs != [] ==> forall j, i :: 0 <= j < |rr.coverage| && 0 <= i < |rr.coverage[j].caseIDs| ==> AsItStands(text, rr.coverage[j].caseIDs[i]))
  }

  lemma NamesIff(text: Text, rr: RunResult)
    ensures PublishableSuiteName(text, rr.suite) && PublishableSuiteName(text, rr.suiteVersion) && RowsSpec(text, rr) && CaseIdsSpec(text, rr) <==>
            NamesObey(text, rr)
  {
    forall i | 0 <= i < |rr.reviewers|
      ensures PublishableRow(text, rr.reviewers[i].key) <==>
              && text.printable(rr.reviewers[i].key.model) && text.printable(rr.reviewers[i].key.persona)
              && !Blank(text.scrub(rr.reviewers[i].key.model)) && !Blank(text.scrub(rr.reviewers[i].key.persona))
    {
    }
    forall v ensures PublishedAsIs(text, v) <==> AsItStands(text, v) { }
    if CaseIdsSpec(text, rr) && rr.suiteCaseIDs != [] {
      forall j, i | 0 <= j < |rr.coverage| && 0 <= i < |rr.coverage[j].caseIDs| ensures AsItStands(text, rr.coverage[j].caseIDs[i]) {
        assert AllAsIs(text, rr.coverage[j].caseIDs);
      }
    }
    if NamesObey(text, rr) {
      forall j | 0 <= j < |rr.coverage| && rr.suiteCaseIDs != [] ensures AllAsIs(text, rr.coverage[j].caseIDs) { }
    }
  }

  /** A file is exported iff it obeys every rule. */
  lemma ExportIff(text: Text, rr: RunResult, allowPartial: bool)
    ensures ExportSpec(text, rr, allowPartial) <==>
            NamesObey(text, rr) && CaseFailuresObey(text, rr) && SlotFailuresObey(text, rr) && CoverageObeys(text, rr, allowPartial)
  {
    NamesIff(text, rr);
    CaseFailuresIff(text, rr);
    SlotFailuresIff(text, rr);
    CoverageIff(text, rr, allowPartial);
  }

  // --------------------------------------------------------------------- fit rows

  /** A fit row that can be judged: a known outcome, printable names, a replicate of the run, and counts that fit together. */
  predicate FitObeys(text: Text, f: Fit, rows: int) {
    && KnownOutcome(f.outcome) && text.printable(f.key.model) && text.printable(f.key.persona)
    && 0 < f.replicate && f.replicate <= rows
    && 0 <= f.findings && 0 <= f.tokensOut && 0 <= f.chunkCount && 0 <= f.silentChunks
    && (f.silentChunks <= f.chunkCount || (f.chunkCount == 0 && f.silentChunks == 1))
  }

  lemma JudgeableIff(text: Text, f: Fit, rows: int)
    ensures Judgeable(text, f, rows) <==> FitObeys(text, f, rows)
  {
    Words(f.outcome);
  }
}
