/**
 What a repo-state run publishes, said of its trials: when the loop ends by itself, which
 stage a failed case names, why a lost lane was lost, and what every row holds.
 */
module RepoRows {
  import opened Basics
  import opened Orders
  import opened Benchmark
  import opened DebtFold
  import opened ReviewerFold
  import opened BenchmarkRun
  import opened RunReport
  import opened ExportGate
  import opened RepoStateRun
  import opened RepoStateGate
  import opened ProducerGate
  import opened RowSums

  // ---------------------------------------------------------------- how a case ends

  /** Some lane's call succeeded; the visual persona counts only on a panel of its own. */
  ghost predicate SomeoneAnswered(slots: seq<Slot>) {
    exists i :: 0 <= i < |slots| && slots[i].status.CallOk? && (slots[i].agent != "felix" || OnlyVisual(slots))
  }

  ghost predicate OnlyVisual(slots: seq<Slot>) { forall i :: 0 <= i < |slots| ==> slots[i].agent == "felix" }

  predicate Prepared(t: Trial) { t.workDir.Passed? && t.materialized && t.winnable && t.prepared.Passed? }

  ghost predicate Executed(t: Trial) { Prepared(t) && t.executed.Passed? && SomeoneAnswered(t.panel.slots) }

  /** The first stage that went wrong, by the word the channel uses for it. */
  ghost predicate FailsWith(t: Trial, reason: string) {
    || (reason == "work_dir" && t.workDir.Fault?)
    || (reason == "materialize" && t.workDir.Passed? && !t.materialized)
    || (reason == "prepare" && t.workDir.Passed? && t.materialized && t.winnable && t.prepared.Fault?)
    || (reason == "execute" && Prepared(t) && t.executed.Fault?)
    || (reason == "pool_summary" && Executed(t) && !t.summaryRead)
    || (reason == "read_findings" && Executed(t) && t.summaryRead && !t.findingsRead)
  }

  ghost predicate Fails(t: Trial) { exists r :: FailsWith(t, r) }

  ghost predicate Succeeded(t: Trial) { Executed(t) && t.summaryRead && t.findingsRead }

  /** The stages that end the whole run. */
  ghost predicate EndsRun(t: Trial) {
    || t.workDir.Fatal?
    || (t.workDir.Passed? && t.materialized && (!t.winnable || t.prepared.Fatal?))
    || (Prepared(t) && (t.executed.Fatal? || (t.executed.Passed? && !SomeoneAnswered(t.panel.slots))))
  }

  lemma AllFailedMeans(p: Panel)
    ensures AllAgentsFailed(p) <==> !SomeoneAnswered(p.slots)
  {
    var readers := (s: Slot) => s.agent != VISUAL_PERSONA;
    var kept, judged := Filter(readers, p.slots), Judged(p.slots);
    FilterMembers(readers, p.slots);
    if kept == [] {
      forall i | 0 <= i < |p.slots| ensures p.slots[i].agent == "felix" { assert p.slots[i] in p.slots; }
    } else {
      assert kept[0] in kept;
    }
    if i :| 0 <= i < |judged| && judged[i].status.CallOk? {
      assert judged[i] in judged;
      var k :| 0 <= k < |p.slots| && p.slots[k] == judged[i];
    }
    if k :| 0 <= k < |p.slots| && p.slots[k].status.CallOk? && (p.slots[k].agent != "felix" || OnlyVisual(p.slots)) {
      assert p.slots[k] in p.slots;
      assert p.slots[k] in judged;
    }
  }

  /** Each trial ends the run, fails with exactly one reason, or is reviewed. */
  lemma TrialEnds(t: Trial)
    ensures EndOfTrial(t).Aborts? <==> EndsRun(t)
    ensures EndOfTrial(t).Reviewed? <==> Succeeded(t)
    ensures EndOfTrial(t).Reviewed? ==> EndOfTrial(t).panel == t.panel
    ensures EndOfTrial(t).Unmeasured? <==> Fails(t)
    ensures forall r :: FailsWith(t, r) <==> EndOfTrial(t).Unmeasured? && r == ReasonOf(EndOfTrial(t).site)
  {
    AllFailedMeans(t.panel);
    if EndOfTrial(t).Unmeasured? { assert FailsWith(t, ReasonOf(EndOfTrial(t).site)); }
  }

  // ------------------------------------------------------------ when the loop completes

  /** No identity scored a reviewed case twice. */
  ghost predicate ScoresOnce(j: Job, i: int) {
    0 <= i < |j.manifest.cases| && Succeeded(j.trials(i)) ==>
      var slots := j.trials(i).panel.slots;
      forall a, b :: 0 <= a < b < |slots| && Measured(slots[a]) && Measured(slots[b]) ==> slots[a].key != slots[b].key
  }

  /** The call succeeded and its reply was worth something. */
  predicate Measured(s: Slot) { s.status.CallOk? && !s.worthless }

  lemma MeasuredScores(s: Slot)
    ensures SlotLoss(s).None? <==> Measured(s)
  {
  }

  /** The last `k` cases before `i` all failed. */
  ghost predicate FailedStraight(j: Job, i: int, k: int) {
    k <= i && forall m :: i - k <= m < i ==> Fails(j.trials(m))
  }

  /** Case `i` lets the loop go on: not cancelled, not braked, not fatal, no identity scored twice. */
  ghost predicate GoesOn(j: Job, i: int) {
    && !j.trials(i).cancelled
    && !(j.brake > 0 && FailedStraight(j, i, j.brake))
    && !EndsRun(j.trials(i)) && ScoresOnce(j, i)
  }

  /** The events of a case fold iff no identity scores it twice, given that none scored it before. */
  lemma {:induction false} FoldsIff(add: AddCost, l: Ledger, es: seq<Event>, id: string)
    requires LedgerInv(l) && (forall i :: 0 <= i < |es| ==> es[i].caseID == id)
    requires forall k :: k in l.accs ==> id !in l.accs[k].caseIDs
    ensures FoldEvents(add, l, es).Ok? <==>
            forall a, b :: 0 <= a < b < |es| && es[a].Scores() && es[b].Scores() ==> es[a].Key() != es[b].Key()
    ensures FoldEvents(add, l, es).Ok? ==>
              var l' := FoldEvents(add, l, es).value;
              LedgerInv(l') && forall k :: k in l'.accs && id in l'.accs[k].caseIDs ==> exists a :: 0 <= a < |es| && es[a].Scores() && es[a].Key() == k
    ensures FoldEvents(add, l, es).Ok? ==>
              forall a :: 0 <= a < |es| && es[a].Scores() ==> id in AccOf(FoldEvents(add, l, es).value, es[a].Key()).caseIDs
  {
    if es != [] {
      var n := |es| - 1;
      var pre, e := es[..n], es[n];
      assert forall i :: 0 <= i < n ==> pre[i] == es[i];
      FoldsIff(add, l, pre, id);
      if FoldEvents(add, l, pre).Ok? { FoldsNext(add, FoldEvents(add, l, pre).value, pre, e, id); }
    }
  }

  lemma FoldsNext(add: AddCost, l: Ledger, pre: seq<Event>, e: Event, id: string)
    requires LedgerInv(l) && e.caseID == id
    requires forall k :: k in l.accs && id in l.accs[k].caseIDs ==> exists a :: 0 <= a < |pre| && pre[a].Scores() && pre[a].Key() == k
    requires forall a :: 0 <= a < |pre| && pre[a].Scores() ==> id in AccOf(l, pre[a].Key()).caseIDs
    ensures FoldEvent(add, l, e).Ok? <==> !e.Scores() || forall a :: 0 <= a < |pre| && pre[a].Scores() ==> pre[a].Key() != e.Key()
    ensures FoldEvent(add, l, e).Ok? ==>
              var l' := FoldEvent(add, l, e).value;
              && LedgerInv(l')
              && (forall k :: k in l'.accs && id in l'.accs[k].caseIDs ==>
                    (e.Scores() && e.Key() == k) || exists a :: 0 <= a < |pre| && pre[a].Scores() && pre[a].Key() == k)
              && (forall a :: 0 <= a < |pre| && pre[a].Scores() ==> id in AccOf(l', pre[a].Key()).caseIDs)
              && (e.Scores() ==> id in AccOf(l', e.Key()).caseIDs)
  {
    if FoldEvent(add, l, e).Ok? { FoldEventKeepsInv(add, l, e); }
    var acc := AccOf(l, e.Key());
    if e.Key() in l.accs { assert acc.scored.Keys == ToSet(acc.caseIDs) && (id in acc.scored <==> id in acc.caseIDs); }
  }

  lemma EarlierCase(j: Job, n: nat, e: Event)
    requires n < |j.manifest.cases| && Distinct(SuiteIds(j.manifest)) && e in History(j, n)
    ensures e.caseID != j.manifest.cases[n].id
  {
    HistoryMembers(j, n, e);
    var i :| 0 <= i < n && EventOfCase(j, i, e);
    assert SuiteIds(j.manifest)[i] != SuiteIds(j.manifest)[n];
  }

  lemma NotYetScored(j: Job, n: nat, k: ReviewerKey)
    requires n < |j.manifest.cases| && Distinct(SuiteIds(j.manifest)) && !At(j, n).aborted && k in At(j, n).ledger.accs
    ensures j.manifest.cases[n].id !in At(j, n).ledger.accs[k].caseIDs
  {
    var id := j.manifest.cases[n].id;
    LedgerIsHistory(j, n);
    forall e | e in History(j, n) ensures e.caseID != id { EarlierCase(j, n, e); }
    if id in At(j, n).ledger.accs[k].caseIDs { RowCoversHistory(j.add, History(j, n), At(j, n).ledger, k, id); }
  }

  lemma CaseFoldsIff(j: Job, n: nat)
    requires n < |j.manifest.cases| && Distinct(SuiteIds(j.manifest)) && !At(j, n).aborted
    ensures FoldCase(j.add, At(j, n).ledger, j.manifest.cases[n], EndOfTrial(j.trials(n))).Ok? <==> ScoresOnce(j, n)
  {
    var end, c := EndOfTrial(j.trials(n)), j.manifest.cases[n];
    TrialEnds(j.trials(n));
    if end.Reviewed? {
      var es := EventsOf(c, end.panel);
      LedgerIsHistory(j, n);
      ReachableLedgerInv(j.add, History(j, n));
      forall k | k in At(j, n).ledger.accs ensures c.id !in At(j, n).ledger.accs[k].caseIDs { NotYetScored(j, n, k); }
      forall i | 0 <= i < |es| ensures es[i].caseID == c.id && es[i].slot == end.panel.slots[i] { }
      FoldsIff(j.add, At(j, n).ledger, es, c.id);
      SameLanes(es, end.panel.slots);
    }
  }

  lemma SameLanes(es: seq<Event>, slots: seq<Slot>)
    requires |es| == |slots| && forall i :: 0 <= i < |es| ==> es[i].slot == slots[i]
    ensures (forall a, b :: 0 <= a < b < |es| && es[a].Scores() && es[b].Scores() ==> es[a].Key() != es[b].Key()) <==>
            (forall a, b :: 0 <= a < b < |slots| && Measured(slots[a]) && Measured(slots[b]) ==> slots[a].key != slots[b].key)
  {
    forall i | 0 <= i < |es| ensures es[i].Scores() <==> Measured(slots[i]) { MeasuredScores(slots[i]); }
    if forall a, b :: 0 <= a < b < |es| && es[a].Scores() && es[b].Scores() ==> es[a].Key() != es[b].Key() {
      forall a, b | 0 <= a < b < |slots| && Measured(slots[a]) && Measured(slots[b]) ensures slots[a].key != slots[b].key {
        assert es[a].Key() != es[b].Key();
      }
    }
  }

  lemma FailedStraightIff(j: Job, i: int, k: int)
    requires 0 <= i
    ensures FailedStraight(j, i, k) <==> k <= i && AllFailing(j, i - k, i)
  {
    forall m ensures Failing(j, m) <==> Fails(j.trials(m)) { TrialEnds(j.trials(m)); }
    if k <= i && AllFailing(j, i - k, i) {
      forall m | i - k <= m < i ensures Fails(j.trials(m)) { assert Failing(j, m); }
    }
  }

  lemma BrakedIff(j: Job, n: nat)
    requires n <= |j.manifest.cases| && !At(j, n).aborted
    ensures Braked(j, At(j, n).consecutive) <==> j.brake > 0 && FailedStraight(j, n, j.brake)
  {
    LoopAccounting(j, n);
    FailedStraightIff(j, n, j.brake);
    if j.brake > FailingSuffix(j, n) && j.brake <= n { FailingSuffixIsLongest(j, n, j.brake); }
  }

  lemma NextGoesOn(j: Job, n: nat)
    requires n < |j.manifest.cases| && Distinct(SuiteIds(j.manifest)) && !At(j, n).aborted
    ensures !At(j, n + 1).aborted <==> GoesOn(j, n)
  {
    CaseFoldsIff(j, n);
    BrakedIff(j, n);
    TrialEnds(j.trials(n));
  }

  lemma AbortStays(j: Job, n: nat)
    requires n < |j.manifest.cases| && At(j, n).aborted
    ensures At(j, n + 1).aborted
  {
  }

  ghost predicate AllGoOn(j: Job, n: int) { forall i :: 0 <= i < n ==> GoesOn(j, i) }

  /** The loop reaches case `n` exactly when every case before it lets it go on. */
  lemma {:induction false} LoopCompletesIff(j: Job, n: nat)
    requires n <= |j.manifest.cases| && Distinct(SuiteIds(j.manifest))
    ensures !At(j, n).aborted <==> AllGoOn(j, n)
  {
    if n > 0 {
      LoopCompletesIff(j, n - 1);
      if At(j, n - 1).aborted { AbortStays(j, n - 1); } else { NextGoesOn(j, n - 1); }
      assert AllGoOn(j, n) <==> AllGoOn(j, n - 1) && GoesOn(j, n - 1);
    }
  }

  // ------------------------------------------------------------- the failure channels

  lemma FailureIsListed(j: Job, fs: seq<FailedCase>, id: string, reason: string, i: int)
    requires fs == FailuresSoFar(j, |j.manifest.cases|) && 0 <= i < |j.manifest.cases|
    requires j.manifest.cases[i].id == id && FailsWith(j.trials(i), reason)
    ensures CaseFailure(id, reason) in PublicCaseFailures(fs)
  {
    TrialEnds(j.trials(i));
    var f := FailedCase(id, EndOfTrial(j.trials(i)).site);
    assert FailedAs(j, i, f);
    FailureSites(j, |j.manifest.cases|, f);
    var k :| 0 <= k < |fs| && fs[k] == f;
    assert PublicCaseFailures(fs)[k] == CaseFailure(id, reason);
  }

  lemma ListedFailed(j: Job, fs: seq<FailedCase>, id: string, reason: string)
    requires fs == FailuresSoFar(j, |j.manifest.cases|) && CaseFailure(id, reason) in PublicCaseFailures(fs)
    ensures exists i :: 0 <= i < |j.manifest.cases| && j.manifest.cases[i].id == id && FailsWith(j.trials(i), reason)
  {
    var out := PublicCaseFailures(fs);
    var k :| 0 <= k < |out| && out[k] == CaseFailure(id, reason);
    assert fs[k] in fs;
    FailureSites(j, |j.manifest.cases|, fs[k]);
    var i :| 0 <= i < |j.manifest.cases| && FailedAs(j, i, fs[k]);
    TrialEnds(j.trials(i));
  }

  /** A published case failure is a suite case whose trial failed, under the stage's own word. */
  lemma CaseReasons(text: Text, metrics: Metrics, j: Job, id: string, reason: string)
    requires Succeeds(text, j) && Distinct(SuiteIds(j.manifest))
    ensures CaseFailure(id, reason) in EmitRun(text, metrics, j.manifest, At(j, |j.manifest.cases|)).caseFailures <==>
            exists i :: 0 <= i < |j.manifest.cases| && j.manifest.cases[i].id == id && FailsWith(j.trials(i), reason)
  {
    var n := |j.manifest.cases|;
    LoopAccounting(j, n);
    if CaseFailure(id, reason) in PublicCaseFailures(At(j, n).caseFailures) { ListedFailed(j, At(j, n).caseFailures, id, reason); }
    if i :| 0 <= i < n && j.manifest.cases[i].id == id && FailsWith(j.trials(i), reason) {
      FailureIsListed(j, At(j, n).caseFailures, id, reason, i);
    }
  }

  ghost predicate FailedAs(j: Job, i: int, f: FailedCase) {
    0 <= i < |j.manifest.cases| && j.manifest.cases[i].id == f.caseID && EndOfTrial(j.trials(i)) == Unmeasured(f.site)
  }

  lemma {:induction false} FailureSites(j: Job, n: nat, f: FailedCase)
    requires n <= |j.manifest.cases|
    ensures f in FailuresSoFar(j, n) <==> exists i :: 0 <= i < n && FailedAs(j, i, f)
  {
    if n > 0 {
      FailureSites(j, n - 1, f);
      if EndOfTrial(j.trials(n - 1)).Unmeasured? {
        assert f in FailuresSoFar(j, n) <==> f in FailuresSoFar(j, n - 1) || FailedAs(j, n - 1, f);
      }
    }
  }

  /** Why a lane measured nothing, by the word the channel uses for it. */
  ghost predicate LostWith(s: Slot, reason: string) {
    || (reason == "call_failed" && s.status.CallFailed?)
    || (reason == "call_timeout" && s.status.CallTimedOut?)
    || (reason == "call_status_unknown" && s.status.CallOther?)
    || (reason == "unmeasured_salvaged_ok" && s.status.CallOk? && s.worthless)
  }

  lemma LossMeans(s: Slot, reason: string)
    ensures SlotLoss(s).Some? <==> !Measured(s)
    ensures LostWith(s, reason) <==> SlotLoss(s).Some? && LossReason(SlotLoss(s).value) == reason
  {
  }

  /** Slot `s` met case `i` and measured nothing, for this reason. */
  ghost predicate LaneLost(text: Text, j: Job, i: int, s: Slot, f: SlotFailure) {
    && 0 <= i < |j.manifest.cases| && Succeeded(j.trials(i)) && s in j.trials(i).panel.slots
    && f.caseID == j.manifest.cases[i].id && f.key == text.Publish(s.key) && LostWith(s, f.reason)
  }

  lemma ListedLaneIsLost(text: Text, j: Job, l: Ledger, out: seq<ReviewerKey>, f: SlotFailure)
    requires LedgerOf(History(j, |j.manifest.cases|), l) && LostIn(text, l, out, f)
    ensures exists i, s :: LaneLost(text, j, i, s, f)
  {
    var es := History(j, |j.manifest.cases|);
    var k, x :| k in out && x in LostOf(l, k) && f == PublicFailure(text, k, x);
    assert LedgerAt(es, l, k);
    LostMembers(es, k, x);
    var e :| e in es && e.Key() == k && !e.Scores() && Lost(e) == x;
    HistoryMembers(j, |j.manifest.cases|, e);
    var i :| 0 <= i < |j.manifest.cases| && EventOfCase(j, i, e);
    TrialEnds(j.trials(i));
    LossMeans(e.slot, f.reason);
    assert LaneLost(text, j, i, e.slot, f);
  }

  lemma LostLanes(text: Text, j: Job, l: Ledger, out: seq<ReviewerKey>, f: SlotFailure)
    requires LedgerOf(History(j, |j.manifest.cases|), l) && forall k :: k in out <==> k in l.accs
    ensures f in PublicSlotFailures(text, l, out) <==> exists i, s :: LaneLost(text, j, i, s, f)
  {
    FlatMembers(text, l, out, f);
    if LostIn(text, l, out, f) { ListedLaneIsLost(text, j, l, out, f); }
    if i, s :| LaneLost(text, j, i, s, f) {
      TrialEnds(j.trials(i));
      LossMeans(s, f.reason);
      LostLaneIsListed(text, j, l, out, i, s, f);
    }
  }

  /** A published slot failure is a lane of a reviewed case that measured nothing, under the reason its status and reply give. */
  lemma SlotReasons(text: Text, metrics: Metrics, j: Job, f: SlotFailure)
    requires Succeeds(text, j)
    ensures f in EmitRun(text, metrics, j.manifest, At(j, |j.manifest.cases|)).slotFailures <==>
            exists i, s :: LaneLost(text, j, i, s, f)
  {
    EmissionFacts(text, metrics, j);
    LostLanes(text, j, At(j, |j.manifest.cases|).ledger, EmitOrder(text, At(j, |j.manifest.cases|).ledger.order), f);
  }

  lemma LostLaneIsListed(text: Text, j: Job, l: Ledger, out: seq<ReviewerKey>, i: int, s: Slot, f: SlotFailure)
    requires LedgerOf(History(j, |j.manifest.cases|), l) && forall k :: k in out <==> k in l.accs
    requires SlotMet(j, i, s) && SlotLoss(s).Some?
    requires f == SlotFailure(text.Publish(s.key), j.manifest.cases[i].id, LossReason(SlotLoss(s).value))
    ensures LostIn(text, l, out, f)
  {
    var es, e := History(j, |j.manifest.cases|), EventAt(j, i, s);
    SlotIsEvent(j, i, s);
    assert LedgerAt(es, l, s.key);
    var a :| 0 <= a < |es| && es[a] == e;
    assert Seen(es, s.key);
    LostMembers(es, s.key, Lost(e));
    assert f == PublicFailure(text, s.key, Lost(e));
  }

  // ------------------------------------------------------- the order of the channels

  /** Case `i` failed as `f` says and a later one as `g` says. */
  ghost predicate FailedInTurn(j: Job, n: int, f: FailedCase, g: FailedCase) { exists i, k :: 0 <= i < k < n && FailedAs(j, i, f) && FailedAs(j, k, g) }

  lemma {:induction false} FailuresInTurn(j: Job, n: nat, a: nat, b: nat)
    requires n <= |j.manifest.cases| && a < b < |FailuresSoFar(j, n)|
    ensures FailedInTurn(j, n, FailuresSoFar(j, n)[a], FailuresSoFar(j, n)[b])
  {
    var before := FailuresSoFar(j, n - 1);
    if b < |before| {
      FailuresInTurn(j, n - 1, a, b);
    } else {
      FailureSites(j, n - 1, before[a]);
      var i :| 0 <= i < n - 1 && FailedAs(j, i, before[a]);
      assert FailedAs(j, n - 1, FailuresSoFar(j, n)[b]);
    }
  }

  /** Both texts name cases of the suite, in that order. */
  ghost predicate InSuiteOrder(m: Manifest, a: string, b: string) { exists i, k :: 0 <= i < k < |m.cases| && m.cases[i].id == a && m.cases[k].id == b }

  /** The failed cases are listed in suite order, each once. */
  lemma CaseFailuresAscend(text: Text, metrics: Metrics, j: Job)
    requires Succeeds(text, j) && Distinct(SuiteIds(j.manifest))
    ensures var fs := EmitRun(text, metrics, j.manifest, At(j, |j.manifest.cases|)).caseFailures;
            forall a, b :: 0 <= a < b < |fs| ==> InSuiteOrder(j.manifest, fs[a].caseID, fs[b].caseID)
  {
    var n := |j.manifest.cases|;
    LoopAccounting(j, n);
    var raw, fs := At(j, n).caseFailures, PublicCaseFailures(At(j, n).caseFailures);
    forall a, b | 0 <= a < b < |fs| ensures InSuiteOrder(j.manifest, fs[a].caseID, fs[b].caseID) {
      FailuresInTurn(j, n, a, b);
      var i, k :| 0 <= i < k < n && FailedAs(j, i, raw[a]) && FailedAs(j, k, raw[b]);
    }
  }

  ghost predicate MetInTurn(j: Job, n: int, e: Event, f: Event) { exists i, k :: 0 <= i <= k < n && EventOfCase(j, i, e) && EventOfCase(j, k, f) }

  lemma {:induction false} HistoryInTurn(j: Job, n: nat, a: nat, b: nat)
    requires n <= |j.manifest.cases| && a < b < |History(j, n)|
    ensures MetInTurn(j, n, History(j, n)[a], History(j, n)[b])
  {
    var before := History(j, n - 1);
    if b < |before| {
      HistoryInTurn(j, n - 1, a, b);
    } else {
      LastCaseMet(j, n, b);
      if a < |before| {
        assert before[a] in before;
        HistoryMembers(j, n - 1, before[a]);
        var i :| 0 <= i < n - 1 && EventOfCase(j, i, before[a]);
      } else {
        LastCaseMet(j, n, a);
      }
    }
  }

  lemma LastCaseMet(j: Job, n: nat, b: nat)
    requires 0 < n <= |j.manifest.cases| && |History(j, n - 1)| <= b < |History(j, n)|
    ensures EventOfCase(j, n - 1, History(j, n)[b])
  {
    var p := EndOfTrial(j.trials(n - 1)).panel;
    assert History(j, n)[b] == EventsOf(j.manifest.cases[n - 1], p)[b - |History(j, n - 1)|];
  }

  lemma {:induction false} LostInTurn(es: seq<Event>, k: ReviewerKey, a: nat, b: nat) returns (p: nat, q: nat)
    requires a < b < |LostBy(es, k)|
    ensures p < q < |es| && es[p].Key() == es[q].Key() == k && !es[p].Scores() && !es[q].Scores()
    ensures Lost(es[p]) == LostBy(es, k)[a] && Lost(es[q]) == LostBy(es, k)[b]
  {
    var n := |es| - 1;
    var pre := es[..n];
    if b < |LostBy(pre, k)| {
      p, q := LostInTurn(pre, k, a, b);
    } else {
      q := n;
      assert LostBy(pre, k)[a] in LostBy(pre, k);
      LostMembers(pre, k, LostBy(pre, k)[a]);
      var e :| e in pre && e.Key() == k && !e.Scores() && Lost(e) == LostBy(pre, k)[a];
      p :| 0 <= p < n && pre[p] == e;
    }
  }

  /** By public name; under one name by suite order. */
  ghost predicate ListedBefore(m: Manifest, f: SlotFailure, g: SlotFailure) {
    PublicLess(f.key, g.key) || (f.key == g.key && (f.caseID == g.caseID || InSuiteOrder(m, f.caseID, g.caseID)))
  }

  lemma OwnLostAscend(text: Text, j: Job, l: Ledger, k: ReviewerKey, a: nat, b: nat)
    requires LedgerAt(History(j, |j.manifest.cases|), l, k) && a < b < |PublicLost(text, l, k)|
    ensures ListedBefore(j.manifest, PublicLost(text, l, k)[a], PublicLost(text, l, k)[b])
  {
    var n := |j.manifest.cases|;
    var es := History(j, n);
    var p, q := LostInTurn(es, k, a, b);
    HistoryInTurn(j, n, p, q);
    var i, m :| 0 <= i <= m < n && EventOfCase(j, i, es[p]) && EventOfCase(j, m, es[q]);
  }

  lemma NameComesBefore(text: Text, l: Ledger, out: seq<ReviewerKey>, f: SlotFailure)
    requires out != [] && f in PublicSlotFailures(text, l, out[..|out| - 1])
    requires forall x, y :: 0 <= x < y < |out| ==> KeyLess(text.Publish(out[x]), text.Publish(out[y]))
    ensures PublicLess(f.key, text.Publish(out[|out| - 1]))
  {
    var n := |out| - 1;
    FlatMembers(text, l, out[..n], f);
    var k, x :| k in out[..n] && x in LostOf(l, k) && f == PublicFailure(text, k, x);
    var i :| 0 <= i < n && out[i] == k;
    assert KeyLess(text.Publish(out[i]), text.Publish(out[n]));
  }

  ghost predicate Ascends(m: Manifest, fs: seq<SlotFailure>) { forall a, b :: 0 <= a < b < |fs| ==> ListedBefore(m, fs[a], fs[b]) }

  lemma BothAscend(m: Manifest, fs: seq<SlotFailure>, gs: seq<SlotFailure>, k: ReviewerKey)
    requires Ascends(m, fs) && Ascends(m, gs)
    requires (forall f :: f in fs ==> PublicLess(f.key, k)) && (forall i :: 0 <= i < |gs| ==> gs[i].key == k)
    ensures Ascends(m, fs + gs)
  {
    forall a, b | 0 <= a < b < |fs + gs| ensures ListedBefore(m, (fs + gs)[a], (fs + gs)[b]) {
      if a < |fs| <= b { assert fs[a] in fs; }
    }
  }

  lemma OwnAscend(text: Text, j: Job, l: Ledger, k: ReviewerKey)
    requires LedgerAt(History(j, |j.manifest.cases|), l, k)
    ensures Ascends(j.manifest, PublicLost(text, l, k))
    ensures forall i :: 0 <= i < |PublicLost(text, l, k)| ==> PublicLost(text, l, k)[i].key == text.Publish(k)
  {
    forall a, b | 0 <= a < b < |PublicLost(text, l, k)| ensures ListedBefore(j.manifest, PublicLost(text, l, k)[a], PublicLost(text, l, k)[b]) {
      OwnLostAscend(text, j, l, k, a, b);
    }
  }

  lemma {:induction false} SlotsAscend(text: Text, j: Job, l: Ledger, out: seq<ReviewerKey>)
    requires LedgerOf(History(j, |j.manifest.cases|), l)
    requires forall x, y :: 0 <= x < y < |out| ==> KeyLess(text.Publish(out[x]), text.Publish(out[y]))
    ensures Ascends(j.manifest, PublicSlotFailures(text, l, out))
  {
    if out != [] {
      var n := |out| - 1;
      var before := PublicSlotFailures(text, l, out[..n]);
      SlotsAscend(text, j, l, out[..n]);
      forall f | f in before ensures PublicLess(f.key, text.Publish(out[n])) { NameComesBefore(text, l, out, f); }
      assert LedgerAt(History(j, |j.manifest.cases|), l, out[n]);
      OwnAscend(text, j, l, out[n]);
      BothAscend(j.manifest, before, PublicLost(text, l, out[n]), text.Publish(out[n]));
    }
  }

  /** The lost lanes are listed by public model, then persona, and under one name in suite order. */
  lemma SlotFailuresAscend(text: Text, metrics: Metrics, j: Job)
    requires Succeeds(text, j)
    ensures Ascends(j.manifest, EmitRun(text, metrics, j.manifest, At(j, |j.manifest.cases|)).slotFailures)
  {
    var l := At(j, |j.manifest.cases|).ledger;
    LedgerAtEnd(j);
    EmitOrderFacts(text, l.order);
    SlotsAscend(text, j, l, EmitOrder(text, l.order));
  }

  // ------------------------------------------------------------------- what a row holds

  /** A lane meeting a reviewed case. */
  datatype Meeting = Meeting(c: SuiteCase, grounding: Option<bool>, slot: Slot)

  function MeetingsOf(c: SuiteCase, grounding: Option<bool>, slots: seq<Slot>): seq<Meeting> {
    Map((s: Slot) => Meeting(c, grounding, s), slots)
  }

  function MeasuredBy(k: ReviewerKey): Slot -> bool { (s: Slot) => s.key == k && Measured(s) }

  /** Everything identity `k` measured in the first `i` cases, in order. */
  ghost function MeasuredMeetings(j: Job, k: ReviewerKey, i: nat): seq<Meeting>
    requires i <= |j.manifest.cases|
  {
    if i == 0 then []
    else
      var before, t := MeasuredMeetings(j, k, i - 1), j.trials(i - 1);
      if Succeeded(t) then before + MeetingsOf(j.manifest.cases[i - 1], t.panel.grounding, Filter(MeasuredBy(k), t.panel.slots)) else before
  }

  function ReportsUsage(): Meeting -> bool { (x: Meeting) => x.slot.usageReported }

  function Price(): Meeting -> real { (x: Meeting) => x.slot.cost }

  function WallClock(): Meeting -> int { (x: Meeting) => x.slot.durationMS }

  function ServedByFallback(): Meeting -> bool { (x: Meeting) => x.slot.fallbackUsed }

  function EndedAs(word: string): Meeting -> bool { (x: Meeting) => CountsAs(x.slot.outcome, word) }

  /** What these meetings owe the row of their identity. */
  ghost predicate OwedTo(add: AddCost, own: seq<Meeting>, acc: RepoAcc) {
    && OwedCases(own, acc)
    && acc.cost == Spent(add, Map(Price(), Filter(ReportsUsage(), own)))
    && acc.latencies == Map(WallClock(), Filter(ReportsUsage(), own))
    && acc.fallbackCases == |Filter(ServedByFallback(), own)|
    && (forall word :: word != "" ==> CountAt(acc.outcomes, word) == |Filter(EndedAs(word), own)|)
    && (forall b :: acc.grounding == Some(b) <==> own != [] && AllSaw(own, b))
  }

  ghost predicate OwedCases(own: seq<Meeting>, acc: RepoAcc) {
    && |acc.cases| == |acc.caseIDs| == |own|
    && forall i :: 0 <= i < |own| ==>
         acc.cases[i].expected == own[i].c.expected && acc.cases[i].raised == own[i].slot.raised && acc.caseIDs[i] == own[i].c.id
  }

  ghost predicate AllSaw(own: seq<Meeting>, b: bool) { forall i :: 0 <= i < |own| ==> own[i].grounding == Some(b) }

  function AsEvent(): Meeting -> Event { (x: Meeting) => Event(x.c.id, x.c.expected, x.grounding, x.slot) }

  function Metered(): Event -> bool { (e: Event) => e.slot.usageReported }

  function Prices(): Event -> real { (e: Event) => e.slot.cost }

  function Times(): Event -> int { (e: Event) => e.slot.durationMS }

  function ByFallback(): Event -> bool { (e: Event) => e.slot.fallbackUsed }

  function CountedAs(word: string): Event -> bool { (e: Event) => CountsAs(e.slot.outcome, word) }

  ghost predicate HoldsCases(es: seq<Event>, cases: seq<CaseScore>, ids: seq<string>) {
    && |cases| == |ids| == |es|
    && forall i :: 0 <= i < |es| ==> cases[i].expected == es[i].expected && cases[i].raised == es[i].slot.raised && ids[i] == es[i].caseID
  }

  lemma HoldsSnoc(es: seq<Event>, e: Event, cases: seq<CaseScore>, ids: seq<string>)
    requires HoldsCases(es, cases, ids)
    ensures HoldsCases(es + [e], cases + [CaseScore(e.expected, e.slot.raised)], ids + [e.caseID])
  {
  }

  lemma {:induction false} RowCases(add: AddCost, es: seq<Event>)
    ensures HoldsCases(es, RepoRow(add, es).cases, RepoRow(add, es).caseIDs)
  {
    if es != [] {
      var n := |es| - 1;
      RowCases(add, es[..n]);
      HoldsSnoc(es[..n], es[n], RepoRow(add, es[..n]).cases, RepoRow(add, es[..n]).caseIDs);
      assert es == es[..n] + [es[n]];
    }
  }

  lemma CostsSnoc(es: seq<Event>, e: Event)
    ensures var before, after := Filter(Metered(), es), Filter(Metered(), es + [e]);
            if e.slot.usageReported then
              Map(Prices(), after) == Map(Prices(), before) + [e.slot.cost] && Map(Times(), after) == Map(Times(), before) + [e.slot.durationMS]
            else after == before
  {
    FilterSnoc(Metered(), es, e);
    MapConcat(Prices(), Filter(Metered(), es), [e]);
    MapConcat(Times(), Filter(Metered(), es), [e]);
    assert Map(Prices(), [e]) == [e.slot.cost] && Map(Times(), [e]) == [e.slot.durationMS];
  }

  ghost predicate HoldsCosts(add: AddCost, es: seq<Event>, acc: RepoAcc) {
    acc.cost == Spent(add, Map(Prices(), Filter(Metered(), es))) && acc.latencies == Map(Times(), Filter(Metered(), es))
  }

  lemma CostsNext(add: AddCost, es: seq<Event>, e: Event, acc: RepoAcc)
    requires HoldsCosts(add, es, acc)
    ensures HoldsCosts(add, es + [e], Scored(add, acc, e))
  {
    CostsSnoc(es, e);
    SpentSnoc(add, Map(Prices(), Filter(Metered(), es)), e.slot.cost);
  }

  lemma {:induction false} RowCosts(add: AddCost, es: seq<Event>)
    ensures HoldsCosts(add, es, RepoRow(add, es))
  {
    if es != [] {
      var n := |es| - 1;
      RowCosts(add, es[..n]);
      assert es == es[..n] + [es[n]];
      CostsNext(add, es[..n], es[n], RepoRow(add, es[..n]));
    }
  }

  lemma {:induction false} RowCounted(add: AddCost, es: seq<Event>, word: string)
    requires word != ""
    ensures RepoRow(add, es).fallbackCases == |Filter(ByFallback(), es)|
    ensures CountAt(RepoRow(add, es).outcomes, word) == |Filter(CountedAs(word), es)|
  {
    if es != [] {
      var n := |es| - 1;
      RowCounted(add, es[..n], word);
      assert es == es[..n] + [es[n]];
      FilterSnoc(ByFallback(), es[..n], es[n]);
      FilterSnoc(CountedAs(word), es[..n], es[n]);
      BumpCounts(RepoRow(add, es[..n]).outcomes, es[n].slot.outcome, word);
    }
  }

  lemma RowSaw(add: AddCost, own: seq<Meeting>, b: bool)
    ensures RepoRow(add, Map(AsEvent(), own)).grounding == Some(b) <==> own != [] && AllSaw(own, b)
  {
    var es := Map(AsEvent(), own);
    RowTag(add, es, b);
    forall i | 0 <= i < |own| ensures es[i].grounding == own[i].grounding { }
    assert (forall i :: 0 <= i < |es| ==> es[i].grounding == Some(b)) <==> AllSaw(own, b);
  }

  /** The same sums over events and over meetings. */
  lemma SameCosts(own: seq<Meeting>)
    ensures var es := Map(AsEvent(), own);
            && Map(Prices(), Filter(Metered(), es)) == Map(Price(), Filter(ReportsUsage(), own))
            && Map(Times(), Filter(Metered(), es)) == Map(WallClock(), Filter(ReportsUsage(), own))
            && |Filter(ByFallback(), es)| == |Filter(ServedByFallback(), own)|
  {
    FilterMap(AsEvent(), Metered(), ReportsUsage(), own);
    FilterMap(AsEvent(), ByFallback(), ServedByFallback(), own);
  }

  lemma RowIsOwed(add: AddCost, own: seq<Meeting>)
    ensures OwedTo(add, own, RepoRow(add, Map(AsEvent(), own)))
  {
    var es := Map(AsEvent(), own);
    RowCases(add, es);
    RowCosts(add, es);
    SameCosts(own);
    RowCounted(add, es, "unknown");
    forall word | word != "" ensures CountAt(RepoRow(add, es).outcomes, word) == |Filter(EndedAs(word), own)| {
      RowCounted(add, es, word);
      FilterMap(AsEvent(), CountedAs(word), EndedAs(word), own);
    }
    forall b ensures RepoRow(add, es).grounding == Some(b) <==> own != [] && AllSaw(own, b) { RowSaw(add, own, b); }
    SameCases(own, RepoRow(add, es));
  }

  lemma SameCases(own: seq<Meeting>, acc: RepoAcc)
    requires HoldsCases(Map(AsEvent(), own), acc.cases, acc.caseIDs)
    ensures OwedCases(own, acc)
  {
    var es := Map(AsEvent(), own);
    forall i | 0 <= i < |own| ensures es[i].expected == own[i].c.expected && es[i].slot == own[i].slot && es[i].caseID == own[i].c.id { }
  }

  // --------------------------------------------------------------- from trials to rows

  lemma {:induction false} ScoredIsFilter(es: seq<Event>, k: ReviewerKey)
    ensures ScoredOf(es, k) == Filter((e: Event) => e.Key() == k && e.Scores(), es)
  {
    if es != [] {
      var n := |es| - 1;
      ScoredIsFilter(es[..n], k);
      assert es == es[..n] + [es[n]];
      FilterSnoc((e: Event) => e.Key() == k && e.Scores(), es[..n], es[n]);
    }
  }

  lemma PanelScored(c: SuiteCase, p: Panel, k: ReviewerKey)
    ensures Filter((e: Event) => e.Key() == k && e.Scores(), EventsOf(c, p)) ==
            Map(AsEvent(), MeetingsOf(c, p.grounding, Filter(MeasuredBy(k), p.slots)))
  {
    var toEvent := (s: Slot) => Event(c.id, c.expected, p.grounding, s);
    forall s ensures MeasuredBy(k)(s) == (toEvent(s).Key() == k && toEvent(s).Scores()) { MeasuredScores(s); }
    FilterMap(toEvent, (e: Event) => e.Key() == k && e.Scores(), MeasuredBy(k), p.slots);
    var mine := Filter(MeasuredBy(k), p.slots);
    assert Map(toEvent, mine) == Map(AsEvent(), MeetingsOf(c, p.grounding, mine));
  }

  lemma ScoredStep(k: ReviewerKey, before: seq<Event>, more: seq<Event>, xs: seq<Meeting>, ys: seq<Meeting>)
    requires ScoredOf(before, k) == Map(AsEvent(), xs)
    requires Filter((e: Event) => e.Key() == k && e.Scores(), more) == Map(AsEvent(), ys)
    ensures ScoredOf(before + more, k) == Map(AsEvent(), xs + ys)
  {
    ScoredIsFilter(before, k);
    ScoredIsFilter(before + more, k);
    FilterConcat((e: Event) => e.Key() == k && e.Scores(), before, more);
    MapConcat(AsEvent(), xs, ys);
  }

  lemma {:induction false} ScoredAreMeetings(j: Job, k: ReviewerKey, i: nat)
    requires i <= |j.manifest.cases|
    ensures ScoredOf(History(j, i), k) == Map(AsEvent(), MeasuredMeetings(j, k, i))
  {
    if i > 0 {
      var c, t := j.manifest.cases[i - 1], j.trials(i - 1);
      ScoredAreMeetings(j, k, i - 1);
      TrialEnds(t);
      if Succeeded(t) {
        PanelScored(c, t.panel, k);
        ScoredStep(k, History(j, i - 1), EventsOf(c, t.panel), MeasuredMeetings(j, k, i - 1), MeetingsOf(c, t.panel.grounding, Filter(MeasuredBy(k), t.panel.slots)));
      }
    }
  }

  /**
   At every loop head each identity's accumulator holds exactly what its lanes measured so
   far: case ids, expected and raised categories, costs, latencies, counts and tag.
   */
  lemma LedgerRowIsOwed(j: Job, i: nat, k: ReviewerKey)
    requires i <= |j.manifest.cases| && !At(j, i).aborted
    ensures OwedTo(j.add, MeasuredMeetings(j, k, i), AccOf(At(j, i).ledger, k))
  {
    LedgerIsHistory(j, i);
    LedgerRows(j.add, History(j, i), k);
    ScoredAreMeetings(j, k, i);
    RowIsOwed(j.add, MeasuredMeetings(j, k, i));
  }

  /** The two rows published for identity `k` hold its accumulator. */
  ghost predicate PublishedFor(text: Text, metrics: Metrics, k: ReviewerKey, acc: RepoAcc, rev: PublicRecord, cov: Coverage) {
    && cov.key == rev.key == text.Publish(k)
    && cov.caseIDs == acc.caseIDs && cov.outcomes == Some(acc.outcomes)
    && cov.fallbackCases == acc.fallbackCases && cov.grounding == acc.grounding
    && rev.runs == |acc.cases|
    && exists mid :: IsMiddle(acc.latencies, mid) && rev.metrics == metrics(ReviewerScore(k, acc.cases, acc.cost, mid))
  }

  ghost predicate PublishedSomewhere(text: Text, metrics: Metrics, k: ReviewerKey, acc: RepoAcc, rr: RunResult) {
    exists a :: 0 <= a < |rr.reviewers| == |rr.coverage| && PublishedFor(text, metrics, k, acc, rr.reviewers[a], rr.coverage[a])
  }

  lemma EmittedRow(text: Text, metrics: Metrics, m: Manifest, st: RepoRun, k: ReviewerKey)
    requires Publishable(text, st.ledger.order) && k in st.ledger.order
    ensures PublishedSomewhere(text, metrics, k, AccOf(st.ledger, k), EmitRun(text, metrics, m, st))
  {
    var l, out := st.ledger, EmitOrder(text, st.ledger.order);
    EmitOrderFacts(text, l.order);
    RowsAlign(text, metrics, l, out);
    var a :| 0 <= a < |out| && out[a] == k;
    MedianIsMiddle(AccOf(l, k).latencies);
    var rr := EmitRun(text, metrics, m, st);
    assert rr.coverage[a] == CoverageRow(text, l, k);
    assert PublishedFor(text, metrics, k, AccOf(l, k), rr.reviewers[a], rr.coverage[a]);
  }

  /** What a successful run publishes of an identity: a coverage row and a public row that hold what its lanes measured. */
  lemma RowIsPublished(text: Text, metrics: Metrics, j: Job, k: ReviewerKey)
    requires Succeeds(text, j) && exists i, s :: SlotMet(j, i, s) && s.key == k
    ensures var n := |j.manifest.cases|;
            exists acc :: OwedTo(j.add, MeasuredMeetings(j, k, n), acc)
                          && PublishedSomewhere(text, metrics, k, acc, EmitRun(text, metrics, j.manifest, At(j, n)))
  {
    var n := |j.manifest.cases|;
    var l := At(j, n).ledger;
    LedgerRowIsOwed(j, n, k);
    LedgerAtEnd(j);
    SeenIsMet(j, k);
    assert LedgerAt(History(j, n), l, k);
    assert k in ToSet(l.order);
    EmittedRow(text, metrics, j.manifest, At(j, n), k);
  }

  /** Both arrays are in ascending order of public model, then persona, and the suite's names are its own. */
  lemma RowsAscend(text: Text, metrics: Metrics, j: Job)
    requires Succeeds(text, j)
    ensures var rr := EmitRun(text, metrics, j.manifest, At(j, |j.manifest.cases|));
            && |rr.reviewers| == |rr.coverage|
            && (forall a, b :: 0 <= a < b < |rr.coverage| ==> PublicLess(rr.coverage[a].key, rr.coverage[b].key))
            && (forall a :: 0 <= a < |rr.coverage| ==> rr.reviewers[a].key == rr.coverage[a].key)
            && rr.suite == j.manifest.suite && rr.suiteVersion == j.manifest.suiteVersion
            && |rr.suiteCaseIDs| == |j.manifest.cases| && forall i :: 0 <= i < |j.manifest.cases| ==> rr.suiteCaseIDs[i] == j.manifest.cases[i].id
  {
    EmissionFacts(text, metrics, j);
    EmitOrderFacts(text, At(j, |j.manifest.cases|).ledger.order);
  }
}
