/**
 Producer and checker together: what a successful repo-state run emits, seen by the
 publication gate. The gate accepts the file exactly when no reviewed case ran two
 lanes under one realized identity (and every lost lane keeps a name once scrubbed).
 */
module RepoStateGate {
  import opened Basics
  import opened Orders
  import opened Benchmark
  import opened ReviewerFold
  import opened BenchmarkRun
  import opened RunReport
  import opened ExportGate
  import opened RepoStateRun

  // -------------------------------------------- the ledger, identity by identity

  function ScoredOf(es: seq<Event>, k: ReviewerKey): seq<Event> {
    if es == [] then []
    else
      var before, e := ScoredOf(es[..|es| - 1], k), es[|es| - 1];
      if e.Key() == k && e.Scores() then before + [e] else before
  }

  function LostBy(es: seq<Event>, k: ReviewerKey): seq<LostSlot> {
    if es == [] then []
    else
      var before, e := LostBy(es[..|es| - 1], k), es[|es| - 1];
      if e.Key() == k && !e.Scores() then before + [Lost(e)] else before
  }

  function RepoRow(add: AddCost, es: seq<Event>): RepoAcc {
    if es == [] then NO_CASES else Scored(add, RepoRow(add, es[..|es| - 1]), es[|es| - 1])
  }

  predicate Seen(es: seq<Event>, k: ReviewerKey) {
    exists i :: 0 <= i < |es| && es[i].Key() == k
  }

  ghost predicate LedgerInv(l: Ledger) {
    && Distinct(l.order)
    && ToSet(l.order) == l.accs.Keys
    && l.slotFailures.Keys <= l.accs.Keys
    && (forall k :: k in l.accs ==> Distinct(l.accs[k].caseIDs) && l.accs[k].scored.Keys == ToSet(l.accs[k].caseIDs))
  }

  lemma RegisteredKeepsInv(l: Ledger, k: ReviewerKey)
    requires LedgerInv(l)
    ensures LedgerInv(Registered(l, k)) && k in Registered(l, k).accs
  {
    DistinctSnoc(l.order, k);
    assert k in l.order <==> k in ToSet(l.order);
  }

  lemma FoldEventKeepsInv(add: AddCost, l: Ledger, e: Event)
    requires LedgerInv(l) && FoldEvent(add, l, e).Ok?
    ensures LedgerInv(FoldEvent(add, l, e).value)
  {
    var k := e.Key();
    RegisteredKeepsInv(l, k);
    DistinctSnoc(AccOf(Registered(l, k), k).caseIDs, e.caseID);
  }

  lemma {:induction false} ReachableLedgerInv(add: AddCost, es: seq<Event>)
    requires FoldEvents(add, EMPTY_LEDGER, es).Ok?
    ensures LedgerInv(FoldEvents(add, EMPTY_LEDGER, es).value)
  {
    if es != [] {
      ReachableLedgerInv(add, es[..|es| - 1]);
      FoldEventKeepsInv(add, FoldEvents(add, EMPTY_LEDGER, es[..|es| - 1]).value, es[|es| - 1]);
    }
  }

  lemma FoldEventRow(add: AddCost, l: Ledger, e: Event, k: ReviewerKey)
    requires FoldEvent(add, l, e).Ok?
    ensures var l' := FoldEvent(add, l, e).value;
            && (k in l'.accs <==> k in l.accs || k == e.Key())
            && AccOf(l', k) == (if e.Key() == k && e.Scores() then Scored(add, AccOf(l, k), e) else AccOf(l, k))
            && LostOf(l', k) == (if e.Key() == k && !e.Scores() then LostOf(l, k) + [Lost(e)] else LostOf(l, k))
  {
  }

  ghost predicate OwnRows(add: AddCost, es: seq<Event>, l: Ledger, k: ReviewerKey) {
    && (k in l.accs <==> Seen(es, k))
    && AccOf(l, k) == RepoRow(add, ScoredOf(es, k))
    && LostOf(l, k) == LostBy(es, k)
  }

  lemma SeenSnoc(es: seq<Event>, k: ReviewerKey)
    requires es != []
    ensures Seen(es, k) <==> Seen(es[..|es| - 1], k) || es[|es| - 1].Key() == k
  {
    var n := |es| - 1;
    assert forall i :: 0 <= i < n ==> es[..n][i] == es[i];
  }

  lemma RowsNext(add: AddCost, es: seq<Event>, l: Ledger, k: ReviewerKey)
    requires es != [] && OwnRows(add, es[..|es| - 1], l, k) && FoldEvent(add, l, es[|es| - 1]).Ok?
    ensures OwnRows(add, es, FoldEvent(add, l, es[|es| - 1]).value, k)
  {
    FoldEventRow(add, l, es[|es| - 1], k);
    SeenSnoc(es, k);
  }

  /** Each identity's row and its losses come from its own slots alone. */
  lemma {:induction false} LedgerRows(add: AddCost, es: seq<Event>, k: ReviewerKey)
    requires FoldEvents(add, EMPTY_LEDGER, es).Ok?
    ensures var l := FoldEvents(add, EMPTY_LEDGER, es).value;
            && (k in l.accs <==> Seen(es, k))
            && AccOf(l, k) == RepoRow(add, ScoredOf(es, k))
            && LostOf(l, k) == LostBy(es, k)
  {
    if es != [] {
      var n := |es| - 1;
      LedgerRows(add, es[..n], k);
      RowsNext(add, es, FoldEvents(add, EMPTY_LEDGER, es[..n]).value, k);
    }
  }

  /** A row lists the cases its slots scored, with as many scores and tallied outcomes. */
  lemma {:induction false} RowCounts(add: AddCost, es: seq<Event>)
    ensures var acc := RepoRow(add, es);
            && |acc.cases| == |acc.caseIDs| == |es|
            && MapSum(acc.outcomes) == |es|
            && forall i :: 0 <= i < |es| ==> acc.caseIDs[i] == es[i].caseID
  {
    if es != [] {
      var n := |es| - 1;
      RowCounts(add, es[..n]);
      assert RepoRow(add, es).caseIDs == RepoRow(add, es[..n]).caseIDs + [es[n].caseID];
      assert forall i :: 0 <= i < n ==> es[..n][i] == es[i];
    }
  }

  function GateStates(es: seq<Event>): seq<Option<bool>> { Map((e: Event) => e.grounding, es) }

  /** A row's tag is unanimity over every case it scored. */
  lemma {:induction false} RowTag(add: AddCost, es: seq<Event>, b: bool)
    ensures RepoRow(add, es).grounding == GroundingTag(GateStates(es))
    ensures RepoRow(add, es).grounding == Some(b) <==> es != [] && forall i :: 0 <= i < |es| ==> es[i].grounding == Some(b)
  {
    if es != [] {
      var n := |es| - 1;
      RowTag(add, es[..n], b);
      RowCounts(add, es[..n]);
      assert GateStates(es)[..n] == GateStates(es[..n]);
      RowTagStep(add, RepoRow(add, es[..n]), es[n]);
    }
    GroundingTagIsUnanimity(GateStates(es), b);
  }

  lemma RowTagStep(add: AddCost, acc: RepoAcc, e: Event)
    ensures Scored(add, acc, e).grounding == FoldGrounding(acc.grounding, e.grounding, acc.caseIDs == [])
  {
  }

  lemma {:induction false} RowTally(add: AddCost, es: seq<Event>, t: string)
    requires t in RepoRow(add, es).outcomes
    ensures RepoRow(add, es).outcomes[t] > 0
    ensures exists i :: 0 <= i < |es| && OutcomeTallyKey(es[i].slot.outcome) == t
  {
    var n := |es| - 1;
    if t in RepoRow(add, es[..n]).outcomes {
      RowTally(add, es[..n], t);
      var i :| 0 <= i < n && OutcomeTallyKey(es[..n][i].slot.outcome) == t;
      assert es[i] == es[..n][i];
    } else {
      assert OutcomeTallyKey(es[n].slot.outcome) == t;
    }
  }

  lemma {:induction false} ScoredMembers(es: seq<Event>, k: ReviewerKey, e: Event)
    ensures e in ScoredOf(es, k) <==> e in es && e.Key() == k && e.Scores()
  {
    if es != [] {
      var n := |es| - 1;
      ScoredMembers(es[..n], k, e);
      assert es == es[..n] + [es[n]];
    }
  }

  function ScoredIds(es: seq<Event>, k: ReviewerKey): (ids: seq<string>)
    ensures |ids| == |ScoredOf(es, k)| && forall i :: 0 <= i < |ids| ==> ids[i] == ScoredOf(es, k)[i].caseID
  { Map((e: Event) => e.caseID, ScoredOf(es, k)) }

  function LostIds(ls: seq<LostSlot>): seq<string> { Map((s: LostSlot) => s.caseID, ls) }

  /** `id` was met by a slot of `k`. */
  predicate Met(es: seq<Event>, k: ReviewerKey, id: string) {
    exists i :: 0 <= i < |es| && es[i].Key() == k && es[i].caseID == id
  }

  /** Identity `k` met each case at most once. */
  ghost predicate OnceFor(es: seq<Event>, k: ReviewerKey) {
    forall a, b :: 0 <= a < b < |es| && es[a].Key() == k && es[b].Key() == k ==> es[a].caseID != es[b].caseID
  }

  lemma OnceForSnoc(es: seq<Event>, e: Event, k: ReviewerKey)
    ensures OnceFor(es + [e], k) <==> OnceFor(es, k) && (e.Key() == k ==> !Met(es, k, e.caseID))
    ensures forall id :: Met(es + [e], k, id) <==> Met(es, k, id) || (e.Key() == k && e.caseID == id)
  {
    var all := es + [e];
    assert all[|es|] == e && forall i :: 0 <= i < |es| ==> all[i] == es[i];
  }

  lemma {:induction false} MetIsScoredOrLost(es: seq<Event>, k: ReviewerKey, id: string)
    ensures Met(es, k, id) <==> id in ScoredIds(es, k) || id in LostIds(LostBy(es, k))
  {
    if es != [] {
      var n := |es| - 1;
      MetIsScoredOrLost(es[..n], k, id);
      assert es == es[..n] + [es[n]];
      OnceForSnoc(es[..n], es[n], k);
      IdsSnoc(es[..n], es[n], k);
    }
  }

  lemma IdsSnoc(es: seq<Event>, e: Event, k: ReviewerKey)
    ensures ScoredIds(es + [e], k) == if e.Key() == k && e.Scores() then ScoredIds(es, k) + [e.caseID] else ScoredIds(es, k)
    ensures LostIds(LostBy(es + [e], k)) ==
            if e.Key() == k && !e.Scores() then LostIds(LostBy(es, k)) + [e.caseID] else LostIds(LostBy(es, k))
  {
    assert (es + [e])[..|es|] == es;
  }

  /** Meeting each case once is: scores distinct, losses distinct, and no case in both. */
  lemma {:induction false} OnceIsDisjoint(es: seq<Event>, k: ReviewerKey)
    ensures var scored, lost := ScoredIds(es, k), LostIds(LostBy(es, k));
            OnceFor(es, k) <==> Distinct(scored) && Distinct(lost) && ToSet(scored) !! ToSet(lost)
  {
    if es != [] {
      var n := |es| - 1;
      var e := es[n];
      OnceIsDisjoint(es[..n], k);
      assert es == es[..n] + [e];
      OnceForSnoc(es[..n], e, k);
      IdsSnoc(es[..n], e, k);
      MetIsScoredOrLost(es[..n], k, e.caseID);
      DistinctSnoc(ScoredIds(es[..n], k), e.caseID);
      DistinctSnoc(LostIds(LostBy(es[..n], k)), e.caseID);
    }
  }

  // ------------------------------------------------------- history and the suite

  /** What the loader and the pre-flight guarantee about a suite's case ids. */
  ghost predicate LoadedSuite(text: Text, m: Manifest) {
    && Distinct(SuiteIds(m))
    && (forall i :: 0 <= i < |m.cases| ==> !Blank(m.cases[i].id) && text.printable(m.cases[i].id))
  }

  predicate WasReviewed(j: Job, i: int) { EndOfTrial(j.trials(i)).Reviewed? }

  function PanelOf(j: Job, i: int): Panel
    requires WasReviewed(j, i)
  {
    EndOfTrial(j.trials(i)).panel
  }

  /** An outage of the whole panel is never measured: a reviewed case has a lane whose call succeeded. */
  lemma ReviewedHasAnswer(j: Job, i: int)
    requires WasReviewed(j, i)
    ensures exists s :: s in PanelOf(j, i).slots && s.status.CallOk?
  {
    var slots := PanelOf(j, i).slots;
    var k :| 0 <= k < |Judged(slots)| && Judged(slots)[k].status.CallOk?;
    var readers := (s: Slot) => s.agent != VISUAL_PERSONA;
    FilterIn(readers, slots, Judged(slots)[k]);
    assert Judged(slots)[k] in slots;
  }

  /** Case `i` was reviewed and slot `s` took part. */
  ghost predicate SlotMet(j: Job, i: int, s: Slot) {
    0 <= i < |j.manifest.cases| && WasReviewed(j, i) && s in PanelOf(j, i).slots
  }

  ghost predicate EventOfCase(j: Job, i: int, e: Event) {
    && SlotMet(j, i, e.slot)
    && e.caseID == j.manifest.cases[i].id && e.expected == j.manifest.cases[i].expected
    && e.grounding == PanelOf(j, i).grounding
  }

  /** History holds exactly the slots of the reviewed cases. */
  lemma {:induction false} HistoryMembers(j: Job, n: nat, e: Event)
    requires n <= |j.manifest.cases|
    ensures e in History(j, n) <==> exists i :: 0 <= i < n && EventOfCase(j, i, e)
  {
    if n > 0 {
      HistoryMembers(j, n - 1, e);
      if WasReviewed(j, n - 1) {
        EventsMembers(j, n - 1, e);
      }
    }
  }

  lemma EventsMembers(j: Job, i: nat, e: Event)
    requires i < |j.manifest.cases| && WasReviewed(j, i)
    ensures e in EventsOf(j.manifest.cases[i], PanelOf(j, i)) <==> EventOfCase(j, i, e)
  {
    var c, p := j.manifest.cases[i], PanelOf(j, i);
    var es := EventsOf(c, p);
    if e in es {
      var a :| 0 <= a < |es| && es[a] == e;
      assert e.slot == p.slots[a];
    }
    if EventOfCase(j, i, e) {
      var a :| 0 <= a < |p.slots| && p.slots[a] == e.slot;
      assert es[a] == e;
    }
  }

  lemma {:induction false} FailureMembers(j: Job, n: nat)
    requires n <= |j.manifest.cases| && Distinct(SuiteIds(j.manifest))
    ensures var fs := FailuresSoFar(j, n);
            && Distinct(Map((f: FailedCase) => f.caseID, fs))
            && (forall f :: f in fs ==> exists i :: 0 <= i < n && Failing(j, i) && j.manifest.cases[i].id == f.caseID)
  {
    if n > 0 {
      FailureMembers(j, n - 1);
      var fs, ids := FailuresSoFar(j, n - 1), Map((f: FailedCase) => f.caseID, FailuresSoFar(j, n - 1));
      var id := SuiteIds(j.manifest)[n - 1];
      forall a | 0 <= a < |ids| ensures ids[a] != id {
        assert fs[a] in fs;
      }
      DistinctSnoc(ids, id);
      var fs' := FailuresSoFar(j, n);
      assert Failing(j, n - 1) ==> Map((f: FailedCase) => f.caseID, fs') == ids + [id];
    }
  }

  /** No reviewed case ran two lanes under one realized identity. */
  ghost predicate LanesDistinct(j: Job, n: nat) {
    forall i :: 0 <= i < n && WasReviewed(j, i) ==> Distinct(Map((s: Slot) => s.key, PanelOf(j, i).slots))
  }

  ghost predicate AllOnce(es: seq<Event>) {
    forall a, b :: 0 <= a < b < |es| ==> es[a].Key() != es[b].Key() || es[a].caseID != es[b].caseID
  }

  lemma AllOnceConcat(xs: seq<Event>, ys: seq<Event>)
    requires forall x, y :: x in xs && y in ys ==> x.caseID != y.caseID
    ensures AllOnce(xs + ys) <==> AllOnce(xs) && AllOnce(ys)
  {
    var all := xs + ys;
    if AllOnce(all) {
      forall a, b | 0 <= a < b < |ys| ensures ys[a].Key() != ys[b].Key() || ys[a].caseID != ys[b].caseID {
        assert all[|xs| + a] == ys[a] && all[|xs| + b] == ys[b];
      }
      forall a, b | 0 <= a < b < |xs| ensures xs[a].Key() != xs[b].Key() || xs[a].caseID != xs[b].caseID {
        assert all[a] == xs[a] && all[b] == xs[b];
      }
    }
  }

  lemma CaseOnce(c: SuiteCase, p: Panel)
    ensures AllOnce(EventsOf(c, p)) <==> Distinct(Map((s: Slot) => s.key, p.slots))
  {
    var es, ks := EventsOf(c, p), Map((s: Slot) => s.key, p.slots);
    assert |es| == |ks| && forall i :: 0 <= i < |es| ==> es[i].Key() == ks[i] && es[i].caseID == c.id;
  }

  /** Events of an earlier case are about another case. */
  lemma CasesApart(j: Job, n: nat, x: Event, y: Event)
    requires 0 < n <= |j.manifest.cases| && Distinct(SuiteIds(j.manifest)) && WasReviewed(j, n - 1)
    requires x in History(j, n - 1) && y in EventsOf(j.manifest.cases[n - 1], PanelOf(j, n - 1))
    ensures x.caseID != y.caseID
  {
    HistoryMembers(j, n - 1, x);
    EventsMembers(j, n - 1, y);
    var i :| 0 <= i < n - 1 && EventOfCase(j, i, x);
    assert SuiteIds(j.manifest)[i] != SuiteIds(j.manifest)[n - 1];
  }

  lemma NextCaseOnce(j: Job, n: nat)
    requires 0 < n <= |j.manifest.cases| && Distinct(SuiteIds(j.manifest)) && WasReviewed(j, n - 1)
    ensures AllOnce(History(j, n)) <==>
            AllOnce(History(j, n - 1)) && Distinct(Map((s: Slot) => s.key, PanelOf(j, n - 1).slots))
  {
    var c, p := j.manifest.cases[n - 1], PanelOf(j, n - 1);
    forall x, y | x in History(j, n - 1) && y in EventsOf(c, p) ensures x.caseID != y.caseID { CasesApart(j, n, x, y); }
    AllOnceConcat(History(j, n - 1), EventsOf(c, p));
    CaseOnce(c, p);
  }

  lemma {:induction false} OnceIsDistinctLanes(j: Job, n: nat)
    requires n <= |j.manifest.cases| && Distinct(SuiteIds(j.manifest))
    ensures AllOnce(History(j, n)) <==> LanesDistinct(j, n)
  {
    if n > 0 {
      OnceIsDistinctLanes(j, n - 1);
      if WasReviewed(j, n - 1) { NextCaseOnce(j, n); }
    }
  }

  lemma {:induction false} FailedIsNotScored(j: Job, i: nat, m: nat, e: Event)
    requires i <= |j.manifest.cases| && m < i && Distinct(SuiteIds(j.manifest)) && Failing(j, m) && e in History(j, i)
    ensures e.caseID != SuiteIds(j.manifest)[m]
  {
    HistoryMembers(j, i, e);
    var n :| 0 <= n < i && EventOfCase(j, n, e);
    assert SuiteIds(j.manifest)[n] == e.caseID;
  }

  lemma RowCoversHistory(add: AddCost, es: seq<Event>, l: Ledger, k: ReviewerKey, id: string)
    requires FoldEvents(add, EMPTY_LEDGER, es) == Ok(l) && id in AccOf(l, k).caseIDs
    ensures exists e :: e in es && e.caseID == id
  {
    var mine := ScoredOf(es, k);
    LedgerRows(add, es, k);
    RowCounts(add, mine);
    var a :| 0 <= a < |mine| && AccOf(l, k).caseIDs[a] == id;
    ScoredMembers(es, k, mine[a]);
  }

  /** At every loop head, a case recorded as failed stands in no row's covered set. */
  lemma FailedIsNeverCovered(j: Job, i: nat, f: FailedCase, k: ReviewerKey)
    requires i <= |j.manifest.cases| && !At(j, i).aborted && Distinct(SuiteIds(j.manifest)) && f in At(j, i).caseFailures
    ensures f.caseID !in AccOf(At(j, i).ledger, k).caseIDs
  {
    LoopAccounting(j, i);
    LedgerIsHistory(j, i);
    FailureMembers(j, i);
    var m :| 0 <= m < i && Failing(j, m) && j.manifest.cases[m].id == f.caseID;
    forall e | e in History(j, i) ensures e.caseID != f.caseID { FailedIsNotScored(j, i, m, e); }
    if f.caseID in AccOf(At(j, i).ledger, k).caseIDs {
      RowCoversHistory(j.add, History(j, i), At(j, i).ledger, k, f.caseID);
    }
  }

  // --------------------------------------------------------- work dir retention

  /** Every case was reviewed and no reviewer call failed. */
  ghost predicate CleanRun(j: Job) {
    forall i :: 0 <= i < |j.manifest.cases| ==>
      WasReviewed(j, i) && forall s :: s in PanelOf(j, i).slots ==> s.status.CallOk?
  }

  lemma {:induction false} NoFailures(j: Job, n: nat)
    requires n <= |j.manifest.cases|
    ensures FailuresSoFar(j, n) == [] <==> forall i :: 0 <= i < n ==> !Failing(j, i)
  {
    if n > 0 {
      NoFailures(j, n - 1);
      assert FailuresSoFar(j, n) == [] <==> FailuresSoFar(j, n - 1) == [] && !Failing(j, n - 1);
    }
  }

  lemma {:induction false} LostMembers(es: seq<Event>, k: ReviewerKey, s: LostSlot)
    ensures s in LostBy(es, k) <==> exists e :: e in es && e.Key() == k && !e.Scores() && Lost(e) == s
  {
    if es != [] {
      var n := |es| - 1;
      LostMembers(es[..n], k, s);
      assert es == es[..n] + [es[n]];
    }
  }

  lemma {:induction false} NotAbortedSoFar(j: Job, n: nat, i: nat)
    requires i < n <= |j.manifest.cases| && !At(j, n).aborted
    ensures !EndOfTrial(j.trials(i)).Aborts?
  {
    if i < n - 1 { NotAbortedSoFar(j, n - 1, i); }
  }

  lemma RetainsIffLost(add: AddCost, es: seq<Event>)
    requires FoldEvents(add, EMPTY_LEDGER, es).Ok?
    ensures SlotsRetain(FoldEvents(add, EMPTY_LEDGER, es).value) <==> exists e :: e in es && !e.slot.status.CallOk?
  {
    var l := FoldEvents(add, EMPTY_LEDGER, es).value;
    if SlotsRetain(l) {
      var k, i :| k in l.slotFailures && 0 <= i < |l.slotFailures[k]| && NeedsKeeping(l.slotFailures[k][i]);
      LedgerRows(add, es, k);
      LostMembers(es, k, l.slotFailures[k][i]);
    }
    if e :| e in es && !e.slot.status.CallOk? {
      LedgerRows(add, es, e.Key());
      LostMembers(es, e.Key(), Lost(e));
      var i :| 0 <= i < |LostOf(l, e.Key())| && LostOf(l, e.Key())[i] == Lost(e);
      assert NeedsKeeping(l.slotFailures[e.Key()][i]);
    }
  }

  /** Some slot of the history failed exactly when some reviewed case had a failed call. */
  lemma FailedCallInHistory(j: Job)
    ensures (exists e :: e in History(j, |j.manifest.cases|) && !e.slot.status.CallOk?) <==>
            (exists i, s :: SlotMet(j, i, s) && !s.status.CallOk?)
  {
    var n := |j.manifest.cases|;
    if e :| e in History(j, n) && !e.slot.status.CallOk? {
      HistoryMembers(j, n, e);
      var i :| 0 <= i < n && EventOfCase(j, i, e);
      assert SlotMet(j, i, e.slot);
    }
    if i, s :| SlotMet(j, i, s) && !s.status.CallOk? {
      var e := Event(j.manifest.cases[i].id, j.manifest.cases[i].expected, PanelOf(j, i).grounding, s);
      HistoryMembers(j, n, e);
      assert EventOfCase(j, i, e);
    }
  }

  lemma CleanMeansNothingLost(j: Job)
    ensures CleanRun(j) <==>
            && (forall i :: 0 <= i < |j.manifest.cases| ==> WasReviewed(j, i))
            && !(exists i, s :: SlotMet(j, i, s) && !s.status.CallOk?)
  {
    if CleanRun(j) {
      forall i, s | SlotMet(j, i, s) ensures s.status.CallOk? { }
    } else if forall i :: 0 <= i < |j.manifest.cases| ==> WasReviewed(j, i) {
      var i, s :| 0 <= i < |j.manifest.cases| && s in PanelOf(j, i).slots && !s.status.CallOk?;
      assert SlotMet(j, i, s);
    }
  }

  /** The work dir of a run that succeeds is removed exactly when nothing went wrong anywhere. */
  lemma WorkDirRemovedIffClean(text: Text, j: Job)
    requires Succeeds(text, j)
    ensures var end := At(j, |j.manifest.cases|);
            end.caseFailures == [] && !SlotsRetain(end.ledger) <==> CleanRun(j)
  {
    var n := |j.manifest.cases|;
    LoopAccounting(j, n);
    LedgerIsHistory(j, n);
    NoFailures(j, n);
    RetainsIffLost(j.add, History(j, n));
    FailedCallInHistory(j);
    CleanMeansNothingLost(j);
    forall i | 0 <= i < n ensures WasReviewed(j, i) <==> !Failing(j, i) { NotAbortedSoFar(j, n, i); }
  }

  // ------------------------------------------------------------ the emitted file

  lemma EmitOrderFacts(text: Text, order: seq<ReviewerKey>)
    requires Publishable(text, order)
    ensures var out := EmitOrder(text, order);
            && |out| == |order|
            && (forall k :: k in out <==> k in order)
            && (forall a, b :: 0 <= a < b < |out| ==> KeyLess(text.Publish(out[a]), text.Publish(out[b])))
            && (forall a, b :: 0 <= a < b < |out| ==> text.Publish(out[a]) != text.Publish(out[b]))
  {
    var less := (a: ReviewerKey, b: ReviewerKey) => PublishedLess(text, a, b);
    var out := StableSort(less, order);
    KeyLessIsTotal();
    forall x, y, z ensures WeakAt(less, x, y, z) {
      assert WeakAt(KeyLess, text.Publish(x), text.Publish(y), text.Publish(z));
    }
    SortSorted(less, order);
    SortPermutes(less, order);
    SortMembers(less, order);
    PublishableOfPermutation(text, out, order);
    forall a, b | 0 <= a < b < |out| ensures KeyLess(text.Publish(out[a]), text.Publish(out[b])) {
      assert !less(out[b], out[a]) && text.Publish(out[a]) != text.Publish(out[b]);
    }
  }

  /** Reviewer row `i` and coverage row `i` describe one identity, in one order. */
  lemma RowsAlign(text: Text, metrics: Metrics, l: Ledger, out: seq<ReviewerKey>)
    requires forall a, b :: 0 <= a < b < |out| ==> KeyLess(text.Publish(out[a]), text.Publish(out[b]))
    ensures var reviewers := Score(text, metrics, Map((k: ReviewerKey) => ScoreInputOf(l, k), out));
            && |reviewers| == |out|
            && forall i :: 0 <= i < |out| ==>
                 reviewers[i] == PublicRecord(text.Publish(out[i]), |AccOf(l, out[i]).cases|, metrics(ScoreInputOf(l, out[i])))
  {
    var inputs := Map((k: ReviewerKey) => ScoreInputOf(l, k), out);
    var scored := Map((r: ReviewerScore) => ScoreOne(text, metrics, r), inputs);
    KeyLessIsTotal();
    forall a, b | 0 <= a < b < |scored| ensures !RecordLess(scored[b], scored[a]) {
      assert scored[a].key == text.Publish(out[a]) && scored[b].key == text.Publish(out[b]);
      assert WeakAt(KeyLess, scored[a].key, scored[b].key, scored[a].key);
    }
    SortOfSorted(RecordLess, scored);
  }
}
