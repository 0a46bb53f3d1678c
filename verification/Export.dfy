/**
 `atcr benchmark export`: the identity checks in front of the gate, and what they add to the
 question which files a run can publish. A row that scrubs to blank text passes the gate,
 because both sides of its joins scrub alike, and is refused here.
 */
module Export {
  import opened Basics
  import opened Orders
  import opened Benchmark
  import opened ReviewerFold
  import opened BenchmarkRun
  import opened CrashResume
  import opened RunReport
  import opened ExportGate
  import opened RepoStateRun
  import opened RepoStateGate
  import opened ProducerGate
  import opened StandardGate

  // -------------------------------------------------------------- specification

  /** A text that is published as it stands. */
  predicate PublishedAsIs(text: Text, v: string) { text.printable(v) && text.scrub(v) == v && v != "" }

  predicate PublishableSuiteName(text: Text, v: string) { !Blank(v) && PublishedAsIs(text, v) }

  predicate PublishableRow(text: Text, k: ReviewerKey) { text.PrintableKey(k) && Named(text, k) }

  ghost predicate AllAsIs(text: Text, ids: seq<string>) {
    forall i :: 0 <= i < |ids| ==> PublishedAsIs(text, ids[i])
  }

  /** `validateScrubbedCaseIDs`; without a denominator the covered ids are not looked at. */
  ghost predicate CaseIdsSpec(text: Text, rr: RunResult) {
    && AllAsIs(text, rr.suiteCaseIDs)
    && (rr.suiteCaseIDs != [] ==> forall i :: 0 <= i < |rr.coverage| ==> AllAsIs(text, rr.coverage[i].caseIDs))
  }

  ghost predicate RowsSpec(text: Text, rr: RunResult) {
    rr.reviewers != [] && forall i :: 0 <= i < |rr.reviewers| ==> PublishableRow(text, rr.reviewers[i].key)
  }

  /** What export lets through, rates and generation time aside. */
  ghost predicate ExportSpec(text: Text, rr: RunResult, allowPartial: bool) {
    && PublishableSuiteName(text, rr.suite) && PublishableSuiteName(text, rr.suiteVersion)
    && RowsSpec(text, rr) && CaseIdsSpec(text, rr) && GateSpec(text, rr, allowPartial)
  }

  // -------------------------------------------------------------- imperatively

  method CheckRows(text: Text, rr: RunResult) returns (ok: bool)
    ensures ok <==> RowsSpec(text, rr)
  {
    if |rr.reviewers| == 0 {
      return false;
    }
    for i := 0 to |rr.reviewers|
      invariant forall k :: 0 <= k < i ==> PublishableRow(text, rr.reviewers[k].key)
    {
      if !PublishableRow(text, rr.reviewers[i].key) {
        return false;
      }
    }
    return true;
  }

  method CheckIds(text: Text, ids: seq<string>) returns (ok: bool)
    ensures ok <==> AllAsIs(text, ids)
  {
    for i := 0 to |ids|
      invariant forall k :: 0 <= k < i ==> PublishedAsIs(text, ids[k])
    {
      if !PublishedAsIs(text, ids[i]) {
        return false;
      }
    }
    return true;
  }

  method CheckCaseIds(text: Text, rr: RunResult) returns (ok: bool)
    ensures ok <==> CaseIdsSpec(text, rr)
  {
    ok := CheckIds(text, rr.suiteCaseIDs);
    if !ok || rr.suiteCaseIDs == [] {
      return;
    }
    for i := 0 to |rr.coverage|
      invariant forall k :: 0 <= k < i ==> AllAsIs(text, rr.coverage[k].caseIDs)
    {
      ok := CheckIds(text, rr.coverage[i].caseIDs);
      if !ok {
        return;
      }
    }
    return true;
  }

  /** `runBenchmarkExport` up to the submission it builds. */
  method RunExport(text: Text, rr: RunResult, allowPartial: bool) returns (ok: bool)
    requires NulIsUnprintable(text)
    ensures ok <==> ExportSpec(text, rr, allowPartial)
  {
    if !PublishableSuiteName(text, rr.suite) || !PublishableSuiteName(text, rr.suiteVersion) {
      return false;
    }
    ok := CheckRows(text, rr);
    if !ok {
      return;
    }
    ok := CheckCaseIds(text, rr);
    if !ok {
      return;
    }
    ok := Gate(text, rr, allowPartial);
  }

  // --------------------------------------------------- what an emitted file adds

  /** The suite's own names survive publication. */
  ghost predicate PublishableSuite(text: Text, m: Manifest) {
    && PublishableSuiteName(text, m.suite) && PublishableSuiteName(text, m.suiteVersion)
    && AllAsIs(text, CaseIDsOf(m))
  }

  ghost predicate CoversWithinSuite(rr: RunResult) {
    forall i, a :: 0 <= i < |rr.coverage| && 0 <= a < |rr.coverage[i].caseIDs| ==> rr.coverage[i].caseIDs[a] in rr.suiteCaseIDs
  }

  /** The file's rows are those of the identities `keys`, in order. */
  ghost predicate RowsOfKeys(text: Text, rr: RunResult, keys: seq<ReviewerKey>) {
    |rr.reviewers| == |keys| && forall i :: 0 <= i < |keys| ==> rr.reviewers[i].key == text.Publish(keys[i]) && text.PrintableKey(keys[i])
  }

  ghost predicate FileOf(text: Text, rr: RunResult, m: Manifest, keys: seq<ReviewerKey>) {
    && rr.suite == m.suite && rr.suiteVersion == m.suiteVersion && rr.suiteCaseIDs == CaseIDsOf(m)
    && RowsOfKeys(text, rr, keys) && CoversWithinSuite(rr)
  }

  ghost predicate AllNamed(text: Text, keys: seq<ReviewerKey>) { forall i :: 0 <= i < |keys| ==> Named(text, keys[i]) }

  lemma PublicRowIsPublishable(text: Text, k: ReviewerKey)
    requires TextLaws(text) && text.PrintableKey(k)
    ensures PublishableRow(text, text.Publish(k)) <==> Named(text, k)
  {
    assert text.scrub(text.scrub(k.model)) == text.scrub(k.model);
    assert text.scrub(text.scrub(k.persona)) == text.scrub(k.persona);
  }

  lemma RowsOfFile(text: Text, rr: RunResult, keys: seq<ReviewerKey>)
    requires TextLaws(text) && RowsOfKeys(text, rr, keys)
    ensures RowsSpec(text, rr) <==> keys != [] && AllNamed(text, keys)
  {
    forall i | 0 <= i < |keys| ensures PublishableRow(text, rr.reviewers[i].key) <==> Named(text, keys[i]) {
      PublicRowIsPublishable(text, keys[i]);
    }
  }

  lemma CaseIdsOfFile(text: Text, rr: RunResult)
    requires CoversWithinSuite(rr)
    ensures CaseIdsSpec(text, rr) <==> AllAsIs(text, rr.suiteCaseIDs)
  {
    if AllAsIs(text, rr.suiteCaseIDs) {
      forall i | 0 <= i < |rr.coverage| ensures AllAsIs(text, rr.coverage[i].caseIDs) {
        forall a | 0 <= a < |rr.coverage[i].caseIDs| ensures PublishedAsIs(text, rr.coverage[i].caseIDs[a]) {
          assert rr.coverage[i].caseIDs[a] in rr.suiteCaseIDs;
        }
      }
    }
  }

  /** Where the gate asks `gate`, export asks named rows and publishable names besides. */
  lemma ExportOfFile(text: Text, rr: RunResult, m: Manifest, keys: seq<ReviewerKey>, allowPartial: bool, gate: bool)
    requires TextLaws(text) && FileOf(text, rr, m, keys) && (GateSpec(text, rr, allowPartial) <==> gate)
    ensures ExportSpec(text, rr, allowPartial) <==> PublishableSuite(text, m) && keys != [] && AllNamed(text, keys) && gate
  {
    RowsOfFile(text, rr, keys);
    CaseIdsOfFile(text, rr);
  }

  // ------------------------------------------------------------- the repo-state run

  /** Every lane of every reviewed case keeps a name once scrubbed. */
  ghost predicate EveryLaneNamed(text: Text, j: Job) {
    forall i, s :: SlotMet(j, i, s) ==> Named(text, s.key)
  }

  lemma NamedIffLanesNamed(text: Text, j: Job, l: Ledger, out: seq<ReviewerKey>)
    requires LedgerOf(History(j, |j.manifest.cases|), l) && forall k :: k in out <==> k in l.accs
    ensures AllNamed(text, out) <==> EveryLaneNamed(text, j)
  {
    var es := History(j, |j.manifest.cases|);
    if AllNamed(text, out) {
      forall i, s | SlotMet(j, i, s) ensures Named(text, s.key) {
        assert LedgerAt(es, l, s.key);
        SeenIsMet(j, s.key);
        assert s.key in out;
      }
    }
    if EveryLaneNamed(text, j) {
      forall a | 0 <= a < |out| ensures Named(text, out[a]) {
        assert out[a] in out && LedgerAt(es, l, out[a]);
        SeenIsMet(j, out[a]);
      }
    }
  }

  lemma CoveredIsSuite(text: Text, j: Job, l: Ledger, out: seq<ReviewerKey>, rr: RunResult)
    requires EmittedFrom(text, History(j, |j.manifest.cases|), l, out, rr) && rr.suiteCaseIDs == SuiteIds(j.manifest)
    ensures CoversWithinSuite(rr)
  {
    var es := History(j, |j.manifest.cases|);
    forall i, a | 0 <= i < |rr.coverage| && 0 <= a < |rr.coverage[i].caseIDs| ensures rr.coverage[i].caseIDs[a] in rr.suiteCaseIDs {
      assert LedgerAt(es, l, out[i]);
      var e := ScoredOf(es, out[i])[a];
      ScoredMembers(es, out[i], e);
      HistoryMembers(j, |j.manifest.cases|, e);
      var m :| 0 <= m < |j.manifest.cases| && EventOfCase(j, m, e);
      assert SuiteIds(j.manifest)[m] == e.caseID;
    }
  }

  lemma RepoRows(text: Text, es: seq<Event>, l: Ledger, out: seq<ReviewerKey>, rr: RunResult)
    requires EmittedFrom(text, es, l, out, rr) && forall k :: k in out ==> text.PrintableKey(k)
    ensures RowsOfKeys(text, rr, out)
  {
    forall i | 0 <= i < |out| ensures text.PrintableKey(out[i]) { assert out[i] in out; }
  }

  lemma RepoExport(text: Text, j: Job, l: Ledger, out: seq<ReviewerKey>, rr: RunResult, allowPartial: bool, gate: bool)
    requires TextLaws(text) && EmittedFrom(text, History(j, |j.manifest.cases|), l, out, rr)
    requires out != [] && forall k :: k in out ==> text.PrintableKey(k)
    requires rr.suite == j.manifest.suite && rr.suiteVersion == j.manifest.suiteVersion && rr.suiteCaseIDs == SuiteIds(j.manifest)
    requires GateSpec(text, rr, allowPartial) <==> gate
    ensures ExportSpec(text, rr, allowPartial) <==> PublishableSuite(text, j.manifest) && EveryLaneNamed(text, j) && gate
  {
    RepoRows(text, History(j, |j.manifest.cases|), l, out, rr);
    CoveredIsSuite(text, j, l, out, rr);
    NamedIffLanesNamed(text, j, l, out);
    ExportOfFile(text, rr, j.manifest, out, allowPartial, gate);
  }

  /**
   Every file a successful repo-state run emits is exported exactly when the suite's names
   publish as they stand, no reviewed case ran two lanes under one identity and every lane
   keeps a name once scrubbed; without the opt-out, when besides every identity scored
   every case.
   */
  lemma ProducerMeetsExport(text: Text, metrics: Metrics, j: Job)
    requires Succeeds(text, j) && LoadedSuite(text, j.manifest) && TextLaws(text) && HonestPanels(j)
    ensures var rr := EmitRun(text, metrics, j.manifest, At(j, |j.manifest.cases|));
            var fit := PublishableSuite(text, j.manifest) && LanesDistinct(j, |j.manifest.cases|) && EveryLaneNamed(text, j);
            && (ExportSpec(text, rr, true) <==> fit)
            && (ExportSpec(text, rr, false) <==> fit && EveryRowFull(j))
  {
    var n := |j.manifest.cases|;
    var st := At(j, n);
    var rr, out := EmitRun(text, metrics, j.manifest, st), EmitOrder(text, st.ledger.order);
    EmissionFacts(text, metrics, j);
    ProducerMeetsGate(text, metrics, j);
    var lanes := LanesDistinct(j, n) && LostLanesNamed(text, j);
    RepoExport(text, j, st.ledger, out, rr, true, lanes);
    RepoExport(text, j, st.ledger, out, rr, false, lanes && EveryRowFull(j));
    if EveryLaneNamed(text, j) { assert LostLanesNamed(text, j); }
  }

  // --------------------------------------------------------------- the standard run

  /** Every identity that answered keeps a name once scrubbed. */
  ghost predicate EveryAnswerNamed(text: Text, s: Setup, p: Oracle) {
    forall i, k :: StandardGate.Answers(s, p, i, k) ==> Named(text, k)
  }

  lemma StandardCovers(text: Text, metrics: Metrics, m: Manifest, b: Board)
    requires BoardInv(b) && Publishable(text, b.order) && ScrubIdempotent(text) && Sound(b, CaseIDsOf(m)) && Distinct(CaseIDsOf(m))
    ensures forall k :: k in b.order ==> k in b.accs
    ensures CoversWithinSuite(Emit(text, metrics, m, RowsOf(text, b.accs, b.order)))
  {
    EmittedRowsAlign(text, metrics, m, b);
    var rr := Emit(text, metrics, m, RowsOf(text, b.accs, b.order));
    forall i, a | 0 <= i < |rr.coverage| && 0 <= a < |rr.coverage[i].caseIDs| ensures rr.coverage[i].caseIDs[a] in rr.suiteCaseIDs {
      StandardGate.EmittedRowStands(text, metrics, m, b, i);
      SubsetMember(rr.coverage[i].caseIDs, rr.suiteCaseIDs, a);
    }
  }

  lemma SubsetMember(xs: seq<string>, ys: seq<string>, a: nat)
    requires multiset(xs) <= multiset(ys) && a < |xs|
    ensures xs[a] in ys
  {
    assert multiset(xs)[xs[a]] > 0;
    assert xs[a] in multiset(ys);
  }

  ghost predicate HasOrigin(text: Text, order: seq<ReviewerKey>, key: ReviewerKey) {
    exists k :: k in order && text.PrintableKey(k) && key == text.Publish(k)
  }

  lemma RowsHaveOrigins(text: Text, metrics: Metrics, m: Manifest, b: Board, i: nat)
    requires BoardInv(b) && Publishable(text, b.order) && ScrubIdempotent(text) && Sound(b, CaseIDsOf(m)) && Distinct(CaseIDsOf(m))
    requires i < |b.order|
    ensures forall k :: k in b.order ==> k in b.accs
    ensures var rr := Emit(text, metrics, m, RowsOf(text, b.accs, b.order));
            |rr.reviewers| == |b.order| && HasOrigin(text, b.order, rr.reviewers[i].key)
  {
    EmittedRowsAlign(text, metrics, m, b);
    var k := RowOrigin(text, b, i);
  }

  lemma {:induction false} KeysBehind(text: Text, order: seq<ReviewerKey>, rows: seq<PublicRecord>) returns (keys: seq<ReviewerKey>)
    requires forall i :: 0 <= i < |rows| ==> HasOrigin(text, order, rows[i].key)
    ensures |keys| == |rows|
    ensures forall i :: 0 <= i < |keys| ==> keys[i] in order && rows[i].key == text.Publish(keys[i]) && text.PrintableKey(keys[i])
  {
    keys := [];
    if rows != [] {
      var n := |rows| - 1;
      var before := KeysBehind(text, order, rows[..n]);
      assert HasOrigin(text, order, rows[n].key);
      var k :| k in order && text.PrintableKey(k) && rows[n].key == text.Publish(k);
      keys := before + [k];
    }
  }

  /** The identities behind the rows, in row order. */
  lemma StandardKeys(text: Text, metrics: Metrics, m: Manifest, b: Board) returns (keys: seq<ReviewerKey>)
    requires BoardInv(b) && Publishable(text, b.order) && ScrubIdempotent(text) && Sound(b, CaseIDsOf(m)) && Distinct(CaseIDsOf(m))
    ensures forall k :: k in b.order ==> k in b.accs
    ensures RowsOfKeys(text, Emit(text, metrics, m, RowsOf(text, b.accs, b.order)), keys)
    ensures |keys| == |b.order| && forall i :: 0 <= i < |keys| ==> keys[i] in b.order
  {
    EmittedRowsAlign(text, metrics, m, b);
    var rows := Emit(text, metrics, m, RowsOf(text, b.accs, b.order)).reviewers;
    forall i | 0 <= i < |rows| ensures HasOrigin(text, b.order, rows[i].key) { RowsHaveOrigins(text, metrics, m, b, i); }
    keys := KeysBehind(text, b.order, rows);
  }

  /** Names survive or not with the published identity, and the rows publish every identity of the board. */
  lemma NamedIffAnswersNamed(text: Text, metrics: Metrics, s: Setup, p: Oracle, b: Board, keys: seq<ReviewerKey>)
    requires ApplyAll(s.add, EMPTY_BOARD, AllOutcomes(s, p)) == Ok(b) && Publishable(text, b.order)
    requires |keys| == |b.order| && (forall i :: 0 <= i < |keys| ==> keys[i] in b.order) && Distinct(keys)
    ensures AllNamed(text, keys) <==> EveryAnswerNamed(text, s, p)
  {
    if AllNamed(text, keys) {
      forall i, k | StandardGate.Answers(s, p, i, k) ensures Named(text, k) {
        RegisteredIffAnswers(s, p, b, k);
        OrderIsListed(b.order, keys, k);
        var a :| 0 <= a < |keys| && keys[a] == k;
      }
    }
    if EveryAnswerNamed(text, s, p) {
      forall a | 0 <= a < |keys| ensures Named(text, keys[a]) {
        RegisteredIffAnswers(s, p, b, keys[a]);
      }
    }
  }

  /** As many distinct members as there are: nothing is missing. */
  lemma OrderIsListed(order: seq<ReviewerKey>, keys: seq<ReviewerKey>, k: ReviewerKey)
    requires |keys| == |order| && (forall i :: 0 <= i < |keys| ==> keys[i] in order) && Distinct(keys) && k in order
    ensures k in keys
  {
    if k !in keys {
      DistinctSnoc(keys, k);
      DistinctSize(keys + [k]);
      assert ToSet(keys + [k]) <= ToSet(order);
      SetSizes(ToSet(keys + [k]), ToSet(order));
      ListSize(order);
    }
  }

  lemma SetSizes(a: set<ReviewerKey>, b: set<ReviewerKey>)
    requires a <= b
    ensures |a| <= |b|
  {
    assert b == a + (b - a);
  }

  lemma {:induction false} ListSize(s: seq<ReviewerKey>)
    ensures |ToSet(s)| <= |s|
  {
    if s != [] {
      var n := |s| - 1;
      ListSize(s[..n]);
      assert s == s[..n] + [s[n]];
      DistinctSnoc(s[..n], s[n]);
    }
  }

  lemma KeysAreDistinct(text: Text, rr: RunResult, keys: seq<ReviewerKey>)
    requires RowsOfKeys(text, rr, keys) && forall i, j :: 0 <= i < j < |rr.reviewers| ==> rr.reviewers[i].key != rr.reviewers[j].key
    ensures Distinct(keys)
  {
    forall i, j | 0 <= i < j < |keys| ensures keys[i] != keys[j] { assert rr.reviewers[i].key != rr.reviewers[j].key; }
  }

  lemma FinishedFileMeetsExport(text: Text, metrics: Metrics, s: Setup, p: Oracle, b: Board)
    requires ApplyAll(s.add, EMPTY_BOARD, AllOutcomes(s, p)) == Ok(b) && Publishable(text, b.order)
    requires TextLaws(text) && Distinct(CaseIDsOf(s.manifest)) && HonestAgents(s, p)
    ensures forall k :: k in b.order ==> k in b.accs
    ensures var rr := Emit(text, metrics, s.manifest, RowsOf(text, b.accs, b.order));
            var fit := PublishableSuite(text, s.manifest) && AnyAnswer(s, p) && EveryAnswerNamed(text, s, p);
            && (ExportSpec(text, rr, true) <==> fit)
            && (ExportSpec(text, rr, false) <==> fit && EveryoneAnswersAll(s, p))
  {
    BoardIsSound(s, p, b);
    EmittedRowsAlign(text, metrics, s.manifest, b);
    StandardCovers(text, metrics, s.manifest, b);
    var rr := Emit(text, metrics, s.manifest, RowsOf(text, b.accs, b.order));
    var keys := StandardKeys(text, metrics, s.manifest, b);
    RowIdsDistinct(text, metrics, s.manifest, b);
    KeysAreDistinct(text, rr, keys);
    NamedIffAnswersNamed(text, metrics, s, p, b, keys);
    FinishedFileMeetsGate(text, metrics, s, p, b);
    RegisteredIffAnyAnswer(s, p, b);
    ExportOfFile(text, rr, s.manifest, keys, true, s.manifest.cases == [] || AnyAnswer(s, p));
    ExportOfFile(text, rr, s.manifest, keys, false, s.manifest.cases == [] || (AnyAnswer(s, p) && EveryoneAnswersAll(s, p)));
  }

  lemma RowIdsDistinct(text: Text, metrics: Metrics, m: Manifest, b: Board)
    requires BoardInv(b) && Publishable(text, b.order) && ScrubIdempotent(text) && Sound(b, CaseIDsOf(m)) && Distinct(CaseIDsOf(m))
    ensures forall k :: k in b.order ==> k in b.accs
    ensures var rr := Emit(text, metrics, m, RowsOf(text, b.accs, b.order));
            forall i, j :: 0 <= i < j < |rr.reviewers| ==> rr.reviewers[i].key != rr.reviewers[j].key
  {
    EmittedRowsAlign(text, metrics, m, b);
    var rr, ids := Emit(text, metrics, m, RowsOf(text, b.accs, b.order)), SortedIds(text, b);
    EmittedIdsDistinct(text, b);
    forall i, j | 0 <= i < j < |rr.reviewers| ensures rr.reviewers[i].key != rr.reviewers[j].key {
      StandardGate.EmittedRowStands(text, metrics, m, b, i);
      StandardGate.EmittedRowStands(text, metrics, m, b, j);
      assert ids[i] != ids[j];
    }
  }

  /**
   After any crashes, a checkpointed invocation that finishes and may publish emits a file
   that is exported exactly when the suite's names publish as they stand, some agent
   answered and every identity that answered keeps a name once scrubbed.
   */
  lemma ResumedRunMeetsExport(text: Text, metrics: Metrics, s: Setup, history: seq<Attempt>, last: Attempt, p: Oracle)
    requires forall a :: a in history ==> a.checkpointed
    requires last.checkpointed && Agrees(p, Answered(s, history), last)
    requires Invoke(s, last, After(s, history)).1.Finished?
    requires Publishable(text, Invoke(s, last, After(s, history)).1.board.order)
    requires TextLaws(text) && Distinct(CaseIDsOf(s.manifest)) && HonestAgents(s, p)
    ensures var b := Invoke(s, last, After(s, history)).1.board;
            && (forall k :: k in b.order ==> k in b.accs)
            && var rr := Emit(text, metrics, s.manifest, RowsOf(text, b.accs, b.order));
               var fit := PublishableSuite(text, s.manifest) && AnyAnswer(s, p) && EveryAnswerNamed(text, s, p);
               && (ExportSpec(text, rr, true) <==> fit)
               && (ExportSpec(text, rr, false) <==> fit && EveryoneAnswersAll(s, p))
  {
    CrashResumeEquivalence(s, history, last, p);
    HistoryIsFaithful(s, history);
    var cp, st := InvokeShape(s, last, After(s, history), Answered(s, history));
    FinishedBoardIsFold(s, last.replicates, p);
    FinishedFileMeetsExport(text, metrics, s, p, Invoke(s, last, After(s, history)).1.board);
  }

  // ------------------------------------------------ past the gate, stopped at export

  /**
   A lane that scored under an identity that scrubs to blank text, beside a lane of another
   name that was lost: the file passes the gate and export refuses it.
   */
  lemma ScoredNamelessLaneStopsAtExport(text: Text, metrics: Metrics, add: AddCost, id: string, k: ReviewerKey, named: ReviewerKey)
    requires TextLaws(text) && text.PrintableKey(named) && Named(text, named) && text.printable(id) && !Blank(id)
    requires text.PrintableKey(k) && !Named(text, k)
    ensures var j := TwoLaneJob(add, id, Lane("a", k, CallOk, false), Lane("b", named, CallFailed, false));
            && Succeeds(text, j)
            && GateSpec(text, EmitRun(text, metrics, j.manifest, At(j, 1)), true)
            && !ExportSpec(text, EmitRun(text, metrics, j.manifest, At(j, 1)), true)
  {
    var a, b := Lane("a", k, CallOk, false), Lane("b", named, CallFailed, false);
    var j := TwoLaneJob(add, id, a, b);
    assert text.Publish(named) != text.Publish(k);
    TwoLanesSucceed(text, add, id, a, b);
    TwoLanesAreSound(text, add, id, a, b);
    NamelessButScored(text, add, id, a, b);
    ProducerMeetsGate(text, metrics, j);
    ProducerMeetsExport(text, metrics, j);
  }

  lemma NamelessButScored(text: Text, add: AddCost, id: string, a: Slot, b: Slot)
    requires a.status.CallOk? && a.agent != VISUAL_PERSONA && a.key != b.key && SlotLoss(a).None?
    requires !Named(text, a.key) && Named(text, b.key)
    ensures var j := TwoLaneJob(add, id, a, b); LanesDistinct(j, 1) && LostLanesNamed(text, j) && !EveryLaneNamed(text, j)
  {
    var j := TwoLaneJob(add, id, a, b);
    TwoLanesAreReviewed(add, id, a, b);
    forall i, s | SlotMet(j, i, s) ensures s == a || s == b { }
    assert PanelOf(j, 0).slots[0] == a && SlotMet(j, 0, a);
  }
}
