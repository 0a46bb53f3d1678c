/**
 What the rows of a standard-tier run say about the answers of its panels: every scored
 category, cost, latency, count and identity of a finished and of a published run.
 */
module ScoreRows {
  import opened Basics
  import opened Orders
  import opened Benchmark
  import opened DebtFold
  import opened ReviewerFold
  import opened Checkpoint
  import opened BenchmarkRun
  import opened CrashResume
  import opened RunReport
  import opened StandardGate
  import opened RowSums

  // ------------------------------------------------------------ outcomes and rows

  function Metered(): CaseOutcome -> bool { (o: CaseOutcome) => o.usageReported }

  function Prices(): CaseOutcome -> real { (o: CaseOutcome) => o.cost }

  function Times(): CaseOutcome -> int { (o: CaseOutcome) => o.latency }

  function ByFallback(): CaseOutcome -> bool { (o: CaseOutcome) => o.fallbackUsed }

  function CountedAs(word: string): CaseOutcome -> bool { (o: CaseOutcome) => CountsAs(o.outcome, word) }

  function Gates(): CaseOutcome -> Option<bool> { (o: CaseOutcome) => o.grounding }

  /** The tag claims what every case that observed the gate saw, and nothing if none did or they disagree. */
  ghost predicate Unanimous(seen: seq<Option<bool>>, tag: Option<bool>) {
    forall b :: tag == Some(b) <==> (exists i :: 0 <= i < |seen| && seen[i].Some?) && AllObserved(seen, b)
  }

  ghost predicate AllObserved(seen: seq<Option<bool>>, b: bool) {
    forall i :: 0 <= i < |seen| && seen[i].Some? ==> seen[i] == Some(b)
  }

  /** The row an identity is owed for its own outcomes, in order. */
  ghost predicate Owed(add: AddCost, own: seq<CaseOutcome>, acc: Acc) {
    && |acc.cases| == |acc.caseIDs| == |own|
    && (forall i :: 0 <= i < |own| ==>
          acc.cases[i].expected == own[i].expected && acc.cases[i].raised == own[i].raised && acc.caseIDs[i] == own[i].caseID)
    && acc.cost == Spent(add, Map(Prices(), Filter(Metered(), own)))
    && acc.latencies == Map(Times(), Filter(Metered(), own))
    && acc.fallbackCases == |Filter(ByFallback(), own)|
    && (forall word :: word != "" ==> CountAt(acc.outcomes, word) == |Filter(CountedAs(word), own)|)
    && (forall a :: a in acc.agents <==> exists i :: 0 <= i < |own| && own[i].agent == a)
    && Unanimous(Map(Gates(), own), acc.grounding)
  }

  lemma {:induction false} RowCases(add: AddCost, own: seq<CaseOutcome>)
    ensures var acc := Row(add, own);
            && |acc.cases| == |acc.caseIDs| == |own|
            && forall i :: 0 <= i < |own| ==>
                 acc.cases[i].expected == own[i].expected && acc.cases[i].raised == own[i].raised && acc.caseIDs[i] == own[i].caseID
  {
    if own != [] {
      var n := |own| - 1;
      RowCases(add, own[..n]);
      assert forall i :: 0 <= i < n ==> own[..n][i] == own[i];
    }
  }

  ghost predicate HoldsCosts(add: AddCost, own: seq<CaseOutcome>, acc: Acc) {
    acc.cost == Spent(add, Map(Prices(), Filter(Metered(), own))) && acc.latencies == Map(Times(), Filter(Metered(), own))
  }

  lemma CostsSnoc(own: seq<CaseOutcome>, o: CaseOutcome)
    ensures var before, after := Filter(Metered(), own), Filter(Metered(), own + [o]);
            if o.usageReported then
              Map(Prices(), after) == Map(Prices(), before) + [o.cost] && Map(Times(), after) == Map(Times(), before) + [o.latency]
            else after == before
  {
    FilterSnoc(Metered(), own, o);
    MapConcat(Prices(), Filter(Metered(), own), [o]);
    MapConcat(Times(), Filter(Metered(), own), [o]);
    assert Map(Prices(), [o]) == [o.cost] && Map(Times(), [o]) == [o.latency];
  }

  lemma CostsNext(add: AddCost, own: seq<CaseOutcome>, o: CaseOutcome, acc: Acc)
    requires HoldsCosts(add, own, acc)
    ensures HoldsCosts(add, own + [o], ApplyTo(add, acc, o))
  {
    CostsSnoc(own, o);
    SpentSnoc(add, Map(Prices(), Filter(Metered(), own)), o.cost);
  }

  lemma RowSnoc(add: AddCost, own: seq<CaseOutcome>, o: CaseOutcome)
    ensures Row(add, own + [o]) == ApplyTo(add, Row(add, own), o)
  {
    assert (own + [o])[..|own|] == own;
  }

  lemma RowCostsNext(add: AddCost, own: seq<CaseOutcome>, o: CaseOutcome)
    requires HoldsCosts(add, own, Row(add, own))
    ensures HoldsCosts(add, own + [o], Row(add, own + [o]))
  {
    CostsNext(add, own, o, Row(add, own));
    RowSnoc(add, own, o);
  }

  lemma {:induction false} RowCosts(add: AddCost, own: seq<CaseOutcome>)
    ensures HoldsCosts(add, own, Row(add, own))
  {
    if own != [] {
      var pre, o := own[..|own| - 1], own[|own| - 1];
      RowCosts(add, pre);
      RowCostsNext(add, pre, o);
      assert pre + [o] == own;
    }
  }

  lemma {:induction false} RowFallbacks(add: AddCost, own: seq<CaseOutcome>)
    ensures Row(add, own).fallbackCases == |Filter(ByFallback(), own)|
  {
    if own != [] {
      var n := |own| - 1;
      RowFallbacks(add, own[..n]);
      assert own == own[..n] + [own[n]];
      FilterSnoc(ByFallback(), own[..n], own[n]);
    }
  }

  lemma {:induction false} RowCountsOutcomes(add: AddCost, own: seq<CaseOutcome>, word: string)
    requires word != ""
    ensures CountAt(Row(add, own).outcomes, word) == |Filter(CountedAs(word), own)|
  {
    if own != [] {
      var n := |own| - 1;
      RowCountsOutcomes(add, own[..n], word);
      assert own == own[..n] + [own[n]];
      FilterSnoc(CountedAs(word), own[..n], own[n]);
      BumpCounts(Row(add, own[..n]).outcomes, own[n].outcome, word);
    }
  }

  lemma {:induction false} RowAgents(add: AddCost, own: seq<CaseOutcome>, a: string)
    ensures a in Row(add, own).agents <==> exists i :: 0 <= i < |own| && own[i].agent == a
  {
    if own != [] {
      var n := |own| - 1;
      RowAgents(add, own[..n], a);
      assert forall i :: 0 <= i < n ==> own[..n][i] == own[i];
    }
  }

  lemma ObservedOnly(all: seq<Option<bool>>, b: bool)
    ensures var seen := Filter((g: Option<bool>) => g.Some?, all);
            && (seen != [] <==> exists i :: 0 <= i < |all| && all[i].Some?)
            && ((forall i :: 0 <= i < |seen| ==> seen[i] == Some(b)) <==> AllObserved(all, b))
  {
    var seen := Filter((g: Option<bool>) => g.Some?, all);
    FilterMembers((g: Option<bool>) => g.Some?, all);
    if seen != [] { assert seen[0] in seen; }
    if i :| 0 <= i < |all| && all[i].Some? { assert all[i] in seen; }
    if AllObserved(all, b) {
      forall i | 0 <= i < |seen| ensures seen[i] == Some(b) { assert seen[i] in seen; }
    }
    if forall i :: 0 <= i < |seen| ==> seen[i] == Some(b) {
      forall i | 0 <= i < |all| && all[i].Some? ensures all[i] == Some(b) { assert all[i] in seen; }
    }
  }

  lemma RowTag(add: AddCost, own: seq<CaseOutcome>)
    ensures Unanimous(Map(Gates(), own), Row(add, own).grounding)
  {
    assert Map(Gates(), own) == Map((o: CaseOutcome) => o.grounding, own);
    forall b ensures Row(add, own).grounding == Some(b) <==>
                     (exists i :: 0 <= i < |own| && Map(Gates(), own)[i].Some?) && AllObserved(Map(Gates(), own), b) {
      RowGroundingIsObservedUnanimity(add, own, b);
      ObservedOnly(Map(Gates(), own), b);
    }
  }

  lemma RowIsOwed(add: AddCost, own: seq<CaseOutcome>)
    ensures Owed(add, own, Row(add, own))
  {
    RowCases(add, own);
    RowCosts(add, own);
    RowFallbacks(add, own);
    forall word | word != "" ensures CountAt(Row(add, own).outcomes, word) == |Filter(CountedAs(word), own)| {
      RowCountsOutcomes(add, own, word);
    }
    RowTag(add, own);
    forall a ensures a in Row(add, own).agents <==> exists i :: 0 <= i < |own| && own[i].agent == a { RowAgents(add, own, a); }
  }

  /** Every accumulator holds what its identity's outcomes owe it. */
  lemma BoardRowIsOwed(add: AddCost, os: seq<CaseOutcome>, k: ReviewerKey)
    requires ApplyAll(add, EMPTY_BOARD, os).Ok?
    ensures var b, own := ApplyAll(add, EMPTY_BOARD, os).value, Filter((o: CaseOutcome) => o.key == k, os);
            (k in b.accs <==> own != []) && (k in b.accs ==> Owed(add, own, b.accs[k]))
  {
    RowIsOwnHistory(add, os, k);
    RowIsOwed(add, OfKey(os, k));
    assert OfKey(os, k) == Filter((o: CaseOutcome) => o.key == k, os);
  }

  // --------------------------------------------------------- what the panels answered

  /** One slot of a panel's replicate-1 answer to a case. */
  datatype Answer = Answer(c: SuiteCase, agent: AgentStatus, grounding: Option<bool>)

  /**
   The identity an answer is credited to. The model is the one usage reported; failing that
   the fallback that served it; failing that the registry's, if the agent is known. The
   persona is the registry's, or the agent's own name where the registry has none.
   */
  predicate CreditedTo(s: Setup, a: AgentStatus, k: ReviewerKey) {
    && (a.model != "" ==> k.model == a.model)
    && (a.model == "" && a.fallbackUsed && a.fallbackModel != "" ==> k.model == a.fallbackModel)
    && (a.model == "" && !(a.fallbackUsed && a.fallbackModel != "") && a.agent in s.registry ==> k.model == s.registry[a.agent].model)
    && (a.model == "" && !(a.fallbackUsed && a.fallbackModel != "") && a.agent !in s.registry ==> k.model == "")
    && (a.agent in s.registry && s.registry[a.agent].persona != "" ==> k.persona == s.registry[a.agent].persona)
    && (a.agent !in s.registry || s.registry[a.agent].persona == "" ==> k.persona == a.agent)
  }

  function Credited(s: Setup, k: ReviewerKey): AgentStatus -> bool { (a: AgentStatus) => CreditedTo(s, a, k) }

  function AnswersTo(c: SuiteCase, q: PoolSummary, agents: seq<AgentStatus>): seq<Answer> {
    Map((a: AgentStatus) => Answer(c, a, q.grounding), agents)
  }

  /** Everything identity `k` answered in replicate 1 of the first `i` cases, in order. */
  function AnswersOf(s: Setup, p: Oracle, k: ReviewerKey, i: nat): seq<Answer>
    requires i <= |s.manifest.cases|
  {
    if i == 0 then []
    else
      var c, q := s.manifest.cases[i - 1], p(CaseRun(i - 1, 1));
      AnswersOf(s, p, k, i - 1) + AnswersTo(c, q, Filter(Credited(s, k), q.agents))
  }

  function ReportsUsage(): Answer -> bool { (x: Answer) => x.agent.tokensIn > 0 || x.agent.tokensOut > 0 }

  function PriceBy(s: Setup): Answer -> real { (x: Answer) => s.costOf(x.agent.model, x.agent.tokensIn, x.agent.tokensOut) }

  function WallClock(): Answer -> int { (x: Answer) => x.agent.durationMS }

  function ServedByFallback(): Answer -> bool { (x: Answer) => x.agent.fallbackUsed }

  function SawGate(): Answer -> Option<bool> { (x: Answer) => x.grounding }

  function EndedAs(word: string): Answer -> bool { (x: Answer) => CountsAs(x.agent.outcome, word) }

  /** What the answers of one identity owe its row. */
  ghost predicate OwedTo(s: Setup, own: seq<Answer>, acc: Acc) {
    && |acc.cases| == |acc.caseIDs| == |own|
    && (forall i :: 0 <= i < |own| ==>
          acc.cases[i].expected == own[i].c.expected && acc.cases[i].raised == own[i].agent.raised && acc.caseIDs[i] == own[i].c.id)
    && acc.cost == Spent(s.add, Map(PriceBy(s), Filter(ReportsUsage(), own)))
    && acc.latencies == Map(WallClock(), Filter(ReportsUsage(), own))
    && acc.fallbackCases == |Filter(ServedByFallback(), own)|
    && (forall word :: word != "" ==> CountAt(acc.outcomes, word) == |Filter(EndedAs(word), own)|)
    && Unanimous(Map(SawGate(), own), acc.grounding)
  }

  function AsOutcome(s: Setup): Answer -> CaseOutcome {
    (x: Answer) => FreshOutcome(s, x.c, PoolSummary(x.grounding, []), x.agent)
  }

  lemma CreditIsKey(s: Setup, a: AgentStatus, k: ReviewerKey)
    ensures CreditedTo(s, a, k) <==> KeyOf(s, a) == k
  {
  }

  lemma OwnOfPanel(s: Setup, c: SuiteCase, q: PoolSummary, k: ReviewerKey)
    ensures Filter((o: CaseOutcome) => o.key == k, FreshOutcomes(s, c, q)) == Map(AsOutcome(s), AnswersTo(c, q, Filter(Credited(s, k), q.agents)))
  {
    var toOutcome := (a: AgentStatus) => FreshOutcome(s, c, q, a);
    forall a ensures Credited(s, k)(a) == (toOutcome(a).key == k) { CreditIsKey(s, a, k); }
    FilterMap(toOutcome, (o: CaseOutcome) => o.key == k, Credited(s, k), q.agents);
    var mine := Filter(Credited(s, k), q.agents);
    assert Map(toOutcome, mine) == Map(AsOutcome(s), AnswersTo(c, q, mine));
  }

  lemma OwnStep(k: ReviewerKey, f: Answer -> CaseOutcome, before: seq<CaseOutcome>, more: seq<CaseOutcome>, xs: seq<Answer>, ys: seq<Answer>)
    requires Filter((o: CaseOutcome) => o.key == k, before) == Map(f, xs) && Filter((o: CaseOutcome) => o.key == k, more) == Map(f, ys)
    ensures Filter((o: CaseOutcome) => o.key == k, before + more) == Map(f, xs + ys)
  {
    FilterConcat((o: CaseOutcome) => o.key == k, before, more);
    MapConcat(f, xs, ys);
  }

  /** An identity's outcomes are its answers, one for one. */
  lemma {:induction false} OwnAreAnswers(s: Setup, p: Oracle, k: ReviewerKey, i: nat)
    requires i <= |s.manifest.cases|
    ensures Filter((o: CaseOutcome) => o.key == k, Outcomes(s, p, i)) == Map(AsOutcome(s), AnswersOf(s, p, k, i))
  {
    if i > 0 {
      var c, q := s.manifest.cases[i - 1], p(CaseRun(i - 1, 1));
      OwnAreAnswers(s, p, k, i - 1);
      OwnOfPanel(s, c, q, k);
      var mine := AnswersTo(c, q, Filter(Credited(s, k), q.agents));
      OwnStep(k, AsOutcome(s), Outcomes(s, p, i - 1), FreshOutcomes(s, c, q), AnswersOf(s, p, k, i - 1), mine);
      assert Outcomes(s, p, i) == Outcomes(s, p, i - 1) + FreshOutcomes(s, c, q);
      assert AnswersOf(s, p, k, i) == AnswersOf(s, p, k, i - 1) + mine;
    }
  }

  lemma OwedCosts(s: Setup, own: seq<Answer>)
    ensures var os := Map(AsOutcome(s), own);
            && Map(Prices(), Filter(Metered(), os)) == Map(PriceBy(s), Filter(ReportsUsage(), own))
            && Map(Times(), Filter(Metered(), os)) == Map(WallClock(), Filter(ReportsUsage(), own))
  {
    FilterMap(AsOutcome(s), Metered(), ReportsUsage(), own);
    var used := Filter(ReportsUsage(), own);
    FilterMembers(ReportsUsage(), own);
    forall i | 0 <= i < |used| ensures AsOutcome(s)(used[i]).cost == PriceBy(s)(used[i]) && AsOutcome(s)(used[i]).latency == WallClock()(used[i]) {
      assert used[i] in used;
    }
  }

  lemma OwedTransfers(s: Setup, own: seq<Answer>, acc: Acc)
    requires Owed(s.add, Map(AsOutcome(s), own), acc)
    ensures OwedTo(s, own, acc)
  {
    var os := Map(AsOutcome(s), own);
    OwedCosts(s, own);
    FilterMap(AsOutcome(s), ByFallback(), ServedByFallback(), own);
    forall word | word != "" ensures CountAt(acc.outcomes, word) == |Filter(EndedAs(word), own)| {
      FilterMap(AsOutcome(s), CountedAs(word), EndedAs(word), own);
    }
    forall i | 0 <= i < |own|
      ensures acc.cases[i].expected == own[i].c.expected && acc.cases[i].raised == own[i].agent.raised && acc.caseIDs[i] == own[i].c.id
    {
      assert os[i] == AsOutcome(s)(own[i]);
    }
    assert Map(Gates(), os) == Map(SawGate(), own);
  }

  /**
   A finished run scores each identity exactly for what it answered in replicate 1: its
   case ids, expected and raised categories, costs, latencies, fallbacks and outcomes.
   */
  lemma FinishedRowIsOwed(s: Setup, n: int, p: Oracle, k: ReviewerKey)
    requires n >= 1 && Uninterrupted(s, n, p).Finished?
    ensures var b, own := Uninterrupted(s, n, p).board, AnswersOf(s, p, k, |s.manifest.cases|);
            (k in b.accs <==> own != []) && (k in b.accs ==> OwedTo(s, own, b.accs[k]))
  {
    var own := AnswersOf(s, p, k, |s.manifest.cases|);
    FinishedBoardIsFold(s, n, p);
    BoardRowIsOwed(s.add, AllOutcomes(s, p), k);
    OwnAreAnswers(s, p, k, |s.manifest.cases|);
    if k in Uninterrupted(s, n, p).board.accs { OwedTransfers(s, own, Uninterrupted(s, n, p).board.accs[k]); }
  }

  /** The same of a run resumed after any crashes, on the answers that were kept. */
  lemma ResumedRowIsOwed(s: Setup, history: seq<Attempt>, last: Attempt, p: Oracle, k: ReviewerKey)
    requires forall a :: a in history ==> a.checkpointed
    requires last.checkpointed && Agrees(p, Answered(s, history), last)
    requires Invoke(s, last, After(s, history)).1.Finished?
    ensures var b, own := Invoke(s, last, After(s, history)).1.board, AnswersOf(s, p, k, |s.manifest.cases|);
            (k in b.accs <==> own != []) && (k in b.accs ==> OwedTo(s, own, b.accs[k]))
  {
    CrashResumeEquivalence(s, history, last, p);
    HistoryIsFaithful(s, history);
    var cp, st := InvokeShape(s, last, After(s, history), Answered(s, history));
    FinishedRowIsOwed(s, last.replicates, p, k);
  }

  // -------------------------------------------------------------- the published rows

  /**
   The two rows published for identity `k` hold its accumulator: the coverage row its case
   ids, counts and tag, the public row the score of its cases, cost and middle latency.
   */
  ghost predicate PublishedFor(text: Text, metrics: Metrics, k: ReviewerKey, acc: Acc, rev: PublicRecord, cov: Coverage) {
    && cov.key == rev.key == text.Publish(k)
    && cov.caseIDs == acc.caseIDs && cov.outcomes == Some(acc.outcomes)
    && cov.fallbackCases == acc.fallbackCases && cov.grounding == acc.grounding
    && rev.runs == |acc.cases|
    && exists mid :: IsMiddle(acc.latencies, mid) && rev.metrics == metrics(ReviewerScore(text.Publish(k), acc.cases, acc.cost, mid))
  }

  lemma {:induction false} RowIsPublished(text: Text, metrics: Metrics, m: Manifest, b: Board, k: ReviewerKey)
    requires BoardInv(b) && Publishable(text, b.order) && ScrubIdempotent(text) && k in b.order
    ensures forall x :: x in b.order ==> x in b.accs
    ensures var rr := Emit(text, metrics, m, RowsOf(text, b.accs, b.order));
            exists i :: 0 <= i < |rr.reviewers| == |rr.coverage| && PublishedFor(text, metrics, k, b.accs[k], rr.reviewers[i], rr.coverage[i])
  {
    assert forall x :: x in b.order ==> x in ToSet(b.order);
    SortedRows(text, b.accs, b.order);
    var raw := RowsOf(text, b.accs, b.order);
    var rows := StableSort(RowLess, raw);
    forall i | 0 <= i < |rows| ensures text.Publish(rows[i].id) == rows[i].id { ScoredRowsAlign(text, metrics, b, i); }
    ScoreKeepsOrder(text, metrics, rows);
    var j :| 0 <= j < |b.order| && b.order[j] == k;
    assert raw[j] in rows;
    var i :| 0 <= i < |rows| && rows[i] == raw[j];
    MedianIsMiddle(b.accs[k].latencies);
    var rr := Emit(text, metrics, m, raw);
    assert rr.coverage[i].key == text.Publish(k);
    assert PublishedFor(text, metrics, k, b.accs[k], rr.reviewers[i], rr.coverage[i]);
  }

  /** The file of a standard-tier run: the suite as loaded, no failure lists, both arrays by public model, then persona, one row per identity. */
  lemma FileIsOrdered(text: Text, metrics: Metrics, m: Manifest, b: Board)
    requires BoardInv(b) && Publishable(text, b.order) && ScrubIdempotent(text)
    ensures forall x :: x in b.order ==> x in b.accs
    ensures var rr := Emit(text, metrics, m, RowsOf(text, b.accs, b.order));
            && rr.suite == m.suite && rr.suiteVersion == m.suiteVersion
            && |rr.suiteCaseIDs| == |m.cases| && (forall i :: 0 <= i < |m.cases| ==> rr.suiteCaseIDs[i] == m.cases[i].id)
            && rr.caseFailures == [] && rr.slotFailures == []
            && |rr.reviewers| == |rr.coverage| == |b.order|
            && (forall i, j :: 0 <= i < j < |rr.coverage| ==> PublicLess(rr.coverage[i].key, rr.coverage[j].key))
            && (forall i :: 0 <= i < |rr.coverage| ==> rr.reviewers[i].key == rr.coverage[i].key)
  {
    EmittedRowsAlign(text, metrics, m, b);
  }

  function KeysOf(os: seq<CaseOutcome>): seq<ReviewerKey> { Map((o: CaseOutcome) => o.key, os) }

  lemma SightingsSnoc(os: seq<CaseOutcome>, o: CaseOutcome)
    ensures KeysOf(os + [o]) == KeysOf(os) + [o.key]
    ensures FirstSightings(os + [o]) == if o.key in FirstSightings(os) then FirstSightings(os) else FirstSightings(os) + [o.key]
  {
    assert (os + [o])[..|os|] == os;
  }

  lemma SightingsStayInOrder(os: seq<CaseOutcome>, o: CaseOutcome)
    requires InFirstOrder(FirstSightings(os), KeysOf(os))
    ensures InFirstOrder(FirstSightings(os + [o]), KeysOf(os + [o]))
  {
    SightingsSnoc(os, o);
    FirstOrderSnoc(FirstSightings(os), KeysOf(os), o.key);
  }

  lemma {:induction false} SightingsInOrder(os: seq<CaseOutcome>)
    ensures InFirstOrder(FirstSightings(os), KeysOf(os))
  {
    if os != [] {
      var n := |os| - 1;
      SightingsInOrder(os[..n]);
      SightingsStayInOrder(os[..n], os[n]);
      assert os[..n] + [os[n]] == os;
    }
  }

  /** A board lists its identities once each, in the order in which the outcomes first name them. */
  lemma BoardOrder(add: AddCost, os: seq<CaseOutcome>)
    requires ApplyAll(add, EMPTY_BOARD, os).Ok?
    ensures InFirstOrder(ApplyAll(add, EMPTY_BOARD, os).value.order, KeysOf(os))
  {
    OrderIsFirstSighting(add, os);
    SightingsInOrder(os);
  }

  // ------------------------------------------------------------------- fit rows

  /** A fit row as published: its two names scrubbed, the rest as it is. */
  function Scrubbed(text: Text): Fit -> Fit {
    (f: Fit) => Fit(ReviewerKey(text.scrub(f.key.model), text.scrub(f.key.persona)), f.caseID, f.replicate, f.outcome, f.findings,
                    f.tokensOut, f.chunkCount, f.silentChunks, f.timedOut)
  }

  function NamedAs(k: ReviewerKey): Fit -> bool { (f: Fit) => f.key == k }

  function ScrubsTo(text: Text, k: ReviewerKey): Fit -> bool {
    (f: Fit) => text.scrub(f.key.model) == k.model && text.scrub(f.key.persona) == k.persona
  }

  lemma NotAfter(a: ReviewerKey, b: ReviewerKey)
    requires !KeyLess(b, a)
    ensures a == b || PublicLess(a, b)
  {
    StringLessTotal(a.model, b.model);
    StringLessTotal(a.persona, b.persona);
  }

  lemma TieIsName(a: Fit, b: Fit)
    ensures !FitLess(a, b) && !FitLess(b, a) <==> a.key == b.key
  {
    KeyLessIsTotal();
    assert WeakAt(KeyLess, a.key, a.key, a.key);
    assert a.key == b.key || KeyLess(a.key, b.key) || KeyLess(b.key, a.key);
  }

  lemma TiesAreNames(text: Text, v: Fit, fits: seq<Fit>)
    ensures Filter(TiedWith(FitLess, v), fits) == Filter(NamedAs(v.key), fits)
  {
    forall f | f in fits ensures TiedWith(FitLess, v)(f) == NamedAs(v.key)(f) {
      TieIsName(f, v);
      assert TiedWith(FitLess, v)(f) == (!FitLess(f, v) && !FitLess(v, f));
    }
    FilterSame(TiedWith(FitLess, v), NamedAs(v.key), fits);
  }

  /** The published fit rows: by public model, then persona; each name's rows are its scrubbed rows, in the order of the run. */
  lemma PublicFitIs(text: Text, fits: seq<Fit>, k: ReviewerKey)
    ensures var pub := PublicFit(text, fits);
            && |pub| == |fits|
            && (forall i, j :: 0 <= i < j < |pub| ==> pub[i].key == pub[j].key || PublicLess(pub[i].key, pub[j].key))
            && Filter(NamedAs(k), pub) == Map(Scrubbed(text), Filter(ScrubsTo(text, k), fits))
  {
    var pub, raw := PublicFit(text, fits), Map((f: Fit) => PublishFit(text, f), fits);
    assert raw == Map(Scrubbed(text), fits);
    RowOrders();
    SortSorted(FitLess, raw);
    forall i, j | 0 <= i < j < |pub| ensures pub[i].key == pub[j].key || PublicLess(pub[i].key, pub[j].key) { NotAfter(pub[i].key, pub[j].key); }
    var v := Fit(k, "", 0, "", 0, 0, 0, 0, false);
    SortKeepsTies(FitLess, raw, v);
    TiesAreNames(text, v, pub);
    TiesAreNames(text, v, raw);
    FilterMap(Scrubbed(text), NamedAs(k), ScrubsTo(text, k), fits);
  }

  datatype Slot = Slot(c: SuiteCase, replicate: int, agent: AgentStatus)

  function SlotsOf(c: SuiteCase, replicate: int, agents: seq<AgentStatus>): (slots: seq<Slot>)
    ensures |slots| == |agents| && forall i :: 0 <= i < |agents| ==> slots[i] == Slot(c, replicate, agents[i])
  {
    Map((a: AgentStatus) => Slot(c, replicate, a), agents)
  }

  /** Every slot of every panel the walk asked before replicate `rep` of case `i`, in order. */
  function SlotsBefore(s: Setup, p: Oracle, n: int, i: nat, rep: nat): seq<Slot>
    requires n >= 1 && rep >= 1 && i <= |s.manifest.cases| && (rep > 1 ==> i < |s.manifest.cases|)
    decreases i, rep
  {
    if rep > 1 then SlotsBefore(s, p, n, i, rep - 1) + SlotsOf(s.manifest.cases[i], rep - 1, p(CaseRun(i, rep - 1)).agents)
    else if i == 0 then []
    else SlotsBefore(s, p, n, i - 1, n + 1)
  }

  /** A fit row says of a slot who answered which case in which replicate, and how. */
  ghost predicate FitsSlot(s: Setup, f: Fit, x: Slot) {
    && CreditedTo(s, x.agent, f.key)
    && f.caseID == x.c.id && f.replicate == x.replicate
    && f.outcome == x.agent.outcome && f.findings == |x.agent.raised|
    && f.tokensOut == x.agent.tokensOut && f.silentChunks == x.agent.silentChunks && f.timedOut == x.agent.timedOut
    && f.chunkCount >= 1 && (x.agent.chunkCount >= 1 ==> f.chunkCount == x.agent.chunkCount) && (x.agent.chunkCount < 1 ==> f.chunkCount == 1)
  }

  ghost predicate FitsSlots(s: Setup, fits: seq<Fit>, slots: seq<Slot>) {
    |fits| == |slots| && forall i :: 0 <= i < |fits| ==> FitsSlot(s, fits[i], slots[i])
  }

  lemma PanelFits(s: Setup, c: SuiteCase, replicate: int, q: PoolSummary)
    ensures FitsSlots(s, FitRows(c.id, replicate, Records(s, q)), SlotsOf(c, replicate, q.agents))
  {
    var rs, slots := Records(s, q), SlotsOf(c, replicate, q.agents);
    forall i | 0 <= i < |rs| ensures FitsSlot(s, FitRow(c.id, replicate, rs[i]), slots[i]) {
      assert rs[i] == RecordOf(s, q.agents[i]);
      CreditIsKey(s, q.agents[i], KeyOf(s, q.agents[i]));
    }
  }

  lemma FitsConcat(s: Setup, fits: seq<Fit>, slots: seq<Slot>, more: seq<Fit>, others: seq<Slot>)
    requires FitsSlots(s, fits, slots) && FitsSlots(s, more, others)
    ensures FitsSlots(s, fits + more, slots + others)
  {
  }

  ghost function Fitted(s: Setup, p: Oracle, n: int): Invariant {
    (st: RunState, k: int, r: int) => st.stopped || FittedAt(s, p, n, st, k, r)
  }

  ghost predicate FittedAt(s: Setup, p: Oracle, n: int, st: RunState, k: int, r: int) {
    && n >= 1 && r >= 1 && 0 <= k <= |s.manifest.cases| && (r > 1 ==> k < |s.manifest.cases|)
    && FitsSlots(s, st.fits, SlotsBefore(s, p, n, k, r))
  }

  lemma StepFits(s: Setup, n: int, p: Oracle, st: RunState, k: nat, r: nat)
    requires k < |s.manifest.cases| && 1 <= r <= n && (st.stopped || FittedAt(s, p, n, st, k, r))
    ensures var next := StepOf(s, map[], Steady(n, p))(st, CaseRun(k, r)); next.stopped || FittedAt(s, p, n, next, k, r + 1)
  {
    var next := Step(s, map[], Steady(n, p), st, CaseRun(k, r));
    if !next.stopped {
      StepsStopForGood(s, map[], Steady(n, p));
      ExecuteTakes(s, Steady(n, p), st, CaseRun(k, r));
      var c, q := s.manifest.cases[k], p(CaseRun(k, r));
      PanelFits(s, c, r, q);
      FitsConcat(s, st.fits, SlotsBefore(s, p, n, k, r), FitRows(c.id, r, Records(s, q)), SlotsOf(c, r, q.agents));
    }
  }

  lemma NextCaseFits(s: Setup, p: Oracle, n: int, st: RunState, k: int, r: int)
    requires FittedAt(s, p, n, st, k, r) && r == n + 1
    ensures FittedAt(s, p, n, st, k + 1, 1)
  {
  }

  lemma FittedInductive(s: Setup, n: int, p: Oracle)
    requires n >= 1
    ensures Inductive(Fitted(s, p, n), StepOf(s, map[], Steady(n, p)), |s.manifest.cases|, n)
  {
    var inv, step := Fitted(s, p, n), StepOf(s, map[], Steady(n, p));
    forall st, k, r | inv(st, k, r) && 0 <= k < |s.manifest.cases| && 1 <= r <= n ensures inv(step(st, CaseRun(k, r)), k, r + 1) {
      StepFits(s, n, p, st, k, r);
    }
    FittedCarries(s, n, p);
  }

  lemma FittedCarries(s: Setup, n: int, p: Oracle)
    requires n >= 1
    ensures forall st, k, r :: Fitted(s, p, n)(st, k, r) && r == n + 1 ==> Fitted(s, p, n)(st, k + 1, 1)
  {
    forall st, k, r | Fitted(s, p, n)(st, k, r) && r == n + 1 ensures Fitted(s, p, n)(st, k + 1, 1) {
      if !st.stopped { NextCaseFits(s, p, n, st, k, r); }
    }
  }

  /** A finished run has one fit row for every slot of every panel it asked, in order. */
  lemma FinishedFitsAreSlots(s: Setup, n: int, p: Oracle)
    requires n >= 1 && Uninterrupted(s, n, p).Finished?
    ensures FitsSlots(s, Uninterrupted(s, n, p).fits, SlotsBefore(s, p, n, |s.manifest.cases|, 1))
  {
    FittedInductive(s, n, p);
    WalkKeeps(Fitted(s, p, n), StepOf(s, map[], Steady(n, p)), |s.manifest.cases|, n, StartState(None, World(None, [])), |s.manifest.cases|, 1);
  }
}
