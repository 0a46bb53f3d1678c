/**
 `executeRepoStateBenchmarkRun`: the case loop of the repo-state tier, with its failure
 channels, its cost brake and its retention rule, and the tail that emits the run-result.

 What the host, git, the panel and the operator do is an input: one `Trial` per case.
 */
module RepoStateRun {
  import opened Basics
  import opened Orders
  import opened Benchmark
  import opened ReviewerFold
  import opened BenchmarkRun
  import opened RunReport

  // ------------------------------------------------------------ environment

  datatype Stage = Passed | Fault | Fatal

  /** One reviewer slot of a reviewed case, under its realized identity. */
  datatype Slot = Slot(
    agent: string,
    key: ReviewerKey,
    status: CallStatus,
    worthless: bool,
    raised: seq<string>,
    outcome: string,
    fallbackUsed: bool,
    usageReported: bool,
    cost: real,
    durationMS: int)

  datatype Panel = Panel(grounding: Option<bool>, slots: seq<Slot>)

  /** The persona that looks at rendered pages instead of the diff. */
  const VISUAL_PERSONA := "felix"

  /** `reviewerResults`: the slots that decide whether the panel failed as a whole. */
  function Judged(slots: seq<Slot>): seq<Slot> {
    var readers := Filter((s: Slot) => s.agent != VISUAL_PERSONA, slots);
    if readers == [] then slots else readers
  }

  /** `Outcome`: a panel none of whose judged calls succeeded is an error, and so is an empty one. */
  predicate AllAgentsFailed(p: Panel) {
    forall i :: 0 <= i < |Judged(p.slots)| ==> !Judged(p.slots)[i].status.CallOk?
  }

  /** Everything that happens to one case, stage by stage; `panel` is what the review wrote down. */
  datatype Trial = Trial(
    cancelled: bool,
    workDir: Stage,
    materialized: bool,
    winnable: bool,
    prepared: Stage,
    executed: Stage,
    panel: Panel,
    summaryRead: bool,
    findingsRead: bool)

  /** The six places a case can fail without ending the run. */
  datatype Site = AtWorkDir | AtMaterialize | AtPrepare | AtExecute | AtPoolSummary | AtReadFindings

  function ReasonOf(site: Site): (r: string)
    ensures ValidCaseFailureReason(r)
  {
    match site
    case AtWorkDir => "work_dir"
    case AtMaterialize => "materialize"
    case AtPrepare => "prepare"
    case AtExecute => "execute"
    case AtPoolSummary => "pool_summary"
    case AtReadFindings => "read_findings"
  }

  datatype CaseEnd = Aborts | Unmeasured(site: Site) | Reviewed(panel: Panel)

  function EndOfTrial(t: Trial): CaseEnd {
    if t.workDir.Fatal? then Aborts
    else if t.workDir.Fault? then Unmeasured(AtWorkDir)
    else if !t.materialized then Unmeasured(AtMaterialize)
    else if !t.winnable then Aborts
    else if t.prepared.Fatal? then Aborts
    else if t.prepared.Fault? then Unmeasured(AtPrepare)
    else if t.executed.Fatal? then Aborts
    else if t.executed.Fault? then Unmeasured(AtExecute)
    else if AllAgentsFailed(t.panel) then Aborts
    else if !t.summaryRead then Unmeasured(AtPoolSummary)
    else if !t.findingsRead then Unmeasured(AtReadFindings)
    else Reviewed(t.panel)
  }

  /** `slotUnmeasuredReason`: why a slot is recorded rather than scored, if it is. */
  function SlotLoss(s: Slot): (r: Option<Loss>)
    ensures r.None? <==> s.status.CallOk? && !s.worthless
    ensures r == Some(LostThoughOk) <==> s.status.CallOk? && s.worthless
  {
    if !s.status.CallOk? then Some(LossOfStatus(s.status))
    else if s.worthless then Some(LostThoughOk)
    else None
  }

  /** One run of the tier: its suite, its brake, its cost arithmetic and what happens to it. */
  datatype Job = Job(
    manifest: Manifest,
    brake: int,
    add: AddCost,
    trials: int -> Trial,
    cancelledAtEnd: bool)

  // ---------------------------------------------------------- per-slot fold

  datatype RepoAcc = RepoAcc(
    cases: seq<CaseScore>,
    scored: map<string, string>,
    caseIDs: seq<string>,
    outcomes: map<string, int>,
    fallbackCases: int,
    grounding: Option<bool>,
    cost: real,
    latencies: seq<int>)

  const NO_CASES := RepoAcc([], map[], [], map[], 0, None, 0.0, [])

  datatype LostSlot = LostSlot(caseID: string, loss: Loss)

  datatype Ledger = Ledger(
    accs: map<ReviewerKey, RepoAcc>,
    order: seq<ReviewerKey>,
    slotFailures: map<ReviewerKey, seq<LostSlot>>)

  const EMPTY_LEDGER := Ledger(map[], [], map[])

  /** A slot meeting a case. */
  datatype Event = Event(caseID: string, expected: seq<string>, grounding: Option<bool>, slot: Slot) {
    function Key(): ReviewerKey { slot.key }
    predicate Scores() { SlotLoss(slot).None? }
  }

  function EventsOf(c: SuiteCase, p: Panel): seq<Event> {
    Map((s: Slot) => Event(c.id, c.expected, p.grounding, s), p.slots)
  }

  function LostOf(l: Ledger, k: ReviewerKey): seq<LostSlot> {
    if k in l.slotFailures then l.slotFailures[k] else []
  }

  function AccOf(l: Ledger, k: ReviewerKey): RepoAcc {
    if k in l.accs then l.accs[k] else NO_CASES
  }

  function Registered(l: Ledger, k: ReviewerKey): Ledger {
    if k in l.accs then l else Ledger(l.accs[k := NO_CASES], l.order + [k], l.slotFailures)
  }

  function Scored(add: AddCost, acc: RepoAcc, e: Event): RepoAcc {
    RepoAcc(
      acc.cases + [CaseScore(e.expected, e.slot.raised)],
      acc.scored[e.caseID := e.slot.agent],
      acc.caseIDs + [e.caseID],
      Bump(acc.outcomes, OutcomeTallyKey(e.slot.outcome)),
      if e.slot.fallbackUsed then acc.fallbackCases + 1 else acc.fallbackCases,
      FoldGrounding(acc.grounding, e.grounding, |acc.caseIDs + [e.caseID]| == 1),
      if e.slot.usageReported then add(acc.cost, e.slot.cost) else acc.cost,
      if e.slot.usageReported then acc.latencies + [e.slot.durationMS] else acc.latencies)
  }

  function Lost(e: Event): LostSlot
    requires !e.Scores()
  {
    LostSlot(e.caseID, SlotLoss(e.slot).value)
  }

  /** The body of the per-agent loop. */
  function FoldEvent(add: AddCost, ledger: Ledger, e: Event): Result<Ledger> {
    var l := Registered(ledger, e.Key());
    if !e.Scores() then Ok(l.(slotFailures := l.slotFailures[e.Key() := LostOf(l, e.Key()) + [Lost(e)]]))
    else if e.caseID in AccOf(l, e.Key()).scored then Err
    else Ok(l.(accs := l.accs[e.Key() := Scored(add, AccOf(l, e.Key()), e)]))
  }

  function FoldEvents(add: AddCost, l: Ledger, es: seq<Event>): Result<Ledger> {
    if es == [] then Ok(l)
    else
      match FoldEvents(add, l, es[..|es| - 1])
      case Err => Err
      case Ok(l') => FoldEvent(add, l', es[|es| - 1])
  }

  lemma {:induction false} FoldEventsConcat(add: AddCost, l: Ledger, xs: seq<Event>, ys: seq<Event>)
    ensures FoldEvents(add, l, xs + ys) ==
            match FoldEvents(add, l, xs) case Err => Err case Ok(l') => FoldEvents(add, l', ys)
  {
    if ys == [] {
      assert xs + ys == xs;
    } else {
      var n := |ys| - 1;
      FoldEventsConcat(add, l, xs, ys[..n]);
      assert (xs + ys)[..|xs + ys| - 1] == xs + ys[..n];
    }
  }

  // ------------------------------------------------------------ the case loop

  datatype FailedCase = FailedCase(caseID: string, site: Site)

  datatype RepoRun = RepoRun(
    ledger: Ledger,
    caseFailures: seq<FailedCase>,
    scored: int,
    consecutive: int,
    caseIDs: seq<string>,
    aborted: bool)

  const FIRST_HEAD := RepoRun(EMPTY_LEDGER, [], 0, 0, [], false)

  predicate Braked(j: Job, consecutive: int) { j.brake > 0 && consecutive >= j.brake }

  /** What the per-agent loop makes of a reviewed case. */
  function FoldCase(add: AddCost, l: Ledger, c: SuiteCase, end: CaseEnd): Result<Ledger> {
    if end.Reviewed? then FoldEvents(add, l, EventsOf(c, end.panel)) else Ok(l)
  }

  /** One iteration, given how the case ended and what folding its panel gave. */
  function NextHead(j: Job, st: RepoRun, id: string, cancelled: bool, end: CaseEnd, folded: Result<Ledger>): RepoRun {
    if st.aborted then st
    else if cancelled || Braked(j, st.consecutive) then st.(aborted := true)
    else
      var started := st.(caseIDs := st.caseIDs + [id]);
      if end.Aborts? || folded.Err? then started.(aborted := true)
      else if end.Unmeasured? then
        started.(caseFailures := st.caseFailures + [FailedCase(id, end.site)], consecutive := st.consecutive + 1)
      else
        started.(ledger := folded.value, scored := st.scored + 1, consecutive := 0)
  }

  /** The state at the head of iteration `i`. */
  function At(j: Job, i: nat): RepoRun
    requires i <= |j.manifest.cases|
  {
    if i == 0 then FIRST_HEAD
    else
      var st, c, end := At(j, i - 1), j.manifest.cases[i - 1], EndOfTrial(j.trials(i - 1));
      NextHead(j, st, c.id, j.trials(i - 1).cancelled, end, FoldCase(j.add, st.ledger, c, end))
  }

  // -------------------------------------------------------------- emit tail

  predicate PublishedLess(text: Text, a: ReviewerKey, b: ReviewerKey) {
    KeyLess(text.Publish(a), text.Publish(b))
  }

  function EmitOrder(text: Text, order: seq<ReviewerKey>): seq<ReviewerKey> {
    StableSort((a: ReviewerKey, b: ReviewerKey) => PublishedLess(text, a, b), order)
  }

  function ScoreInputOf(l: Ledger, k: ReviewerKey): ReviewerScore {
    ReviewerScore(k, AccOf(l, k).cases, AccOf(l, k).cost, Median(AccOf(l, k).latencies))
  }

  function CoverageRow(text: Text, l: Ledger, k: ReviewerKey): Coverage {
    var acc := AccOf(l, k);
    Coverage(text.Publish(k), acc.caseIDs, Some(acc.outcomes), acc.fallbackCases, acc.grounding)
  }

  function PublicLost(text: Text, l: Ledger, k: ReviewerKey): seq<SlotFailure> {
    Map((s: LostSlot) => SlotFailure(text.Publish(k), s.caseID, LossReason(s.loss)), LostOf(l, k))
  }

  /** `publicSlotFailures`: the channel flattened in emit order, under public identities. */
  function PublicSlotFailures(text: Text, l: Ledger, order: seq<ReviewerKey>): seq<SlotFailure> {
    if order == [] then []
    else PublicSlotFailures(text, l, order[..|order| - 1]) + PublicLost(text, l, order[|order| - 1])
  }

  function PublicCaseFailures(fs: seq<FailedCase>): seq<CaseFailure> {
    Map((f: FailedCase) => CaseFailure(f.caseID, ReasonOf(f.site)), fs)
  }

  function EmitRun(text: Text, metrics: Metrics, m: Manifest, st: RepoRun): RunResult {
    var order := EmitOrder(text, st.ledger.order);
    RunResult(m.suite, m.suiteVersion,
              Score(text, metrics, Map((k: ReviewerKey) => ScoreInputOf(st.ledger, k), order)),
              st.caseIDs,
              Map((k: ReviewerKey) => CoverageRow(text, st.ledger, k), order),
              PublicCaseFailures(st.caseFailures),
              PublicSlotFailures(text, st.ledger, order),
              [])
  }

  /** The loop ended by itself, someone was scored or lost, and every identity may publish. */
  ghost predicate Succeeds(text: Text, j: Job) {
    var st := At(j, |j.manifest.cases|);
    !st.aborted && !j.cancelledAtEnd && st.ledger.order != [] && Publishable(text, st.ledger.order)
  }

  predicate NeedsKeeping(s: LostSlot) { s.loss != LostThoughOk }

  /** `retainForSlotFailures`. */
  ghost predicate SlotsRetain(l: Ledger) {
    exists k, i :: k in l.slotFailures && 0 <= i < |l.slotFailures[k]| && NeedsKeeping(l.slotFailures[k][i])
  }

  // --------------------------------------------------- the run, imperatively

  class RepoLedger {
    var accs: map<ReviewerKey, RepoAcc>
    var order: seq<ReviewerKey>
    var slotFailures: map<ReviewerKey, seq<LostSlot>>

    function State(): Ledger
      reads this
    {
      Ledger(accs, order, slotFailures)
    }

    constructor ()
      ensures State() == EMPTY_LEDGER
    {
      accs, order, slotFailures := map[], [], map[];
    }

    /** Register the identity, then record the lost slot or score the case. */
    method FoldSlot(add: AddCost, e: Event) returns (ok: bool)
      modifies this
      ensures ok <==> FoldEvent(add, old(State()), e).Ok?
      ensures ok ==> FoldEvent(add, old(State()), e) == Ok(State())
    {
      var k := e.Key();
      if k !in accs {
        accs := accs[k := NO_CASES];
        order := order + [k];
      }
      var loss := SlotLoss(e.slot);
      if loss.Some? {
        var before := if k in slotFailures then slotFailures[k] else [];
        slotFailures := slotFailures[k := before + [LostSlot(e.caseID, loss.value)]];
        return true;
      }
      if e.caseID in accs[k].scored {
        return false;
      }
      accs := accs[k := Scored(add, accs[k], e)];
      return true;
    }

    method FoldPanel(add: AddCost, es: seq<Event>) returns (ok: bool)
      modifies this
      ensures ok <==> FoldEvents(add, old(State()), es).Ok?
      ensures ok ==> FoldEvents(add, old(State()), es) == Ok(State())
    {
      for n := 0 to |es|
        invariant FoldEvents(add, old(State()), es[..n]) == Ok(State())
      {
        assert es[..n + 1][..n] == es[..n];
        assert es == es[..n + 1] + es[n + 1..];
        FoldEventsConcat(add, old(State()), es[..n + 1], es[n + 1..]);
        var folded := FoldSlot(add, es[n]);
        if !folded {
          return false;
        }
      }
      assert es[..|es|] == es;
      return true;
    }

    /** Any reason but unmeasured-ok keeps the work dir. */
    method RetainForSlotFailures() returns (retain: bool)
      ensures retain <==> SlotsRetain(State())
    {
      var left := slotFailures.Keys;
      while left != {}
        invariant left <= slotFailures.Keys
        invariant forall k, i :: k in slotFailures && k !in left && 0 <= i < |slotFailures[k]| ==> !NeedsKeeping(slotFailures[k][i])
        decreases left
      {
        var k :| k in left;
        for i := 0 to |slotFailures[k]|
          invariant forall n :: 0 <= n < i ==> !NeedsKeeping(slotFailures[k][n])
        {
          if NeedsKeeping(slotFailures[k][i]) {
            return true;
          }
        }
        left := left - {k};
      }
      return false;
    }
  }

  lemma {:induction false} AbortedStays(j: Job, i: nat)
    requires i <= |j.manifest.cases| && At(j, i).aborted
    ensures At(j, |j.manifest.cases|) == At(j, i)
    decreases |j.manifest.cases| - i
  {
    if i < |j.manifest.cases| { AbortedStays(j, i + 1); }
  }

  /** One iteration of the case loop. */
  method RunCase(j: Job, c: SuiteCase, t: Trial, ledger: RepoLedger, ghost st: RepoRun,
                 caseFailures: seq<FailedCase>, scored: int, consecutive: int, caseIDs: seq<string>)
    returns (ok: bool, caseFailures': seq<FailedCase>, scored': int, consecutive': int, caseIDs': seq<string>)
    requires st == RepoRun(ledger.State(), caseFailures, scored, consecutive, caseIDs, false)
    modifies ledger
    ensures var next := NextHead(j, st, c.id, t.cancelled, EndOfTrial(t), FoldCase(j.add, st.ledger, c, EndOfTrial(t)));
            && ok == !next.aborted && caseIDs' == next.caseIDs
            && (ok ==> next == RepoRun(ledger.State(), caseFailures', scored', consecutive', caseIDs', false))
  {
    ok, caseFailures', scored', consecutive', caseIDs' := false, caseFailures, scored, consecutive, caseIDs;
    if t.cancelled || Braked(j, consecutive) {
      return;
    }
    caseIDs' := caseIDs + [c.id];
    match EndOfTrial(t)
    case Aborts =>
      return;
    case Unmeasured(site) =>
      caseFailures' := caseFailures + [FailedCase(c.id, site)];
      consecutive' := consecutive + 1;
      ok := true;
    case Reviewed(p) =>
      ok := ledger.FoldPanel(j.add, EventsOf(c, p));
      if !ok {
        return;
      }
      scored' := scored + 1;
      consecutive' := 0;
  }

  /** The case loop; `started` lists the cases it began, in order. */
  method RunCases(j: Job, ledger: RepoLedger) returns (ok: bool, caseFailures: seq<FailedCase>, started: seq<string>)
    requires ledger.State() == EMPTY_LEDGER
    modifies ledger
    ensures var end := At(j, |j.manifest.cases|);
            && ok == !end.aborted && started == end.caseIDs
            && (ok ==> ledger.State() == end.ledger && caseFailures == end.caseFailures)
  {
    var scored, consecutive := 0, 0;
    caseFailures, started := [], [];
    for i := 0 to |j.manifest.cases|
      invariant At(j, i) == RepoRun(ledger.State(), caseFailures, scored, consecutive, started, false)
    {
      ok, caseFailures, scored, consecutive, started :=
        RunCase(j, j.manifest.cases[i], j.trials(i), ledger, At(j, i), caseFailures, scored, consecutive, started);
      if !ok {
        AbortedStays(j, i + 1);
        return;
      }
    }
    return true, caseFailures, started;
  }

  /** The printability and collision loop over the realized identities. */
  method CheckIdentities(text: Text, order: seq<ReviewerKey>) returns (ok: bool)
    ensures ok <==> Publishable(text, order)
  {
    var public: map<ReviewerKey, ReviewerKey> := map[];
    for i := 0 to |order|
      invariant Publishable(text, order[..i]) && public.Keys == PublicIds(text, order[..i])
    {
      var k := order[i];
      assert order[..i + 1] == order[..i] + [k];
      PublishableSnoc(text, order[..i], k);
      PublishablePrefix(text, order, i + 1);
      if !text.PrintableKey(k) || text.Publish(k) in public {
        return false;
      }
      public := public[text.Publish(k) := k];
    }
    assert order[..|order|] == order;
    return true;
  }

  /** `publicSlotFailures` as the loop the source writes. */
  method FlattenSlotFailures(text: Text, l: Ledger, order: seq<ReviewerKey>) returns (out: seq<SlotFailure>)
    ensures out == PublicSlotFailures(text, l, order)
  {
    out := [];
    for i := 0 to |order|
      invariant out == PublicSlotFailures(text, l, order[..i])
    {
      assert order[..i + 1][..i] == order[..i];
      out := out + PublicLost(text, l, order[i]);
    }
    assert order[..|order|] == order;
  }

  /**
   The whole run, from the created work dir on: the published result, and whether the
   work dir is removed.
   */
  method ExecuteRepoState(text: Text, metrics: Metrics, j: Job) returns (r: Result<RunResult>, removed: bool)
    ensures r.Ok? <==> Succeeds(text, j)
    ensures r.Ok? ==> r.value == EmitRun(text, metrics, j.manifest, At(j, |j.manifest.cases|))
    ensures var end := At(j, |j.manifest.cases|);
            removed <==> r.Ok? && end.caseFailures == [] && !SlotsRetain(end.ledger)
  {
    var ledger := new RepoLedger();
    var ok, caseFailures, started := RunCases(j, ledger);
    if !ok || j.cancelledAtEnd || ledger.order == [] {
      return Err, false;
    }
    ok := CheckIdentities(text, ledger.order);
    if !ok {
      return Err, false;
    }
    var l := ledger.State();
    var order := EmitOrder(text, l.order);
    var slots := FlattenSlotFailures(text, l, order);
    var rr := RunResult(j.manifest.suite, j.manifest.suiteVersion,
                        Score(text, metrics, Map((k: ReviewerKey) => ScoreInputOf(l, k), order)), started,
                        Map((k: ReviewerKey) => CoverageRow(text, l, k), order), PublicCaseFailures(caseFailures), slots, []);
    var retain := ledger.RetainForSlotFailures();
    return Ok(rr), caseFailures == [] && !retain;
  }

  // -------------------------------------------------------- loop accounting

  predicate Failing(j: Job, i: int) { EndOfTrial(j.trials(i)).Unmeasured? }

  /** Cases `from..to` all failed. */
  predicate AllFailing(j: Job, from: int, to: int) {
    forall i :: from <= i < to ==> Failing(j, i)
  }

  /** The longest failing suffix of the first `i` cases. */
  function FailingSuffix(j: Job, i: nat): (n: nat)
    ensures n <= i && AllFailing(j, i - n, i) && (n < i ==> !Failing(j, i - n - 1))
  {
    if i == 0 || !Failing(j, i - 1) then 0 else 1 + FailingSuffix(j, i - 1)
  }

  function SuiteIds(m: Manifest): (ids: seq<string>)
    ensures |ids| == |m.cases| && forall i :: 0 <= i < |ids| ==> ids[i] == m.cases[i].id
  {
    CaseIDsOf(m)
  }

  /** What happened so far: every slot of every reviewed case, in order. */
  function History(j: Job, i: nat): seq<Event>
    requires i <= |j.manifest.cases|
  {
    if i == 0 then []
    else
      match EndOfTrial(j.trials(i - 1))
      case Reviewed(p) => History(j, i - 1) + EventsOf(j.manifest.cases[i - 1], p)
      case _ => History(j, i - 1)
  }

  /** The failures recorded so far, in suite order. */
  function FailuresSoFar(j: Job, i: nat): seq<FailedCase>
    requires i <= |j.manifest.cases|
  {
    if i == 0 then []
    else
      match EndOfTrial(j.trials(i - 1))
      case Unmeasured(site) => FailuresSoFar(j, i - 1) + [FailedCase(j.manifest.cases[i - 1].id, site)]
      case _ => FailuresSoFar(j, i - 1)
  }

  /** One iteration that does not abort: what it counts, by how its case ended. */
  ghost predicate Counts(st: RepoRun, id: string, end: CaseEnd, next: RepoRun) {
    && next.caseIDs == st.caseIDs + [id] && !end.Aborts?
    && (if end.Unmeasured? then
          && next.scored == st.scored && next.consecutive == st.consecutive + 1
          && next.caseFailures == st.caseFailures + [FailedCase(id, end.site)]
        else next.scored == st.scored + 1 && next.consecutive == 0 && next.caseFailures == st.caseFailures)
  }

  lemma HeadCounts(j: Job, i: nat)
    requires 0 < i <= |j.manifest.cases| && !At(j, i).aborted
    ensures !At(j, i - 1).aborted
    ensures Counts(At(j, i - 1), j.manifest.cases[i - 1].id, EndOfTrial(j.trials(i - 1)), At(j, i))
  {
  }

  ghost predicate AddsUp(j: Job, i: nat, st: RepoRun)
    requires i <= |j.manifest.cases|
  {
    && st.scored + |st.caseFailures| == i
    && st.consecutive == FailingSuffix(j, i)
    && st.caseIDs == SuiteIds(j.manifest)[..i]
    && st.caseFailures == FailuresSoFar(j, i)
  }

  lemma {:induction false} HeadsAddUp(j: Job, i: nat)
    requires i <= |j.manifest.cases| && !At(j, i).aborted
    ensures AddsUp(j, i, At(j, i))
  {
    if i > 0 {
      HeadCounts(j, i);
      HeadsAddUp(j, i - 1);
      CountsAddUp(j, i, At(j, i - 1), At(j, i));
    }
  }

  /** Scored and failed cases add up to the cases attempted, and the counter is the failing suffix. */
  lemma LoopAccounting(j: Job, i: nat)
    requires i <= |j.manifest.cases| && !At(j, i).aborted
    ensures At(j, i).scored + |At(j, i).caseFailures| == i
    ensures At(j, i).consecutive == FailingSuffix(j, i)
    ensures At(j, i).caseIDs == SuiteIds(j.manifest)[..i]
    ensures At(j, i).caseFailures == FailuresSoFar(j, i)
  {
    HeadsAddUp(j, i);
  }

  lemma CountsAddUp(j: Job, i: nat, st: RepoRun, next: RepoRun)
    requires 0 < i <= |j.manifest.cases| && AddsUp(j, i - 1, st)
    requires Counts(st, j.manifest.cases[i - 1].id, EndOfTrial(j.trials(i - 1)), next)
    ensures AddsUp(j, i, next)
  {
    assert SuiteIds(j.manifest)[..i] == SuiteIds(j.manifest)[..i - 1] + [j.manifest.cases[i - 1].id];
  }

  /** The ledger is the fold of every slot of every reviewed case, in order. */
  lemma {:induction false} LedgerIsHistory(j: Job, i: nat)
    requires i <= |j.manifest.cases| && !At(j, i).aborted
    ensures FoldEvents(j.add, EMPTY_LEDGER, History(j, i)) == Ok(At(j, i).ledger)
  {
    if i > 0 {
      LedgerIsHistory(j, i - 1);
      var end := EndOfTrial(j.trials(i - 1));
      if end.Reviewed? {
        FoldEventsConcat(j.add, EMPTY_LEDGER, History(j, i - 1), EventsOf(j.manifest.cases[i - 1], end.panel));
      }
    }
  }

  /** What one iteration does to the list of started cases. */
  ghost predicate Starts(j: Job, st: RepoRun, i: int, next: RepoRun) {
    || (next.caseIDs == st.caseIDs && next.aborted)
    || (|next.caseIDs| == |st.caseIDs| + 1 && !st.aborted && !j.trials(i).cancelled && !Braked(j, st.consecutive))
  }

  lemma HeadStarts(j: Job, i: nat)
    requires 0 < i <= |j.manifest.cases|
    ensures Starts(j, At(j, i - 1), i - 1, At(j, i))
  {
  }

  /** A started case was reached unaborted, uncancelled and below the brake, in any run of such iterations. */
  lemma {:induction false} StartedInRun(j: Job, heads: seq<RepoRun>, n: nat, i: nat)
    requires n < |heads| && heads[0] == FIRST_HEAD && forall k :: 0 < k < |heads| ==> Starts(j, heads[k - 1], k - 1, heads[k])
    ensures |heads[n].caseIDs| <= n && (!heads[n].aborted ==> |heads[n].caseIDs| == n)
    ensures i < |heads[n].caseIDs| ==>
              i < n && !heads[i].aborted && !j.trials(i).cancelled && !Braked(j, heads[i].consecutive)
  {
    if n > 0 {
      assert Starts(j, heads[n - 1], n - 1, heads[n]);
      StartedInRun(j, heads, n - 1, i);
    }
  }

  lemma StartedMeansAdmitted(j: Job, n: nat, i: nat)
    requires n <= |j.manifest.cases|
    ensures |At(j, n).caseIDs| <= n && (!At(j, n).aborted ==> |At(j, n).caseIDs| == n)
    ensures i < |At(j, n).caseIDs| ==>
              i < n && !At(j, i).aborted && !j.trials(i).cancelled && !Braked(j, At(j, i).consecutive)
  {
    var heads := seq(n + 1, (k: int) requires 0 <= k <= n => At(j, k));
    forall k | 0 < k < |heads| ensures Starts(j, heads[k - 1], k - 1, heads[k]) { HeadStarts(j, k); }
    StartedInRun(j, heads, n, i);
  }

  lemma FailingSuffixIsLongest(j: Job, i: nat, k: nat)
    requires k <= i && k > FailingSuffix(j, i)
    ensures !AllFailing(j, i - k, i)
  {
    assert !Failing(j, i - FailingSuffix(j, i) - 1);
  }

  /** With brake `k > 0`, a case that starts does not follow `k` straight failures. */
  lemma BrakeHolds(j: Job, i: nat)
    requires j.brake > 0 && i < |At(j, |j.manifest.cases|).caseIDs|
    ensures i >= j.brake ==> !AllFailing(j, i - j.brake, i)
  {
    StartedMeansAdmitted(j, |j.manifest.cases|, i);
    LoopAccounting(j, i);
    if i >= j.brake { FailingSuffixIsLongest(j, i, j.brake); }
  }
}
