/**
 One invocation of `atcr benchmark run --checkpoint --replicates`: the walk over cases
 and replicates that replays a recorded case run and executes the rest.

 The model panel and the process' fate are inputs. An invocation may die at any case
 run: before the panel is paid, after it is paid but before the checkpoint write lands,
 or right after the write. A failed step and a killed process look the same from here.
 */
module BenchmarkRun {
  import opened Basics
  import opened Orders
  import opened Benchmark
  import opened ReviewerFold
  import opened Checkpoint

  datatype SuiteCase = SuiteCase(id: string, expected: seq<string>)

  datatype Manifest = Manifest(suite: string, suiteVersion: string, cases: seq<SuiteCase>)

  datatype AgentEntry = AgentEntry(model: string, persona: string)

  /** One reviewer slot of an executed review, as its pool summary records it. */
  datatype AgentStatus = AgentStatus(
    agent: string,
    model: string,
    fallbackUsed: bool,
    fallbackModel: string,
    tokensIn: int,
    tokensOut: int,
    durationMS: int,
    timedOut: bool,
    chunkCount: int,
    silentChunks: int,
    raised: seq<string>,
    outcome: string)

  datatype PoolSummary = PoolSummary(grounding: Option<bool>, agents: seq<AgentStatus>)

  /** What stays fixed across the invocations of one run: suite, panel and cost arithmetic. */
  datatype Setup = Setup(
    manifest: Manifest,
    registry: map<string, AgentEntry>,
    roster: seq<string>,
    legacyRoster: seq<string>,
    reproHash: string,
    add: AddCost,
    costOf: (string, int, int) -> real)

  datatype Fate = RunsOn | DiesUnpaid | DiesPaid | DiesSaved

  /** One invocation: its replicate count, what the panel would answer, and where it dies. */
  datatype Attempt = Attempt(
    replicates: int,
    checkpointed: bool,
    panel: CaseRun -> PoolSummary,
    fate: CaseRun -> Fate)

  // -------------------------------------------------------- per-agent records

  function ReviewerModel(s: Setup, a: AgentStatus): string {
    if a.model != "" then a.model
    else if a.fallbackUsed && a.fallbackModel != "" then a.fallbackModel
    else if a.agent in s.registry then s.registry[a.agent].model
    else ""
  }

  function ReviewerPersona(s: Setup, agent: string): string {
    if agent in s.registry && s.registry[agent].persona != "" then s.registry[agent].persona else agent
  }

  function UsageReported(a: AgentStatus): bool {
    a.tokensIn > 0 || a.tokensOut > 0
  }

  function CostOf(s: Setup, a: AgentStatus): real {
    if UsageReported(a) then s.costOf(a.model, a.tokensIn, a.tokensOut) else 0.0
  }

  function LatencyOf(a: AgentStatus): int {
    if UsageReported(a) then a.durationMS else 0
  }

  function KeyOf(s: Setup, a: AgentStatus): ReviewerKey {
    ReviewerKey(ReviewerModel(s, a), ReviewerPersona(s, a.agent))
  }

  /** The outcome a fresh execution folds. */
  function FreshOutcome(s: Setup, c: SuiteCase, p: PoolSummary, a: AgentStatus): CaseOutcome {
    CaseOutcome(KeyOf(s, a), c.id, c.expected, a.raised, UsageReported(a), CostOf(s, a), LatencyOf(a),
                a.outcome, a.fallbackUsed, a.agent, p.grounding)
  }

  /** The record a checkpoint keeps. */
  function RecordOf(s: Setup, a: AgentStatus): CheckpointReviewer {
    CheckpointReviewer(a.agent, KeyOf(s, a), a.raised, UsageReported(a), CostOf(s, a), LatencyOf(a), a.outcome,
                       a.fallbackUsed, a.tokensOut, if a.chunkCount < 1 then 1 else a.chunkCount, a.silentChunks, a.timedOut)
  }

  /** The outcome a replayed record folds; expected categories come from the suite. */
  function ReplayOutcome(e: CheckpointCase, expected: seq<string>, r: CheckpointReviewer): CaseOutcome {
    CaseOutcome(r.key, e.caseID, expected, r.raised, r.usageReported, r.cost, r.latency,
                r.outcome, r.fallbackUsed, r.agent, e.grounding)
  }

  function FitRow(caseID: string, replicate: int, r: CheckpointReviewer): Fit {
    Fit(r.key, caseID, replicate, r.outcome, |r.raised|, r.tokensOut,
        if r.chunkCount < 1 then 1 else r.chunkCount, r.silentChunks, r.timedOut)
  }

  // -------------------------------------------------------- per-case sequences

  function FreshOutcomes(s: Setup, c: SuiteCase, p: PoolSummary): seq<CaseOutcome> {
    Map((a: AgentStatus) => FreshOutcome(s, c, p, a), p.agents)
  }

  function Records(s: Setup, p: PoolSummary): seq<CheckpointReviewer> {
    Map((a: AgentStatus) => RecordOf(s, a), p.agents)
  }

  function FitRows(caseID: string, replicate: int, rs: seq<CheckpointReviewer>): seq<Fit> {
    Map((r: CheckpointReviewer) => FitRow(caseID, replicate, r), rs)
  }

  function ReplayOutcomes(e: CheckpointCase, expected: seq<string>): seq<CaseOutcome> {
    Map((r: CheckpointReviewer) => ReplayOutcome(e, expected, r), e.reviewers)
  }

  /** A legacy entry measured no fit fields, so it yields no fit rows. */
  function CheckpointFitRows(e: CheckpointCase): seq<Fit> {
    if e.replicate == 0 then [] else FitRows(e.caseID, e.replicate, e.reviewers)
  }

  function EntryOf(s: Setup, run: CaseRun, p: PoolSummary): CheckpointCase
    requires 0 <= run.index < |s.manifest.cases|
  {
    var c := s.manifest.cases[run.index];
    CheckpointCase(run.index, c.id, c.expected, Records(s, p), p.grounding, run.replicate)
  }

  /** Replaying what was recorded folds the same outcomes and fit rows as executing it did. */
  lemma ReplayIsFresh(s: Setup, run: CaseRun, p: PoolSummary)
    requires 0 <= run.index < |s.manifest.cases| && run.replicate >= 1
    ensures var c := s.manifest.cases[run.index];
            var e := EntryOf(s, run, p);
            && ReplayOutcomes(e, c.expected) == FreshOutcomes(s, c, p)
            && CheckpointFitRows(e) == FitRows(c.id, run.replicate, Records(s, p))
  {
  }

  // ------------------------------------------------------------- the walk

  datatype RunState = RunState(
    board: Board,
    fits: seq<Fit>,
    checkpoint: Option<RunCheckpoint>,
    disk: Option<RunCheckpoint>,
    bill: seq<CaseRun>,
    stopped: bool)

  /** Only replicate 1 is scored. */
  function ScoreReplicate(s: Setup, b: Board, replicate: int, os: seq<CaseOutcome>): Result<Board> {
    if replicate == 1 then ApplyAll(s.add, b, os) else Ok(b)
  }

  function ReplayStep(s: Setup, a: Attempt, st: RunState, run: CaseRun, e: CheckpointCase): RunState
    requires 0 <= run.index < |s.manifest.cases|
  {
    var c := s.manifest.cases[run.index];
    if a.fate(run) != RunsOn || e.caseID != c.id then st.(stopped := true)
    else
      match ScoreReplicate(s, st.board, run.replicate, ReplayOutcomes(e, c.expected))
      case Err => st.(stopped := true)
      case Ok(b) => st.(board := b, fits := st.fits + CheckpointFitRows(e))
  }

  function Recorded(s: Setup, cp: Option<RunCheckpoint>, run: CaseRun, p: PoolSummary): Option<RunCheckpoint>
    requires 0 <= run.index < |s.manifest.cases|
  {
    if cp.None? then None else Some(cp.value.(cases := cp.value.cases + [EntryOf(s, run, p)]))
  }

  function ExecuteStep(s: Setup, a: Attempt, st: RunState, run: CaseRun): RunState
    requires 0 <= run.index < |s.manifest.cases|
  {
    var c := s.manifest.cases[run.index];
    var p := a.panel(run);
    if a.fate(run) == DiesUnpaid then st.(stopped := true)
    else
      var paid := st.(bill := st.bill + [run]);
      match ScoreReplicate(s, st.board, run.replicate, FreshOutcomes(s, c, p))
      case Err => paid.(stopped := true)
      case Ok(b) =>
        if a.fate(run) == DiesPaid then paid.(stopped := true)
        else
          var cp := Recorded(s, st.checkpoint, run, p);
          paid.(board := b, fits := st.fits + FitRows(c.id, run.replicate, Records(s, p)),
                checkpoint := cp, disk := if cp.Some? then cp else st.disk,
                stopped := a.fate(run) == DiesSaved)
  }

  function Step(s: Setup, done: map<CaseRun, CheckpointCase>, a: Attempt, st: RunState, run: CaseRun): RunState
    requires 0 <= run.index < |s.manifest.cases|
  {
    if st.stopped then st
    else if run in done then ReplayStep(s, a, st, run, done[run])
    else ExecuteStep(s, a, st, run)
  }

  type Stepper = (RunState, CaseRun) -> RunState

  function StepOf(s: Setup, done: map<CaseRun, CheckpointCase>, a: Attempt): Stepper {
    (st: RunState, run: CaseRun) => if 0 <= run.index < |s.manifest.cases| then Step(s, done, a, st, run) else st
  }

  /** The walk over cases and replicates, for any step. */
  function Walk(step: Stepper, n: int, start: RunState, i: nat, rep: nat): RunState
    requires n >= 1 && rep >= 1
    decreases i, rep
  {
    if rep > 1 then step(Walk(step, n, start, i, rep - 1), CaseRun(i, rep - 1))
    else if i == 0 then start
    else Walk(step, n, start, i - 1, n + 1)
  }

  /** The state in which the walk reaches replicate `rep` of case `i`, from the start state. */
  function Reach(s: Setup, done: map<CaseRun, CheckpointCase>, a: Attempt, start: RunState, i: nat, rep: nat): RunState
    requires i <= |s.manifest.cases| && 1 <= rep && (rep > 1 ==> i < |s.manifest.cases|) && a.replicates >= 1
  {
    Walk(StepOf(s, done, a), a.replicates, start, i, rep)
  }

  function Final(s: Setup, done: map<CaseRun, CheckpointCase>, a: Attempt, start: RunState): RunState
    requires a.replicates >= 1
  {
    Reach(s, done, a, start, |s.manifest.cases|, 1)
  }

  // ------------------------------------------------------- one invocation

  datatype World = World(disk: Option<RunCheckpoint>, bill: seq<CaseRun>)

  datatype Ending = Refused | Interrupted | Finished(board: Board, fits: seq<Fit>)

  function NewCheckpoint(s: Setup): RunCheckpoint {
    RunCheckpoint(s.reproHash, s.manifest.suite, s.manifest.suiteVersion, Some(SortedCopy(s.roster)), ROSTER_FORMAT_UNION, [])
  }

  predicate WithinRun(s: Setup, replicates: int, run: CaseRun) {
    0 <= run.index < |s.manifest.cases| && run.replicate <= replicates
  }

  /** The guards between loading a checkpoint and running the first case. */
  function OpenCheckpoint(s: Setup, replicates: int, disk: Option<RunCheckpoint>): Result<RunCheckpoint> {
    if disk.None? then Ok(NewCheckpoint(s))
    else if !Integrity(disk.value) then Err
    else if !SameSuite(disk.value, s.reproHash, s.manifest.suite, s.manifest.suiteVersion) then Err
    else
      match RosterGuard(disk.value, s.roster, s.legacyRoster)
      case Err => Err
      case Ok(cp) =>
        if forall run :: run in DoneMap(cp.cases) ==> WithinRun(s, replicates, run) then Ok(cp)
        else Err
  }

  function Opened(s: Setup, a: Attempt, disk: Option<RunCheckpoint>): Result<Option<RunCheckpoint>> {
    if a.replicates < 1 then Err
    else if !a.checkpointed then Ok(None)
    else
      match OpenCheckpoint(s, a.replicates, disk)
      case Err => Err
      case Ok(cp) => Ok(Some(cp))
  }

  function DoneOf(cp: Option<RunCheckpoint>): map<CaseRun, CheckpointCase> {
    if cp.None? then map[] else DoneMap(cp.value.cases)
  }

  function StartState(cp: Option<RunCheckpoint>, w: World): RunState {
    RunState(EMPTY_BOARD, [], cp, w.disk, w.bill, false)
  }

  function EndOf(st: RunState): Ending {
    if st.stopped then Interrupted else Finished(st.board, st.fits)
  }

  function Invoke(s: Setup, a: Attempt, w: World): (World, Ending) {
    match Opened(s, a, w.disk)
    case Err => (w, Refused)
    case Ok(cp) =>
      var st := Final(s, DoneOf(cp), a, StartState(cp, w));
      (World(st.disk, st.bill), EndOf(st))
  }

  /** The run nobody interrupts and nothing is resumed from. */
  function Uninterrupted(s: Setup, replicates: int, panel: CaseRun -> PoolSummary): Ending {
    Invoke(s, Attempt(replicates, false, panel, run => RunsOn), World(None, [])).1
  }

  // --------------------------------------------------- the loop, imperatively

  /** The checkpoint file, replaced whole by each save. */
  class Disk {
    var file: Option<RunCheckpoint>

    constructor (f: Option<RunCheckpoint>)
      ensures file == f
    {
      file := f;
    }
  }

  method FoldOutcomes(add: AddCost, board: ScoreBoard, os: seq<CaseOutcome>) returns (ok: bool)
    modifies board
    ensures ok <==> ApplyAll(add, old(board.State()), os).Ok?
    ensures ok ==> ApplyAll(add, old(board.State()), os) == Ok(board.State())
  {
    for k := 0 to |os|
      invariant ApplyAll(add, old(board.State()), os[..k]) == Ok(board.State())
    {
      assert os[..k + 1][..k] == os[..k];
      assert os == os[..k + 1] + os[k + 1..];
      ApplyAllConcat(add, old(board.State()), os[..k + 1], os[k + 1..]);
      var folded := board.Fold(add, os[k]);
      if !folded {
        ErrStays(add, old(board.State()), os[..k + 1], os[k + 1..]);
        return false;
      }
    }
    assert os[..|os|] == os;
    return true;
  }

  lemma ErrStays(add: AddCost, b: Board, xs: seq<CaseOutcome>, ys: seq<CaseOutcome>)
    requires ApplyAll(add, b, xs).Err?
    ensures ApplyAll(add, b, xs + ys).Err?
  {
    ApplyAllConcat(add, b, xs, ys);
  }

  /** The body of the inner loop: replay a recorded case run, or execute, score and save it. */
  method RunCase(s: Setup, done: map<CaseRun, CheckpointCase>, a: Attempt, run: CaseRun,
                 board: ScoreBoard, disk: Disk, fits: seq<Fit>, cp: Option<RunCheckpoint>, bill: seq<CaseRun>)
    returns (stopped: bool, fits': seq<Fit>, cp': Option<RunCheckpoint>, paid: seq<CaseRun>)
    requires 0 <= run.index < |s.manifest.cases|
    modifies board, disk
    ensures var next := Step(s, done, a, RunState(old(board.State()), fits, cp, old(disk.file), bill, false), run);
            && stopped == next.stopped && disk.file == next.disk && paid == next.bill
            && (!stopped ==> next == RunState(board.State(), fits', cp', disk.file, paid, false))
  {
    var c := s.manifest.cases[run.index];
    stopped, fits', cp', paid := true, fits, cp, bill;
    if run in done {
      var e := done[run];
      if a.fate(run) != RunsOn || e.caseID != c.id {
        return;
      }
      if run.replicate == 1 {
        var ok := FoldOutcomes(s.add, board, ReplayOutcomes(e, c.expected));
        if !ok {
          return;
        }
      }
      fits' := fits + CheckpointFitRows(e);
      stopped := false;
      return;
    }
    if a.fate(run) == DiesUnpaid {
      return;
    }
    paid := bill + [run];
    var p := a.panel(run);
    if run.replicate == 1 {
      var ok := FoldOutcomes(s.add, board, FreshOutcomes(s, c, p));
      if !ok {
        return;
      }
    }
    fits' := fits + FitRows(c.id, run.replicate, Records(s, p));
    if a.fate(run) == DiesPaid {
      return;
    }
    if cp.Some? {
      cp' := Some(cp.value.(cases := cp.value.cases + [EntryOf(s, run, p)]));
      disk.file := cp';
    }
    stopped := a.fate(run) == DiesSaved;
  }

  /** Once stopped, the walk keeps its state to the end. */
  lemma {:induction false} StoppedStays(s: Setup, done: map<CaseRun, CheckpointCase>, a: Attempt, start: RunState, i: nat, rep: nat)
    requires i < |s.manifest.cases| && 1 <= rep <= a.replicates + 1 && a.replicates >= 1
    requires Reach(s, done, a, start, i, rep).stopped
    ensures Final(s, done, a, start) == Reach(s, done, a, start, i, rep)
    decreases |s.manifest.cases| - i, a.replicates + 1 - rep
  {
    if rep <= a.replicates {
      StoppedStays(s, done, a, start, i, rep + 1);
    } else {
      assert Reach(s, done, a, start, i + 1, 1) == Reach(s, done, a, start, i, rep);
      if i + 1 < |s.manifest.cases| { StoppedStays(s, done, a, start, i + 1, 1); }
    }
  }

  /** The inner loop: every replicate of case `i`. */
  method RunReplicates(s: Setup, done: map<CaseRun, CheckpointCase>, a: Attempt, ghost start: RunState, i: nat,
                       board: ScoreBoard, disk: Disk, fits: seq<Fit>, cp: Option<RunCheckpoint>, bill: seq<CaseRun>)
    returns (stopped: bool, fits': seq<Fit>, cp': Option<RunCheckpoint>, paid: seq<CaseRun>)
    requires i < |s.manifest.cases| && a.replicates >= 1
    requires Reach(s, done, a, start, i, 1) == RunState(board.State(), fits, cp, disk.file, bill, false)
    modifies board, disk
    ensures stopped ==> var goal := Final(s, done, a, start); goal.stopped && goal.disk == disk.file && goal.bill == paid
    ensures !stopped ==>
              Reach(s, done, a, start, i + 1, 1) == RunState(board.State(), fits', cp', disk.file, paid, false)
  {
    stopped, fits', cp', paid := false, fits, cp, bill;
    var rep := 1;
    while rep <= a.replicates
      invariant 1 <= rep <= a.replicates + 1
      invariant Reach(s, done, a, start, i, rep) == RunState(board.State(), fits', cp', disk.file, paid, false)
    {
      stopped, fits', cp', paid := RunCase(s, done, a, CaseRun(i, rep), board, disk, fits', cp', paid);
      rep := rep + 1;
      if stopped {
        StoppedStays(s, done, a, start, i, rep);
        return;
      }
    }
  }

  /** `executeBenchmarkRunReplicates`: cases in suite order, each through all its replicates. */
  method ExecuteReplicates(s: Setup, a: Attempt, disk: Disk, bill: seq<CaseRun>) returns (ending: Ending, paid: seq<CaseRun>)
    modifies disk
    ensures (World(disk.file, paid), ending) == Invoke(s, a, World(old(disk.file), bill))
  {
    var w := World(disk.file, bill);
    var opening := Opened(s, a, disk.file);
    paid := bill;
    if opening.Err? {
      return Refused, paid;
    }
    var cp := opening.value;
    var done: map<CaseRun, CheckpointCase> := map[];
    if cp.Some? {
      done := DoneIndex(cp.value);
    }
    var board := new ScoreBoard();
    var fits: seq<Fit> := [];
    ghost var start := StartState(cp, w);
    var i := 0;
    while i < |s.manifest.cases|
      invariant 0 <= i <= |s.manifest.cases|
      invariant fresh(board)
      invariant Reach(s, done, a, start, i, 1) == RunState(board.State(), fits, cp, disk.file, paid, false)
    {
      var stopped;
      stopped, fits, cp, paid := RunReplicates(s, done, a, start, i, board, disk, fits, cp, paid);
      if stopped {
        return Interrupted, paid;
      }
      i := i + 1;
    }
    return Finished(board.State(), fits), paid;
  }
}
