/**
 Any number of crashing invocations of a checkpointed run, taken together: the file on
 disk stays sound, no saved case run is paid for again, and the invocation that finally
 finishes reports exactly what one uninterrupted run would have reported.
 */
module CrashResume {
  import opened Basics
  import opened Orders
  import opened Benchmark
  import opened ReviewerFold
  import opened Checkpoint
  import opened BenchmarkRun

  /** The world after a history of checkpointed invocations, from no file and no bill. */
  function After(s: Setup, history: seq<Attempt>): World {
    if history == [] then World(None, [])
    else
      var n := |history| - 1;
      Invoke(s, history[n], After(s, history[..n])).0
  }

  function SavedRuns(disk: Option<RunCheckpoint>): set<CaseRun> {
    if disk.None? then {} else Keys(disk.value.cases)
  }

  type Answers = map<CaseRun, PoolSummary>

  /** The panel answer behind every recorded case run once `a` has run too. */
  function Overlay(ans: Answers, runs: set<CaseRun>, a: Attempt): Answers {
    map run | run in runs :: if run in ans then ans[run] else a.panel(run)
  }

  /** For every saved case run, what the panel answered in the invocation that saved it. */
  function Answered(s: Setup, history: seq<Attempt>): Answers {
    if history == [] then map[]
    else
      var n := |history| - 1;
      Overlay(Answered(s, history[..n]), SavedRuns(After(s, history).disk), history[n])
  }

  // ------------------------------------------------------------- invariants

  predicate Entered(s: Setup, e: CheckpointCase, ans: Answers) {
    && 0 <= e.index < |s.manifest.cases|
    && e.replicate >= 1
    && e.Key() in ans
    && e == EntryOf(s, e.Key(), ans[e.Key()])
  }

  /** A checkpoint of this suite and panel that records exactly the answers `ans`. */
  ghost predicate Faithful(s: Setup, cp: RunCheckpoint, ans: Answers) {
    && SameSuite(cp, s.reproHash, s.manifest.suite, s.manifest.suiteVersion)
    && cp.roster == Some(SortedCopy(s.roster)) && cp.rosterFormat == ROSTER_FORMAT_UNION
    && KeysDistinct(cp.cases)
    && ans.Keys == Keys(cp.cases)
    && (forall i :: 0 <= i < |cp.cases| ==> Entered(s, cp.cases[i], ans))
  }

  ghost predicate FaithfulDisk(s: Setup, disk: Option<RunCheckpoint>, ans: Answers) {
    if disk.None? then ans == map[] else Faithful(s, disk.value, ans)
  }

  lemma SortedCopyIdempotent(roster: seq<string>)
    ensures SortedCopy(SortedCopy(roster)) == SortedCopy(roster)
  {
    SortPermutes(StringLess, roster);
    SortedCopiesAgree(SortedCopy(roster), roster);
  }

  /** A faithful file opens to itself; a missing one opens to an empty faithful checkpoint. */
  lemma OpensToItself(s: Setup, a: Attempt, disk: Option<RunCheckpoint>, ans: Answers)
    requires a.checkpointed && FaithfulDisk(s, disk, ans) && Opened(s, a, disk).Ok?
    ensures var cp := Opened(s, a, disk).value;
            && cp.Some? && Faithful(s, cp.value, ans)
            && (disk.Some? ==> cp == disk) && (disk.None? ==> cp.value.cases == [])
  {
    if disk.Some? { RosterUnchanged(s, disk.value); }
  }

  predicate Earlier(k: CaseRun, i: int, rep: int) {
    k.replicate >= 1 && (0 <= k.index < i || (0 <= k.index == i && k.replicate < rep))
  }

  /** What the in-memory checkpoint and the file hold on reaching (i, rep). */
  ghost predicate SaveInv(s: Setup, a: Attempt, ans: Answers, cp0: RunCheckpoint, disk0: Option<RunCheckpoint>,
                          st: RunState, i: int, rep: int) {
    && st.checkpoint.Some?
    && Faithful(s, st.checkpoint.value, Overlay(ans, Keys(st.checkpoint.value.cases), a))
    && Keys(cp0.cases) <= Keys(st.checkpoint.value.cases)
    && (forall k :: k in Keys(st.checkpoint.value.cases) ==> k in Keys(cp0.cases) || Earlier(k, i, rep))
    && (st.disk == st.checkpoint || (st.disk == disk0 && st.checkpoint == Some(cp0)))
  }

  lemma KeysSnoc(cases: seq<CheckpointCase>, e: CheckpointCase)
    ensures Keys(cases + [e]) == Keys(cases) + {e.Key()}
  {
  }

  /** Appending an entry under a key not yet recorded keeps a checkpoint faithful. */
  lemma RecordKeepsFaithful(s: Setup, a: Attempt, ans: Answers, cp: RunCheckpoint, run: CaseRun)
    requires 0 <= run.index < |s.manifest.cases| && run.replicate >= 1
    requires run !in Keys(cp.cases) && run !in ans
    requires Faithful(s, cp, Overlay(ans, Keys(cp.cases), a))
    ensures var cp' := cp.(cases := cp.cases + [EntryOf(s, run, a.panel(run))]);
            Faithful(s, cp', Overlay(ans, Keys(cp'.cases), a))
  {
    var e := EntryOf(s, run, a.panel(run));
    var cp' := cp.(cases := cp.cases + [e]);
    var before, after := Overlay(ans, Keys(cp.cases), a), Overlay(ans, Keys(cp'.cases), a);
    KeysSnoc(cp.cases, e);
    assert e.Key() == run;
    forall i | 0 <= i < |cp'.cases| ensures Entered(s, cp'.cases[i], after) {
      if i < |cp.cases| { assert Entered(s, cp.cases[i], before); }
    }
    forall i, j | 0 <= i < j < |cp'.cases| ensures cp'.cases[i].Key() != cp'.cases[j].Key() {
      if j == |cp.cases| { assert cp.cases[i] in cp.cases; }
    }
  }

  /** All a step can do to the bill, the in-memory checkpoint and the file. */
  ghost predicate Effect(s: Setup, done: map<CaseRun, CheckpointCase>, a: Attempt, st: RunState, run: CaseRun, st': RunState)
    requires 0 <= run.index < |s.manifest.cases|
  {
    && (st'.bill == st.bill || (run !in done && st'.bill == st.bill + [run]))
    && (|| (st'.checkpoint == st.checkpoint && st'.disk == st.disk)
        || (&& run !in done && st.checkpoint.Some? && st'.disk == st'.checkpoint
            && st'.checkpoint == Some(st.checkpoint.value.(cases := st.checkpoint.value.cases + [EntryOf(s, run, a.panel(run))]))))
  }

  lemma StepHasEffect(s: Setup, done: map<CaseRun, CheckpointCase>, a: Attempt, st: RunState, run: CaseRun)
    requires 0 <= run.index < |s.manifest.cases|
    ensures Effect(s, done, a, st, run, Step(s, done, a, st, run))
  {
  }

  /** An invariant of a state and its position in the walk. */
  type Invariant = (RunState, int, int) -> bool

  /** The step keeps it, and moving on to the next case does. */
  ghost predicate Inductive(inv: Invariant, step: Stepper, cases: int, n: int) {
    && (forall st, k, r :: inv(st, k, r) && 0 <= k < cases && 1 <= r <= n ==> inv(step(st, CaseRun(k, r)), k, r + 1))
    && (forall st, k, r :: inv(st, k, r) && r == n + 1 ==> inv(st, k + 1, 1))
  }

  /** Induction over the walk. */
  lemma {:induction false} WalkKeeps(inv: Invariant, step: Stepper, cases: int, n: int, start: RunState, i: nat, rep: nat)
    requires n >= 1 && 1 <= rep <= n + 1 && (if rep > 1 then i < cases else i <= cases)
    requires inv(start, 0, 1) && Inductive(inv, step, cases, n)
    ensures inv(Walk(step, n, start, i, rep), i, rep)
    decreases i, rep
  {
    if rep > 1 {
      WalkKeeps(inv, step, cases, n, start, i, rep - 1);
    } else if i > 0 {
      WalkKeeps(inv, step, cases, n, start, i - 1, n + 1);
    }
  }

  ghost function Saves(s: Setup, a: Attempt, ans: Answers, cp0: RunCheckpoint, disk0: Option<RunCheckpoint>): Invariant {
    (st: RunState, k: int, r: int) => SaveInv(s, a, ans, cp0, disk0, st, k, r)
  }

  lemma StepSaves(s: Setup, a: Attempt, ans: Answers, cp0: RunCheckpoint, disk0: Option<RunCheckpoint>, st: RunState, k: nat, r: nat)
    requires Faithful(s, cp0, ans) && k < |s.manifest.cases| && r >= 1 && SaveInv(s, a, ans, cp0, disk0, st, k, r)
    ensures SaveInv(s, a, ans, cp0, disk0, StepOf(s, DoneMap(cp0.cases), a)(st, CaseRun(k, r)), k, r + 1)
  {
    StepHasEffect(s, DoneMap(cp0.cases), a, st, CaseRun(k, r));
    EffectKeepsSaveInv(s, a, ans, cp0, disk0, st, CaseRun(k, r), Step(s, DoneMap(cp0.cases), a, st, CaseRun(k, r)));
  }

  lemma NextCaseSaves(s: Setup, a: Attempt, ans: Answers, cp0: RunCheckpoint, disk0: Option<RunCheckpoint>, st: RunState, k: int, r: int)
    requires SaveInv(s, a, ans, cp0, disk0, st, k, r)
    ensures SaveInv(s, a, ans, cp0, disk0, st, k + 1, 1)
  {
  }

  lemma SavesInductive(s: Setup, a: Attempt, ans: Answers, cp0: RunCheckpoint, disk0: Option<RunCheckpoint>)
    requires Faithful(s, cp0, ans)
    ensures Inductive(Saves(s, a, ans, cp0, disk0), StepOf(s, DoneMap(cp0.cases), a), |s.manifest.cases|, a.replicates)
  {
    var inv, step := Saves(s, a, ans, cp0, disk0), StepOf(s, DoneMap(cp0.cases), a);
    forall st, k, r | inv(st, k, r) && 0 <= k < |s.manifest.cases| && 1 <= r <= a.replicates ensures inv(step(st, CaseRun(k, r)), k, r + 1) {
      StepSaves(s, a, ans, cp0, disk0, st, k, r);
    }
    forall st, k, r | inv(st, k, r) && r == a.replicates + 1 ensures inv(st, k + 1, 1) {
      NextCaseSaves(s, a, ans, cp0, disk0, st, k, r);
    }
  }

  /** Every step of an invocation keeps the invariant. */
  lemma ReachSaveInv(s: Setup, a: Attempt, ans: Answers, cp0: RunCheckpoint, w: World, i: nat, rep: nat)
    requires Faithful(s, cp0, ans) && a.replicates >= 1
    requires i <= |s.manifest.cases| && 1 <= rep <= a.replicates + 1 && (rep > 1 ==> i < |s.manifest.cases|)
    ensures SaveInv(s, a, ans, cp0, w.disk, Reach(s, DoneMap(cp0.cases), a, StartState(Some(cp0), w), i, rep), i, rep)
  {
    SavesInductive(s, a, ans, cp0, w.disk);
    assert Overlay(ans, Keys(cp0.cases), a) == ans;
    WalkKeeps(Saves(s, a, ans, cp0, w.disk), StepOf(s, DoneMap(cp0.cases), a), |s.manifest.cases|, a.replicates, StartState(Some(cp0), w), i, rep);
  }

  lemma EffectKeepsSaveInv(s: Setup, a: Attempt, ans: Answers, cp0: RunCheckpoint, disk0: Option<RunCheckpoint>,
                           st: RunState, run: CaseRun, st': RunState)
    requires Faithful(s, cp0, ans) && 0 <= run.index < |s.manifest.cases| && run.replicate >= 1
    requires SaveInv(s, a, ans, cp0, disk0, st, run.index, run.replicate)
    requires Effect(s, DoneMap(cp0.cases), a, st, run, st')
    ensures SaveInv(s, a, ans, cp0, disk0, st', run.index, run.replicate + 1)
  {
    if st'.checkpoint != st.checkpoint || st'.disk != st.disk {
      assert run !in Keys(cp0.cases);
      assert run !in Keys(st.checkpoint.value.cases);
      RecordKeepsFaithful(s, a, ans, st.checkpoint.value, run);
      KeysSnoc(st.checkpoint.value.cases, EntryOf(s, run, a.panel(run)));
    }
  }

  /** Across any history of invocations the file records exactly the answers that were saved. */
  lemma {:induction false} HistoryIsFaithful(s: Setup, history: seq<Attempt>)
    requires forall a :: a in history ==> a.checkpointed
    ensures FaithfulDisk(s, After(s, history).disk, Answered(s, history))
  {
    if history != [] {
      var n := |history| - 1;
      HistoryIsFaithful(s, history[..n]);
      InvokeIsFaithful(s, history[n], After(s, history[..n]), Answered(s, history[..n]));
    }
  }

  /** An opened invocation is its walk from the opened checkpoint. */
  lemma InvokeShape(s: Setup, a: Attempt, w: World, ans: Answers) returns (cp: RunCheckpoint, st: RunState)
    requires a.checkpointed && FaithfulDisk(s, w.disk, ans) && Opened(s, a, w.disk).Ok?
    ensures a.replicates >= 1 && Faithful(s, cp, ans)
    ensures w.disk == Some(cp) || (w.disk.None? && cp.cases == [] && ans == map[])
    ensures st == Final(s, DoneMap(cp.cases), a, StartState(Some(cp), w))
    ensures Invoke(s, a, w) == (World(st.disk, st.bill), EndOf(st))
  {
    OpensToItself(s, a, w.disk, ans);
    cp := Opened(s, a, w.disk).value.value;
    st := Final(s, DoneMap(cp.cases), a, StartState(Some(cp), w));
  }

  lemma WalkIsFaithful(s: Setup, a: Attempt, ans: Answers, cp: RunCheckpoint, w: World, st: RunState)
    requires a.replicates >= 1 && Faithful(s, cp, ans)
    requires w.disk == Some(cp) || (w.disk.None? && cp.cases == [] && ans == map[])
    requires st == Final(s, DoneMap(cp.cases), a, StartState(Some(cp), w))
    ensures FaithfulDisk(s, st.disk, Overlay(ans, SavedRuns(st.disk), a))
    ensures SavedRuns(w.disk) <= SavedRuns(st.disk)
  {
    ReachSaveInv(s, a, ans, cp, w, |s.manifest.cases|, 1);
    assert SaveInv(s, a, ans, cp, w.disk, st, |s.manifest.cases|, 1);
    assert Overlay(ans, Keys(cp.cases), a) == ans;
    if st.disk.None? { assert Overlay(ans, {}, a) == map[]; }
  }

  lemma InvokeIsFaithful(s: Setup, a: Attempt, w: World, ans: Answers)
    requires a.checkpointed && FaithfulDisk(s, w.disk, ans)
    ensures var w' := Invoke(s, a, w).0;
            && FaithfulDisk(s, w'.disk, Overlay(ans, SavedRuns(w'.disk), a))
            && SavedRuns(w.disk) <= SavedRuns(w'.disk)
  {
    if Opened(s, a, w.disk).Ok? {
      var cp, st := InvokeShape(s, a, w, ans);
      WalkIsFaithful(s, a, ans, cp, w, st);
    } else {
      assert Overlay(ans, SavedRuns(w.disk), a) == ans;
    }
  }

  // ------------------------------------------------------- the file is sound

  ghost predicate KnownOutcomes(p: PoolSummary) {
    forall j :: 0 <= j < |p.agents| ==> ValidOutcome(p.agents[j].outcome)
  }

  lemma FaithfulIsSound(s: Setup, cp: RunCheckpoint, ans: Answers)
    requires Faithful(s, cp, ans)
    requires forall c :: c in s.manifest.cases ==> c.id != ""
    requires forall run :: run in ans ==> KnownOutcomes(ans[run])
    ensures Integrity(cp)
  {
    forall i | 0 <= i < |cp.cases| ensures EntryWellFormed(cp.cases[i]) {
      var e := cp.cases[i];
      assert Entered(s, e, ans);
      assert KnownOutcomes(ans[e.Key()]);
      assert s.manifest.cases[e.index] in s.manifest.cases;
    }
  }

  lemma {:induction false} AnswersAreKnown(s: Setup, history: seq<Attempt>)
    requires forall a, run :: a in history ==> KnownOutcomes(a.panel(run))
    ensures forall run :: run in Answered(s, history) ==> KnownOutcomes(Answered(s, history)[run])
  {
    if history != [] { AnswersAreKnown(s, history[..|history| - 1]); }
  }

  /** Every file a history of crashing invocations leaves behind passes the integrity check. */
  lemma SavedFileIsSound(s: Setup, history: seq<Attempt>)
    requires forall a :: a in history ==> a.checkpointed
    requires forall c :: c in s.manifest.cases ==> c.id != ""
    requires forall a, run :: a in history ==> KnownOutcomes(a.panel(run))
    ensures After(s, history).disk.Some? ==> Integrity(After(s, history).disk.value)
  {
    HistoryIsFaithful(s, history);
    AnswersAreKnown(s, history);
    if After(s, history).disk.Some? { FaithfulIsSound(s, After(s, history).disk.value, Answered(s, history)); }
  }

  /** A resume is admitted exactly when it asks for at least as many replicates as are recorded. */
  lemma ResumeAdmittedIff(s: Setup, history: seq<Attempt>, a: Attempt)
    requires forall b :: b in history ==> b.checkpointed
    requires forall c :: c in s.manifest.cases ==> c.id != ""
    requires forall b, run :: b in history ==> KnownOutcomes(b.panel(run))
    requires a.checkpointed
    ensures Invoke(s, a, After(s, history)).1 != Refused <==>
            a.replicates >= 1 && forall run :: run in SavedRuns(After(s, history).disk) ==> run.replicate <= a.replicates
    ensures Invoke(s, a, After(s, history)).1 == Refused ==> Invoke(s, a, After(s, history)).0 == After(s, history)
  {
    HistoryIsFaithful(s, history);
    SavedFileIsSound(s, history);
    var disk := After(s, history).disk;
    if disk.Some? {
      RosterUnchanged(s, disk.value);
      IndicesInSuite(s, disk.value, Answered(s, history));
      OpensIff(s, a, disk.value);
    }
  }

  lemma OpensIff(s: Setup, a: Attempt, cp: RunCheckpoint)
    requires Integrity(cp) && SameSuite(cp, s.reproHash, s.manifest.suite, s.manifest.suiteVersion)
    requires RosterGuard(cp, s.roster, s.legacyRoster) == Ok(cp)
    requires forall run :: run in Keys(cp.cases) ==> 0 <= run.index < |s.manifest.cases|
    ensures OpenCheckpoint(s, a.replicates, Some(cp)).Ok? <==> forall run :: run in Keys(cp.cases) ==> run.replicate <= a.replicates
  {
    assert forall run :: run in DoneMap(cp.cases) <==> run in Keys(cp.cases);
  }

  lemma RosterUnchanged(s: Setup, cp: RunCheckpoint)
    requires cp.roster == Some(SortedCopy(s.roster))
    ensures RosterGuard(cp, s.roster, s.legacyRoster) == Ok(cp)
  {
    SortedCopyIdempotent(s.roster);
  }

  lemma IndicesInSuite(s: Setup, cp: RunCheckpoint, ans: Answers)
    requires Faithful(s, cp, ans)
    ensures forall run :: run in Keys(cp.cases) ==> 0 <= run.index < |s.manifest.cases|
  {
    forall run | run in Keys(cp.cases) ensures 0 <= run.index < |s.manifest.cases| {
      var e :| e in cp.cases && e.Key() == run;
      var i :| 0 <= i < |cp.cases| && cp.cases[i] == e;
      assert Entered(s, cp.cases[i], ans);
    }
  }

  // ---------------------------------------------------- paid at most once

  /** The case runs an invocation pays for: none already saved, none twice. */
  ghost predicate BillInv(cp0: RunCheckpoint, bill0: seq<CaseRun>, st: RunState, i: int, rep: int) {
    && bill0 <= st.bill
    && var added := st.bill[|bill0|..];
    && Distinct(added)
    && (forall k :: 0 <= k < |added| ==> added[k] !in Keys(cp0.cases) && Earlier(added[k], i, rep))
  }

  ghost function Bills(cp0: RunCheckpoint, bill0: seq<CaseRun>): Invariant {
    (st: RunState, k: int, r: int) => BillInv(cp0, bill0, st, k, r)
  }

  lemma BillsInductive(s: Setup, a: Attempt, cp0: RunCheckpoint, bill0: seq<CaseRun>)
    ensures Inductive(Bills(cp0, bill0), StepOf(s, DoneMap(cp0.cases), a), |s.manifest.cases|, a.replicates)
  {
    var inv, step := Bills(cp0, bill0), StepOf(s, DoneMap(cp0.cases), a);
    forall st, k, r | inv(st, k, r) && 0 <= k < |s.manifest.cases| && 1 <= r <= a.replicates ensures inv(step(st, CaseRun(k, r)), k, r + 1) {
      StepHasEffect(s, DoneMap(cp0.cases), a, st, CaseRun(k, r));
      EffectKeepsBillInv(s, a, cp0, bill0, st, CaseRun(k, r), step(st, CaseRun(k, r)));
    }
  }

  lemma ReachBillInv(s: Setup, a: Attempt, cp0: RunCheckpoint, w: World, i: nat, rep: nat)
    requires a.replicates >= 1
    requires i <= |s.manifest.cases| && 1 <= rep <= a.replicates + 1 && (rep > 1 ==> i < |s.manifest.cases|)
    ensures BillInv(cp0, w.bill, Reach(s, DoneMap(cp0.cases), a, StartState(Some(cp0), w), i, rep), i, rep)
  {
    BillsInductive(s, a, cp0, w.bill);
    WalkKeeps(Bills(cp0, w.bill), StepOf(s, DoneMap(cp0.cases), a), |s.manifest.cases|, a.replicates, StartState(Some(cp0), w), i, rep);
  }

  lemma EffectKeepsBillInv(s: Setup, a: Attempt, cp0: RunCheckpoint, bill0: seq<CaseRun>, st: RunState, run: CaseRun, st': RunState)
    requires 0 <= run.index < |s.manifest.cases| && run.replicate >= 1
    requires BillInv(cp0, bill0, st, run.index, run.replicate) && Effect(s, DoneMap(cp0.cases), a, st, run, st')
    ensures BillInv(cp0, bill0, st', run.index, run.replicate + 1)
  {
    assert (st.bill + [run])[|bill0|..] == st.bill[|bill0|..] + [run];
  }

  lemma InvokePaysOnce(s: Setup, a: Attempt, w: World, ans: Answers)
    requires a.checkpointed && FaithfulDisk(s, w.disk, ans)
    ensures var w' := Invoke(s, a, w).0;
            && w.bill <= w'.bill
            && Distinct(w'.bill[|w.bill|..])
            && forall k :: |w.bill| <= k < |w'.bill| ==> w'.bill[k] !in SavedRuns(w.disk)
  {
    if Opened(s, a, w.disk).Ok? {
      var cp, st := InvokeShape(s, a, w, ans);
      ReachBillInv(s, a, cp, w, |s.manifest.cases|, 1);
      assert BillInv(cp, w.bill, st, |s.manifest.cases|, 1);
      var w' := Invoke(s, a, w).0;
      forall k | |w.bill| <= k < |w'.bill| ensures w'.bill[k] !in SavedRuns(w.disk) {
        assert w'.bill[k] == w'.bill[|w.bill|..][k - |w.bill|];
      }
    } else {
      assert w.bill[|w.bill|..] == [];
    }
  }

  /** A case run saved by the first `m` invocations is never paid for by a later one. */
  lemma {:induction false} NeverPaidAgain(s: Setup, history: seq<Attempt>, m: nat)
    requires forall a :: a in history ==> a.checkpointed
    requires m <= |history|
    ensures var early, late := After(s, history[..m]), After(s, history);
            && early.bill <= late.bill
            && SavedRuns(early.disk) <= SavedRuns(late.disk)
            && forall k :: |early.bill| <= k < |late.bill| ==> late.bill[k] !in SavedRuns(early.disk)
  {
    if m == |history| {
      assert history[..m] == history;
    } else {
      var n := |history| - 1;
      NeverPaidAgain(s, history[..n], m);
      assert history[..n][..m] == history[..m];
      var mid := After(s, history[..n]);
      HistoryIsFaithful(s, history[..n]);
      InvokePaysOnce(s, history[n], mid, Answered(s, history[..n]));
      InvokeIsFaithful(s, history[n], mid, Answered(s, history[..n]));
    }
  }

  // ------------------------------------------------- crash/resume equivalence

  /** `p` answers as recorded where the file has an answer, and as `a`'s panel elsewhere. */
  ghost predicate Agrees(p: CaseRun -> PoolSummary, ans: Answers, a: Attempt) {
    forall run :: p(run) == if run in ans then ans[run] else a.panel(run)
  }

  function Steady(replicates: int, p: CaseRun -> PoolSummary): Attempt {
    Attempt(replicates, false, p, run => RunsOn)
  }

  /** The next state scores panel answer `q` and adds its fit rows, if the score accepts it. */
  ghost predicate Takes(s: Setup, board: Board, fits: seq<Fit>, run: CaseRun, q: PoolSummary, next: RunState)
    requires 0 <= run.index < |s.manifest.cases|
  {
    var c := s.manifest.cases[run.index];
    && ScoreReplicate(s, board, run.replicate, FreshOutcomes(s, c, q)) == Ok(next.board)
    && next.fits == fits + FitRows(c.id, run.replicate, Records(s, q))
  }

  lemma ReplayTakes(s: Setup, a: Attempt, st: RunState, run: CaseRun, q: PoolSummary)
    requires 0 <= run.index < |s.manifest.cases| && run.replicate >= 1
    requires !ReplayStep(s, a, st, run, EntryOf(s, run, q)).stopped
    ensures Takes(s, st.board, st.fits, run, q, ReplayStep(s, a, st, run, EntryOf(s, run, q)))
  {
    ReplayIsFresh(s, run, q);
  }

  lemma ExecuteTakes(s: Setup, a: Attempt, st: RunState, run: CaseRun)
    requires 0 <= run.index < |s.manifest.cases| && !ExecuteStep(s, a, st, run).stopped
    ensures Takes(s, st.board, st.fits, run, a.panel(run), ExecuteStep(s, a, st, run))
  {
  }

  /** A step that does not stop takes the kept answer where there is one, and the panel's elsewhere. */
  lemma StepTakes(s: Setup, cp: RunCheckpoint, ans: Answers, a: Attempt, st: RunState, run: CaseRun)
    requires Faithful(s, cp, ans) && 0 <= run.index < |s.manifest.cases| && run.replicate >= 1
    requires !Step(s, DoneMap(cp.cases), a, st, run).stopped
    ensures Takes(s, st.board, st.fits, run, if run in ans then ans[run] else a.panel(run), Step(s, DoneMap(cp.cases), a, st, run))
  {
    if run in Keys(cp.cases) {
      var e :| e in cp.cases && e.Key() == run;
      var i :| 0 <= i < |cp.cases| && cp.cases[i] == e;
      DoneMapIsFaithful(cp.cases, i);
      assert Entered(s, cp.cases[i], ans);
      ReplayTakes(s, a, st, run, ans[run]);
    } else {
      ExecuteTakes(s, a, st, run);
    }
  }

  /** The uninterrupted run follows: it takes the same answer from the same state. */
  lemma SteadyFollows(s: Setup, n: int, p: CaseRun -> PoolSummary, plain: RunState, run: CaseRun, next: RunState)
    requires 0 <= run.index < |s.manifest.cases| && !plain.stopped && plain.checkpoint.None?
    requires Takes(s, plain.board, plain.fits, run, p(run), next)
    ensures var plain' := Step(s, map[], Steady(n, p), plain, run);
            plain'.board == next.board && plain'.fits == next.fits && !plain'.stopped && plain'.checkpoint.None?
  {
  }

  /** Two walks in step. */
  ghost predicate InStep(st: RunState, plain: RunState) {
    plain.board == st.board && plain.fits == st.fits && !plain.stopped && plain.checkpoint.None?
  }

  lemma StepMatches(s: Setup, cp: RunCheckpoint, ans: Answers, a: Attempt, p: CaseRun -> PoolSummary,
                    st: RunState, plain: RunState, run: CaseRun, next: RunState)
    requires Faithful(s, cp, ans) && Agrees(p, ans, a)
    requires 0 <= run.index < |s.manifest.cases| && run.replicate >= 1
    requires InStep(st, plain) && next == Step(s, DoneMap(cp.cases), a, st, run) && !next.stopped
    ensures InStep(next, Step(s, map[], Steady(a.replicates, p), plain, run))
  {
    StepTakes(s, cp, ans, a, st, run);
    SteadyFollows(s, a.replicates, p, plain, run, next);
  }

  /** `follow` keeps in step with `lead` as long as `lead` does not stop. */
  ghost predicate Simulates(lead: Stepper, follow: Stepper, cases: int) {
    forall st: RunState, plain: RunState, run: CaseRun :: 0 <= run.index < cases && run.replicate >= 1 && InStep(st, plain) && !lead(st, run).stopped ==>
      InStep(lead(st, run), follow(plain, run))
  }

  ghost predicate StopsForGood(step: Stepper) {
    forall st: RunState, run: CaseRun :: st.stopped ==> step(st, run).stopped
  }

  lemma {:induction false} WalksKeepInStep(lead: Stepper, follow: Stepper, cases: int, n: int, start: RunState, plain: RunState, i: nat, rep: nat)
    requires n >= 1 && 1 <= rep <= n + 1 && (if rep > 1 then i < cases else i <= cases)
    requires Simulates(lead, follow, cases) && StopsForGood(lead) && InStep(start, plain)
    requires !Walk(lead, n, start, i, rep).stopped
    ensures InStep(Walk(lead, n, start, i, rep), Walk(follow, n, plain, i, rep))
    decreases i, rep
  {
    if rep > 1 {
      WalksKeepInStep(lead, follow, cases, n, start, plain, i, rep - 1);
    } else if i > 0 {
      WalksKeepInStep(lead, follow, cases, n, start, plain, i - 1, n + 1);
    }
  }

  lemma ResumeSimulates(s: Setup, cp: RunCheckpoint, ans: Answers, a: Attempt, p: CaseRun -> PoolSummary)
    requires Faithful(s, cp, ans) && Agrees(p, ans, a)
    ensures Simulates(StepOf(s, DoneMap(cp.cases), a), StepOf(s, map[], Steady(a.replicates, p)), |s.manifest.cases|)
  {
    var lead, follow := StepOf(s, DoneMap(cp.cases), a), StepOf(s, map[], Steady(a.replicates, p));
    forall st: RunState, plain: RunState, run: CaseRun | 0 <= run.index < |s.manifest.cases| && run.replicate >= 1 && InStep(st, plain) && !lead(st, run).stopped
      ensures InStep(lead(st, run), follow(plain, run))
    {
      StepMatches(s, cp, ans, a, p, st, plain, run, lead(st, run));
    }
  }

  lemma StepsStopForGood(s: Setup, done: map<CaseRun, CheckpointCase>, a: Attempt)
    ensures StopsForGood(StepOf(s, done, a))
  {
  }

  lemma FinalMatches(s: Setup, cp: RunCheckpoint, ans: Answers, a: Attempt, p: CaseRun -> PoolSummary, start: RunState)
    requires Faithful(s, cp, ans) && Agrees(p, ans, a) && a.replicates >= 1
    requires InStep(start, StartState(None, World(None, []))) && !Final(s, DoneMap(cp.cases), a, start).stopped
    ensures InStep(Final(s, DoneMap(cp.cases), a, start), Final(s, map[], Steady(a.replicates, p), StartState(None, World(None, []))))
  {
    var n, plain := |s.manifest.cases|, StartState(None, World(None, []));
    ResumeSimulates(s, cp, ans, a, p);
    StepsStopForGood(s, DoneMap(cp.cases), a);
    WalksKeepInStep(StepOf(s, DoneMap(cp.cases), a), StepOf(s, map[], Steady(a.replicates, p)), n, a.replicates, start, plain, n, 1);
  }

  // ------------------------------------------------ an unkilled resume keeps going

  /** Two walks that go on or stop together. */
  ghost predicate Locked(st: RunState, plain: RunState) {
    plain.checkpoint.None? && plain.stopped == st.stopped && (!st.stopped ==> InStep(st, plain))
  }

  /** What a step of an unkilled walk stops on: the score refuses the answer. */
  ghost predicate Refuses(s: Setup, board: Board, run: CaseRun, q: PoolSummary)
    requires 0 <= run.index < |s.manifest.cases|
  {
    ScoreReplicate(s, board, run.replicate, FreshOutcomes(s, s.manifest.cases[run.index], q)).Err?
  }

  lemma ReplayStops(s: Setup, a: Attempt, st: RunState, run: CaseRun, q: PoolSummary)
    requires 0 <= run.index < |s.manifest.cases| && run.replicate >= 1 && a.fate(run) == RunsOn && !st.stopped
    requires ReplayStep(s, a, st, run, EntryOf(s, run, q)).stopped
    ensures Refuses(s, st.board, run, q)
  {
    ReplayIsFresh(s, run, q);
  }

  lemma StepStops(s: Setup, cp: RunCheckpoint, ans: Answers, a: Attempt, st: RunState, run: CaseRun)
    requires Faithful(s, cp, ans) && 0 <= run.index < |s.manifest.cases| && run.replicate >= 1
    requires a.fate(run) == RunsOn && !st.stopped && Step(s, DoneMap(cp.cases), a, st, run).stopped
    ensures Refuses(s, st.board, run, if run in ans then ans[run] else a.panel(run))
  {
    if run in Keys(cp.cases) {
      var e :| e in cp.cases && e.Key() == run;
      var i :| 0 <= i < |cp.cases| && cp.cases[i] == e;
      DoneMapIsFaithful(cp.cases, i);
      assert Entered(s, cp.cases[i], ans);
      ReplayStops(s, a, st, run, ans[run]);
    }
  }

  lemma SteadyStops(s: Setup, n: int, p: CaseRun -> PoolSummary, plain: RunState, run: CaseRun)
    requires 0 <= run.index < |s.manifest.cases| && !plain.stopped && plain.checkpoint.None?
    requires Refuses(s, plain.board, run, p(run))
    ensures var plain' := Step(s, map[], Steady(n, p), plain, run); plain'.stopped && plain'.checkpoint.None?
  {
  }

  lemma StepLocks(s: Setup, cp: RunCheckpoint, ans: Answers, a: Attempt, p: CaseRun -> PoolSummary, st: RunState, plain: RunState, run: CaseRun)
    requires Faithful(s, cp, ans) && Agrees(p, ans, a) && a.fate(run) == RunsOn
    requires 0 <= run.index < |s.manifest.cases| && run.replicate >= 1 && Locked(st, plain)
    ensures Locked(Step(s, DoneMap(cp.cases), a, st, run), Step(s, map[], Steady(a.replicates, p), plain, run))
  {
    if !st.stopped {
      var next := Step(s, DoneMap(cp.cases), a, st, run);
      if next.stopped {
        StepStops(s, cp, ans, a, st, run);
        SteadyStops(s, a.replicates, p, plain, run);
      } else {
        StepMatches(s, cp, ans, a, p, st, plain, run, next);
      }
    }
  }

  /** Whatever one walk does, the other does. */
  ghost predicate Bisimulates(lead: Stepper, follow: Stepper, cases: int) {
    forall st: RunState, plain: RunState, run: CaseRun :: 0 <= run.index < cases && run.replicate >= 1 && Locked(st, plain) ==>
      Locked(lead(st, run), follow(plain, run))
  }

  lemma {:induction false} WalksStayLocked(lead: Stepper, follow: Stepper, cases: int, n: int, start: RunState, plain: RunState, i: nat, rep: nat)
    requires n >= 1 && 1 <= rep <= n + 1 && (if rep > 1 then i < cases else i <= cases)
    requires Bisimulates(lead, follow, cases) && Locked(start, plain)
    ensures Locked(Walk(lead, n, start, i, rep), Walk(follow, n, plain, i, rep))
    decreases i, rep
  {
    if rep > 1 {
      WalksStayLocked(lead, follow, cases, n, start, plain, i, rep - 1);
    } else if i > 0 {
      WalksStayLocked(lead, follow, cases, n, start, plain, i - 1, n + 1);
    }
  }

  lemma UnkilledBisimulates(s: Setup, cp: RunCheckpoint, ans: Answers, a: Attempt, p: CaseRun -> PoolSummary)
    requires Faithful(s, cp, ans) && Agrees(p, ans, a) && forall run :: a.fate(run) == RunsOn
    ensures Bisimulates(StepOf(s, DoneMap(cp.cases), a), StepOf(s, map[], Steady(a.replicates, p)), |s.manifest.cases|)
  {
    forall st: RunState, plain: RunState, run: CaseRun | 0 <= run.index < |s.manifest.cases| && run.replicate >= 1 && Locked(st, plain)
      ensures Locked(StepOf(s, DoneMap(cp.cases), a)(st, run), StepOf(s, map[], Steady(a.replicates, p))(plain, run))
    {
      StepLocks(s, cp, ans, a, p, st, plain, run);
    }
  }

  lemma FinalLocks(s: Setup, cp: RunCheckpoint, ans: Answers, a: Attempt, p: CaseRun -> PoolSummary, start: RunState)
    requires Faithful(s, cp, ans) && Agrees(p, ans, a) && a.replicates >= 1 && forall run :: a.fate(run) == RunsOn
    requires Locked(start, StartState(None, World(None, [])))
    ensures Locked(Final(s, DoneMap(cp.cases), a, start), Final(s, map[], Steady(a.replicates, p), StartState(None, World(None, []))))
  {
    var n, plain := |s.manifest.cases|, StartState(None, World(None, []));
    UnkilledBisimulates(s, cp, ans, a, p);
    WalksStayLocked(StepOf(s, DoneMap(cp.cases), a), StepOf(s, map[], Steady(a.replicates, p)), n, a.replicates, start, plain, n, 1);
  }

  /**
   The headline: after any history of crashing invocations, an invocation that finishes
   ends with the accumulators, the first-sighting order and the fit rows of one
   uninterrupted run whose panel gives, for each case run, the answer that was kept; and
   an admitted invocation that nobody kills ends exactly as that run ends, so it finishes
   whenever that run does.
   */
  lemma CrashResumeEquivalence(s: Setup, history: seq<Attempt>, last: Attempt, p: CaseRun -> PoolSummary)
    requires forall a :: a in history ==> a.checkpointed
    requires last.checkpointed && Agrees(p, Answered(s, history), last)
    ensures var end := Invoke(s, last, After(s, history)).1;
            && (end.Finished? ==> end == Uninterrupted(s, last.replicates, p))
            && (!end.Refused? && (forall run :: last.fate(run) == RunsOn) ==> end == Uninterrupted(s, last.replicates, p))
  {
    var w, ans := After(s, history), Answered(s, history);
    HistoryIsFaithful(s, history);
    if Opened(s, last, w.disk).Ok? {
      var cp, st := InvokeShape(s, last, w, ans);
      if !st.stopped { FinalMatches(s, cp, ans, last, p, StartState(Some(cp), w)); }
      if forall run :: last.fate(run) == RunsOn { FinalLocks(s, cp, ans, last, p, StartState(Some(cp), w)); }
    }
  }

  /** No file of a history holds a replicate the resume does not ask for. */
  ghost predicate AsksForEnough(s: Setup, history: seq<Attempt>, a: Attempt) {
    a.replicates >= 1 && forall run :: run in SavedRuns(After(s, history).disk) ==> run.replicate <= a.replicates
  }

  /**
   A resume that asks for at least the recorded replicates and is not killed ends as the
   uninterrupted run ends, whatever crashed before it.
   */
  lemma UnkilledResumeIsTheRun(s: Setup, history: seq<Attempt>, last: Attempt, p: CaseRun -> PoolSummary)
    requires forall a :: a in history ==> a.checkpointed
    requires forall c :: c in s.manifest.cases ==> c.id != ""
    requires forall a, run :: a in history ==> KnownOutcomes(a.panel(run))
    requires last.checkpointed && Agrees(p, Answered(s, history), last)
    requires AsksForEnough(s, history, last) && forall run :: last.fate(run) == RunsOn
    ensures Invoke(s, last, After(s, history)).1 == Uninterrupted(s, last.replicates, p)
  {
    ResumeAdmittedIff(s, history, last);
    CrashResumeEquivalence(s, history, last, p);
  }

  /** Every kept answer was given, for that case run, by one of the invocations. */
  lemma {:induction false} AnswersComeFromPanels(s: Setup, history: seq<Attempt>, run: CaseRun)
    requires run in Answered(s, history)
    ensures exists k :: 0 <= k < |history| && Answered(s, history)[run] == history[k].panel(run)
  {
    var n := |history| - 1;
    if run in Answered(s, history[..n]) {
      AnswersComeFromPanels(s, history[..n], run);
      var k :| 0 <= k < n && Answered(s, history[..n])[run] == history[..n][k].panel(run);
      assert history[k] == history[..n][k];
    } else {
      assert Answered(s, history)[run] == history[n].panel(run);
    }
  }

  lemma KeptAnswersAgree(s: Setup, history: seq<Attempt>, last: Attempt, p: CaseRun -> PoolSummary)
    requires forall a, run :: a in history ==> a.panel(run) == p(run)
    requires forall run :: last.panel(run) == p(run)
    ensures Agrees(p, Answered(s, history), last)
  {
    forall run | run in Answered(s, history) ensures Answered(s, history)[run] == p(run) {
      AnswersComeFromPanels(s, history, run);
      var k :| 0 <= k < |history| && Answered(s, history)[run] == history[k].panel(run);
      assert history[k] in history;
    }
  }

  /**
   With one deterministic panel throughout, interruption changes nothing: an unkilled
   resume that asks for enough ends as the run would have ended had nothing crashed, and
   a killed one that gets through all the same reports the same.
   */
  lemma DeterministicPanelResume(s: Setup, history: seq<Attempt>, last: Attempt, p: CaseRun -> PoolSummary)
    requires forall a :: a in history ==> a.checkpointed
    requires forall a, run :: a in history ==> a.panel(run) == p(run)
    requires last.checkpointed && forall run :: last.panel(run) == p(run)
    ensures var end := Invoke(s, last, After(s, history)).1;
            && (end.Finished? ==> end == Uninterrupted(s, last.replicates, p))
            && (SoundInputs(s, p) && AsksForEnough(s, history, last) && (forall run :: last.fate(run) == RunsOn) ==>
                  end == Uninterrupted(s, last.replicates, p))
  {
    KeptAnswersAgree(s, history, last, p);
    CrashResumeEquivalence(s, history, last, p);
    if SoundInputs(s, p) {
      forall a, run | a in history ensures KnownOutcomes(a.panel(run)) { assert a.panel(run) == p(run); }
      ResumeAdmittedIff(s, history, last);
    }
  }

  /** The suite names its cases and the panel answers in the known vocabulary. */
  ghost predicate SoundInputs(s: Setup, p: CaseRun -> PoolSummary) {
    (forall c :: c in s.manifest.cases ==> c.id != "") && forall run :: KnownOutcomes(p(run))
  }
}
