# Verified models of the atcr command line

`atcr` runs panels of AI code reviewers, benchmarks them, and keeps a local technical-debt
store. This project models the parts of it that are hardest to get right and proves what they
are for. Each module takes the form of the code it models: loops and objects that change in
place are methods and classes proved against specification functions; the properties are lemmas
about those functions.

**The checkpointed benchmark run** (`ReviewerFold`, `Checkpoint`, `BenchmarkRun`,
`CrashResume`, `RunReport`, `StandardGate`, `RowSums`, `ScoreRows`). A run walks cases and
replicates, replays what the checkpoint holds, executes the rest and saves after each case run.
The process may die before a panel is paid, after it is paid, or after the save, at any case
run of any invocation. Whatever the history, an admitted resume that nobody kills ends exactly
as one uninterrupted run on the kept answers ends, and any invocation that finishes reports
what that run reports; no saved case run is paid for twice, and the file on disk always passes
its integrity check. Cost addition is an arbitrary function, so the proof has to show that the
fold order is the same. What a finished run's rows hold is said of the panels' answers alone:
every category, cost, latency, count and credited name, up to the published file. The file such
a run publishes passes the publication gate below.

**The repo-state run and the publication gate** (`ExportGate`, `RepoStateRun`, `RepoStateGate`,
`RepoRows`, `ProducerGate`, `Export`, `FileRules`). The gate's three validators are shown to
accept exactly what a declarative specification describes, and that, in turn, is spelled out
word by word and bound by bound. The run loop is modelled stage by stage, with its failure
channels, its cost brake and its retention rule; when it completes, which reason each failed
case and lost lane is given, and what each row holds are said of its trials. The main result
ties the two: the file of a successful run passes the gate if and only if no reviewed case ran
two lanes under one realized identity and every lost lane keeps a name once scrubbed; it passes
without the opt-out if and only if, besides, every identity scored every case. Two families of
runs show that both conditions are needed: in each some lane's call succeeds, the run accepts
the panel and writes a file its own gate refuses. The identity checks in front of the gate are
modelled too, and give both tiers an exact condition for export.

**The debt store** (`DebtFold`, `DebtRecord`, `FindingFold`, `DebtQuery`, `Listings`,
`DebtCompact`, `CompactLimits`, `CompactTwice`, `CompactFiling`, `AppendRun`, `SyncOutcomes`,
`SyncedRows`, `SyncGuard`, `DebtImport`, `ImportedRows`). The store is an append-only list of
records; readers see its fold. The fold is modelled as written, counters and annotations
included, and what it shows of a finding is said of the finding's records. Two-pass reads
refine the simple read, whose rows, order and cap are said key by key; which row of a table
makes the two writers append which record is said of the rows; compaction is invisible to
readers, any number of times, and reaches a fixed point at the second pass, however its output
is filed into shards between the passes; the two writers may be stopped anywhere and rerun at
any later time. Six promises turn out to have limits. Each is an exact condition beside a
family of histories, for any clock, on which it fails: one timestamp that does not parse lets
compaction close a live finding (the source concedes that the fold may move); a first sighting
recorded after its own record's timestamp moves under compaction; two closes of one second that
name different models let compaction move the credit, although the source orders the retained
records to prevent it; compaction can forget an outcome that a stale table row then records
again, closing a finding that came back; an imported row that a later sighting superseded is
imported again after a compaction; and the filter that `debt list` treats as a pass-through
drops findings with a negative estimate, so `--max N` hides what the plain list shows.

**Smaller machines** (`AutoFix`, `AutoFixOutcome`, `AutoFixSafety`, `AutoFixRun`, `LineDedup`,
`FitReport`, `FitRows`, `DebtGroup`, `GroupSums`, `Locator`). The auto-fix pipeline reaches
GitHub if and only if everything applied, an allowed backend passed it, there is a base branch
and every file can be read. Backing a file up overwrites its `.bak` and deletes its `.bak.old`
and the staging leftovers of earlier backups. Every successful revert restores what was
patched, and whatever lies outside these scratch names, if and only if cleaning keeps the
selected paths apart and sends none of them into the scratch names of another. The selection
ensures neither; for two names of one file, a `.bak` name and a `.bak.old` name a batch is
given whose revert reports success and leaves a file changed or gone. Scratch files that were
there before are lost. The line-dedup writer does not depend on how its input is cut, even on a
failing sink. Fit verdicts are declarative, order-free and conserve what they count. Grouping
is a partition. Shard locators are decodable single tokens that name one file.

Inputs that the code takes from outside are parameters: clocks, panels and their answers, which
call fails, the text scrub, RFC 3339 parsing, NFKC, the digest, path cleaning and which file
names the staging pattern of a backup matches. `dafny verify dfyconfig.toml` checks everything.

## Model

| member | source | states |
|---|---|---|
| `ReviewerFold.ScoreBoard.Fold` | cli/benchmark_run.go:995-1053 | folding one outcome in place: refused with the board untouched, or the row, the tally and the first-sighting order updated |
| `ReviewerFold.FoldAcceptsIffEachCaseOnce` | cli/benchmark_run.go:995-1053 | a sequence of outcomes is accepted iff no identity scores a case twice |
| `ReviewerFold.RefusalIsRepeat` | cli/benchmark_run.go:995-1019 | the next outcome is refused iff its identity already scored its case |
| `ReviewerFold.RowIsOwnHistory` | cli/benchmark_run.go:995-1053 | an identity's row depends only on its own outcomes, in order |
| `ReviewerFold.OrderIsFirstSighting` | cli/benchmark_run.go:995-1053 | `order` lists the identities by first sighting and exactly the rows that exist |
| `ReviewerFold.ReachableBoardInv` | cli/benchmark_run.go:995-1053 | every reachable accumulator has distinct case ids, as many scores and tallied outcomes, and `order` lists each row once |
| `ReviewerFold.GroundingTagIsUnanimity` | cli/benchmark_repostate.go:1222-1244 | the tag is Some(b) iff there is a case and every case reported b |
| `ReviewerFold.RowGroundingIsObservedUnanimity` | cli/benchmark_run.go:1044-1047 | the standard tier's tag is unanimity over the cases that carried an observation |
| `Checkpoint.ValidateIntegrity` | cli/benchmark_checkpoint.go:248-302 | accepts iff the roster format is known, every entry is well formed and all (index, replicate) keys differ |
| `Checkpoint.DoneIndex` | cli/benchmark_checkpoint.go:325-331 | builds the lookup from case run to entry |
| `Checkpoint.DoneMapIsFaithful` | cli/benchmark_checkpoint.go:325-331 | on a file with distinct keys the lookup returns every entry |
| `Checkpoint.RosterGuardIsPanelEquality` | cli/benchmark_checkpoint.go:355-438 | a resume passes iff the recorded panel is this panel, or its unstamped parallel half, which is upgraded |
| `FileRules.IntegrityIff` | cli/benchmark_checkpoint.go:248-302 | the integrity check passes exactly the files that obey the rules written out: known roster format, every index, replicate and case name in bounds, every outcome of the vocabulary, no case run twice where replicate 0 reads as 1 |
| `FileRules.RefusedIff` | cli/benchmark_run.go:292-366 | for any file on disk, an invocation is refused iff it asks for no replicate, or the checkpoint breaks a rule, is of another suite or content hash, of another panel, or records a case or replicate the run does not ask for |
| `FileRules.RosterIs` | cli/benchmark_checkpoint.go:355-438 | a panel that agrees leaves the file as it is; an unstamped half is replaced by the whole panel and stamped |
| `FileRules.EntryReplays` | cli/benchmark_run.go:393-404 | an entry of another case stops the run; a legacy entry adds no fit rows, any other one per recorded reviewer, under its replicate |
| `BenchmarkRun.ReplayIsFresh` | cli/benchmark_run.go:1060-1089 | replaying a recorded case run folds the outcomes and fit rows its execution folded |
| `BenchmarkRun.RunCase` | cli/benchmark_run.go:393-578 | one case run: replay or execute, score replicate 1 only, save; equal to the step of the state machine at every crash point |
| `BenchmarkRun.ExecuteReplicates` | cli/benchmark_run.go:292-589 | the nested loop over cases and replicates equals the state machine's invocation: same disk, same bill, same ending |
| `CrashResume.HistoryIsFaithful` | cli/benchmark_run.go:390-581 | after any history of crashing invocations the file records exactly the answers that were saved |
| `CrashResume.SavedFileIsSound` | cli/benchmark_checkpoint.go:248-302 | every file a history leaves passes the integrity check |
| `CrashResume.ResumeAdmittedIff` | cli/benchmark_run.go:351-366 | a resume is admitted iff it asks for at least as many replicates as are recorded; a refused one changes nothing |
| `CrashResume.InvokePaysOnce` | cli/benchmark_run.go:405-423 | one invocation pays each case run at most once and none that was on disk |
| `CrashResume.NeverPaidAgain` | cli/benchmark_run.go:566-578 | a case run saved by an early part of any history is never paid for by the rest of it |
| `CrashResume.AnswersComeFromPanels` | cli/benchmark_run.go:405-578 | every kept answer was given for that case run by some invocation |
| `CrashResume.CrashResumeEquivalence` | cli/benchmark_run.go:390-581 | after any crashes, an invocation that finishes has the accumulators, order and fit rows of one uninterrupted run on the kept answers, and an admitted one that nobody kills ends exactly as that run ends |
| `CrashResume.UnkilledResumeIsTheRun` | cli/benchmark_run.go:351-581 | a resume that asks for at least the recorded replicates and is not killed ends as the uninterrupted run ends |
| `CrashResume.DeterministicPanelResume` | cli/benchmark_run.go:390-581 | with one deterministic panel, an unkilled resume that asks for enough ends as the run would have ended without crashes, and any invocation that finishes reports the same |
| `RunReport.CollectRows` | cli/benchmark_run.go:674-764 | succeeds iff every identity is printable and no two scrub alike; then one row per identity |
| `RunReport.BuildRunResult` | cli/benchmark_run.go:674-764 | the emitted run-result, or a refusal, of an accumulator |
| `RunReport.PublishableOfPermutation` | cli/benchmark_run.go:674-764 | whether a run may publish does not depend on first-sighting order |
| `RunReport.EmitIsOrderFree` | cli/benchmark_run.go:674-764 | the run-result is unchanged by any permutation of `order` |
| `RunReport.EmittedRowsAlign` | cli/benchmark_run.go:902-909 | coverage rows strictly increase by scrubbed identity and each sits beside its public row, which counts its cases |
| `RunReport.PublicFitOfReplicate` | cli/benchmark_run.go:641-658 | publishing fit rows commutes with keeping one replicate |
| `RunReport.ReplicateErasure` | cli/benchmark_run.go:393-562 | for every N, an N-replicate run finishes iff the single run does, with its score, and its replicate-1 fit rows are the single run's in order |
| `StandardGate.FinishedBoardIsFold` | cli/benchmark_run.go:393-562 | a finished run's board is the fold of what the panels answered in replicate 1, whatever the replicate count |
| `StandardGate.RowListsAnswers` | cli/benchmark_run.go:995-1053 | a row lists a case iff an agent of its identity answered it |
| `StandardGate.HonestRowIsLegal` | cli/benchmark_coverage.go:288-294 | if `ungrounded` arises only where the gate was seen on, no standard row pairs tag false with it, and every tally is legal |
| `StandardGate.ResumedRunMeetsGate` | cli/benchmark_run.go:292-764 | after any crashes, a finished and publishable run's file passes the gate iff some agent answered, and without the opt-out iff besides every identity answered every case |
| `ScoreRows.BoardRowIsOwed` | cli/benchmark_run.go:995-1053 | for every accepted outcome sequence an identity has a row iff it has outcomes, and the row holds exactly those, in order: case ids, expected and raised categories, costs added from zero, latencies, fallbacks, a count per outcome word, the agents and the unanimous gate tag |
| `ScoreRows.FinishedRowIsOwed` | cli/benchmark_run.go:292-589 | a finished run scores each identity for exactly what the panels answered under it in replicate 1, its model and persona credited as the registry and the fallbacks say |
| `ScoreRows.ResumedRowIsOwed` | cli/benchmark_run.go:292-589 | the same of a run resumed after any crashes, on the answers that were kept |
| `ScoreRows.RowIsPublished` | cli/benchmark_run.go:674-764 | every identity of a publishable run has a coverage row and a public row that hold its accumulator; the public score is of its cases, its cost and its middle latency |
| `ScoreRows.FileIsOrdered` | cli/benchmark_run.go:674-764 | the file names the suite as loaded, has one row per identity in both arrays, by public model, then persona, and no failure lists |
| `ScoreRows.FinishedFitsAreSlots` | cli/benchmark_run.go:596-626 | a finished run has one fit row for every slot of every panel it asked, in order: who answered which case in which replicate, and how |
| `ScoreRows.PublicFitIs` | cli/benchmark_run.go:641-658 | the published fit rows stand by public model, then persona; each name keeps its own rows, scrubbed, in the order of the run |
| `RowSums.MedianIsMiddle` | cli/benchmark_run.go:1191-1204 | the latency of a row is the middle one of its values, or the floor of the mean of the two middle ones |
| `ExportGate.ValidateCoveredSet` | cli/benchmark_coverage.go:756-777 | accepts iff the cases are a duplicate-free subset of the suite; returns exactly the missing ones, sorted |
| `ExportGate.IndexCoverage` | cli/benchmark_coverage.go:185-296 | accepts iff scrubbed identities differ and every row's tally and tag are legal |
| `ExportGate.JoinReviewers` | cli/benchmark_coverage.go:364-440 | accepts iff each public row joins one coverage row that agrees with it; returns the rows that owe cases |
| `ExportGate.JoinIsCorrespondence` | cli/benchmark_coverage.go:167-460 | the join and leftover loops accept iff the two arrays correspond one to one and agree |
| `ExportGate.NoneShortIsFull` | cli/benchmark_coverage.go:440-569 | no row is short iff every row's case list is a permutation of the suite |
| `ExportGate.CheckCoverage` | cli/benchmark_coverage.go:156-569 | accepts iff the specification holds, in both modes; publishes outright iff every row is full |
| `ExportGate.CaseFailuresFit` | cli/benchmark_coverage.go:1178-1182 | the code's bound on the number of entries follows from the other conditions |
| `ExportGate.ValidateCaseFailures` | cli/benchmark_coverage.go:1154-1248 | accepts iff every entry has a known reason, names a printable, non-blank, uncovered suite case, and no case repeats |
| `ExportGate.PairTextInjective` | cli/benchmark_coverage.go:1363-1370 | on printable fields the NUL-joined key identifies the (reviewer, case) pair |
| `ExportGate.ValidateSlotFailures` | cli/benchmark_coverage.go:1276-1372 | accepts iff every entry names a reason, a case of the suite and a row that exists and does not cover it, and no pair repeats |
| `ExportGate.Gate` | cli/benchmark.go:550-566 | the three validators in export order accept iff all three specifications hold |
| `FileRules.CoverageIff` | cli/benchmark_coverage.go:156-569 | the coverage check accepts exactly the files that obey the rules written out: legal words, counts and tags, each public name once in both arrays, agreeing counts, cases of the suite only, none missing unless that is allowed |
| `FileRules.CaseFailuresIff` | cli/benchmark_coverage.go:1154-1248 | the failed-case check accepts exactly the lists that obey the rules, with the six reasons written out |
| `FileRules.SlotFailuresIff` | cli/benchmark_coverage.go:1276-1372 | the lost-slot check accepts exactly the lists that obey the rules, with the four reasons written out |
| `RepoStateRun.RepoLedger.FoldSlot` | cli/benchmark_repostate.go:537-652 | registers the identity, then records the lost slot, refuses a second score, or scores the case |
| `RepoStateRun.RepoLedger.RetainForSlotFailures` | cli/benchmark_repostate.go:1006-1015 | true iff some lost slot has a reason other than unmeasured-ok |
| `RepoStateRun.RunCases` | cli/benchmark_repostate.go:317-658 | the case loop equals the state machine: stages, failure channel, brake, cancellation, abort |
| `RepoStateRun.CheckIdentities` | cli/benchmark_repostate.go:700-731 | accepts iff every identity is printable and no two scrub alike |
| `RepoStateRun.FlattenSlotFailures` | cli/benchmark_repostate.go:819-841 | lists each identity's lost slots in emit order under its public identity |
| `RepoStateRun.ExecuteRepoState` | cli/benchmark_repostate.go:204-797 | succeeds exactly when the loop ends, someone was registered and the identities may publish; the work dir is removed iff it succeeds with no case failure and only unmeasured-ok slots |
| `RepoStateRun.LoopAccounting` | cli/benchmark_repostate.go:300-660 | at every loop head scored plus failed cases equals cases attempted, the counter is the failing suffix, and the failures are those of the trials |
| `RepoStateRun.LedgerIsHistory` | cli/benchmark_repostate.go:537-656 | the ledger is the fold of every slot of every reviewed case, in order |
| `RepoStateRun.BrakeHolds` | cli/benchmark_repostate.go:335-339 | with brake k, a case that starts does not follow k straight failures |
| `RepoStateGate.LedgerRows` | cli/benchmark_repostate.go:537-652 | each identity's row and losses come from its own slots alone |
| `RepoStateGate.RowTag` | cli/benchmark_repostate.go:632-644 | a row's tag is Some(b) iff it scored a case and every scored case reported b |
| `RepoStateGate.FailedIsNeverCovered` | cli/benchmark_repostate.go:855-864 | at every loop head a failed case stands in no covered set |
| `RepoStateGate.WorkDirRemovedIffClean` | cli/benchmark_repostate.go:204-284 | a successful run's work dir is removed iff every case was reviewed and no reviewer call failed |
| `RepoStateGate.OnceIsDistinctLanes` | cli/benchmark_repostate.go:537-616 | every identity met each case at most once iff no reviewed case has two lanes of one identity |
| `RepoStateGate.ReviewedHasAnswer` | internal/fanout/outcome.go:71-80 | an outage of the whole panel is never measured: every reviewed case has a lane whose call succeeded |
| `RepoRows.TrialEnds` | cli/benchmark_repostate.go:317-536 | a case is reviewed, fails with one of six reasons or ends the run, each decided by its stages in order and by whether a reviewer other than the visual one answered |
| `RepoRows.LoopCompletesIff` | cli/benchmark_repostate.go:300-660 | the loop gets through the first n cases iff none of them is cancelled, ends the run, follows as many straight failures as the brake allows or scores an identity twice |
| `RepoRows.CaseReasons` | cli/benchmark_repostate.go:317-536 | a successful run lists a case as failed with a reason iff that stage failed |
| `RepoRows.SlotReasons` | internal/benchmark/slot_failure.go:112-119 | a successful run lists a lane as lost with a reason iff the call failed, timed out, ended in another status or came back worthless, as the reason says |
| `RepoRows.CaseFailuresAscend` | cli/benchmark_repostate.go:317-536 | the failed cases are listed in suite order, each once |
| `RepoRows.SlotFailuresAscend` | cli/benchmark_repostate.go:819-841 | the lost lanes are listed by public model, then persona, and under one name in suite order |
| `RepoRows.LedgerRowIsOwed` | cli/benchmark_repostate.go:596-652 | at every loop head an identity with a lane has a row that holds exactly what its lanes measured: case ids, categories, costs, latencies, fallbacks, outcome counts, gate tag |
| `RepoRows.RowIsPublished` | cli/benchmark_repostate.go:733-797 | a successful run publishes that row, as a coverage row and a public row |
| `RepoRows.RowsAscend` | cli/benchmark_repostate.go:733-797 | both arrays stand by public model, then persona, and the file names the suite as loaded |
| `ProducerGate.HonestRowIsLegal` | cli/benchmark_coverage.go:288-294 | if `ungrounded` arises only on gated cases, no row pairs tag false with it, and every tally is legal |
| `ProducerGate.SlotChannel` | cli/benchmark_coverage.go:1276-1372 | the emitted slot failures validate iff each identity met each case once and lost lanes keep a name |
| `ProducerGate.CoverageChannel` | cli/benchmark_coverage.go:156-569 | the emitted coverage is always well formed, and full iff every row scored the whole suite |
| `ProducerGate.CaseChannel` | cli/benchmark_coverage.go:1154-1248 | the emitted case failures always validate |
| `ProducerGate.ProducerMeetsGate` | cli/benchmark_repostate.go:317-797 | a successful run's file passes the gate iff lanes are distinct and lost lanes named; without the opt-out iff besides every identity scored every case |
| `ProducerGate.SharedLaneIsRefused` | cli/benchmark_repostate.go:596-632 | for any scrub and identity, a lane that scored or came back worthless beside a failed lane of the same identity: the run succeeds and its file is refused |
| `ProducerGate.NamelessLaneIsRefused` | cli/benchmark_coverage.go:1276-1372 | whatever the scrub, a failed lane whose identity scrubs to blank text beside a named lane that scored: the run succeeds and its file is refused |
| `Export.RunExport` | cli/benchmark.go:458-566 | export accepts iff the suite and case names publish as they stand, there are rows and all keep a name once scrubbed, and the gate's specification holds |
| `FileRules.ExportIff` | cli/benchmark.go:458-566 | a file is exported iff it obeys every rule: names that publish as they stand, reviewers that keep a name, both failure lists and the coverage |
| `Export.ProducerMeetsExport` | cli/benchmark.go:458-566 | a successful repo-state run's file is exported iff the suite's names publish as they stand, lanes are distinct and every lane keeps a name; without the opt-out iff besides every identity scored every case |
| `Export.ResumedRunMeetsExport` | cli/benchmark.go:458-566 | after any crashes, a finished and publishable standard run's file is exported iff the suite's names publish as they stand, some agent answered and every identity that answered keeps a name |
| `Export.ScoredNamelessLaneStopsAtExport` | cli/benchmark.go:497-506 | a lane that scored under an identity that scrubs to blank text: the file passes the gate and export refuses it |
| `DebtFold.ScanWhere` | internal/localdebt/store.go:1445-1463 | the scan for the latest marked record equals its specification |
| `DebtFold.LatestIsLastMaximum` | internal/localdebt/store.go:1445-1463 | on comparable timestamps the scan finds the last record of maximal (timestamp, precedence) |
| `DebtFold.Grouping` | internal/localdebt/store.go:978-1000 | ids in order of first appearance and each id's records in order |
| `DebtFold.PickOfProjection` | internal/localdebt/store.go:1021-1037 | the precedence rule commutes with any projection that keeps status and timestamp |
| `DebtRecord.AggregateCounters` | internal/localdebt/store.go:835-891 | occurrences, first sighting and counting boundary of a group |
| `DebtRecord.FoldStore` | internal/localdebt/store.go:699-723 | the fold of the whole store |
| `DebtRecord.FoldIsOnePerId` | internal/localdebt/store.go:978-1000 | one effective record per id, in order of first appearance |
| `DebtRecord.FoldOfWanted` | internal/localdebt/store.go:699-723 | folding only some ids' records is folding everything and keeping those ids |
| `DebtRecord.SummariesFoldAlike` | internal/localdebt/streaming.go:387-396 | folding summaries is summarizing the fold, always up to the annotation kind and entirely when kinds are named |
| `FindingFold.StoreCounts` | internal/localdebt/store.go:835-891 | without stored counts a row of the folded store shows the larger of 1 and the number of its detections; with some, the highest and newest count plus the detections behind what it covers |
| `FindingFold.StoreDetection` | internal/localdebt/store.go:835-891 | appending a detection later than every time and counting boundary of a finding seen before raises its count by exactly one; a record that neither detects nor counts raises none; no other row changes |
| `FindingFold.StoreSpeaks` | internal/localdebt/store.go:1021-1037 | on timestamps that parse a row is, counters and annotation aside, the last dismissal of its finding, else its last record, and among records of one time the one furthest along |
| `FindingFold.StoreOrder` | internal/localdebt/store.go:978-1000 | the folded store shows each finding once, in the order in which they are first met |
| `FindingFold.FirstSightingShown` | internal/localdebt/store.go:862-891 | where they parse, the first sighting shown is the earliest any record notes or, without a note, bears |
| `FindingFold.AnnotationShown` | internal/localdebt/store.go:714-754 | on timestamps that parse the annotation shown is that of the last record that has one; none is shown iff none has one |
| `FindingFold.BoundaryShown` | internal/localdebt/store.go:862-891 | the counting boundary lies at the newest detection or at the one the stored count had, behind no detection |
| `DebtQuery.RecordLessIsWeak` | cli/debt.go:659-710 | every sort key is a strict weak order |
| `DebtQuery.ListingIsSorted` | cli/debt.go:633-642 | a listing is a sorted permutation and ties keep their order |
| `DebtQuery.ListReadsRecords` | cli/debt.go:516-534 | filtering and sorting summaries' views is filtering and sorting the records' views |
| `DebtQuery.PassOneAgrees` | cli/debt.go:287-303 | pass 1 selects the ids of the simple read, in its order |
| `DebtQuery.TwoPassRefinesSimpleRead` | cli/debt.go:251-321 | on an unchanged store the two passes return fold, filter, stable sort and cut |
| `DebtQuery.HydrationIsExact` | cli/debt_resolve.go:475-506 | on any re-read store the rows are the surviving ids in pass 1's order, each effective and kept, and the shortfall is exact |
| `DebtQuery.AppendsLoseNothing` | cli/debt_resolve.go:475-506 | appends between the passes cost a list no selected id |
| `DebtQuery.CollectIdRecords` | cli/debt_resolve.go:437-466 | the raw history of the wanted ids, in reading order |
| `DebtQuery.HydrateIds` | cli/debt_resolve.go:475-506 | the hydrated rows and the number of ids not found |
| `DebtQuery.ZeroFilterMatches` | cli/debt.go:539-582 | the zero filter matches a view iff its estimate is not negative |
| `DebtQuery.ZeroFilterListIff` | cli/debt.go:251-321 | for every store and any cap that cuts nothing, the zero filter's list is the whole list iff no effective record has a negative estimate |
| `DebtQuery.NegativeEstimateIsDropped` | cli/debt.go:263-303 | any finding with a negative estimate is in the plain list and missing under every `--max` |
| `Listings.ListingLists` | cli/debt.go:539-710 | `debt list` shows each effective record that passes its flags, field by field, once; the rows stand in the order of the sort key, key by key, ties by first appearance; a cap leaves out only findings that come after every row |
| `Listings.WholeListLists` | cli/debt.go:263-273 | the direct branch shows every effective record in that order |
| `Listings.WorklistLists` | cli/debt_resolve.go:351-424 | `debt resolve` works through the open located findings of the asked severity, the worst first, then the oldest; a cap leaves out only later ones |
| `Listings.SelectDebtForList` | cli/debt.go:251-321 | refuses an unknown sort key; the two-pass branch returns the hydrated selection on any re-read store; on an unchanged one the rows are the listing above, and the simple read iff the branch is two-pass or no effective estimate is negative |
| `Listings.SelectOpenDebt` | cli/debt_resolve.go:351-424 | the worklist above on an unchanged store; always open, located rows; rows plus shortfall equal the selection |
| `DebtCompact.RetainForCompaction` | internal/localdebt/store.go:1119-1349 | the retained records of every id: trail, latest close, donor, then the effective record |
| `DebtCompact.EffectiveStays` | internal/localdebt/store.go:1021-1037 | whichever superseded records are kept, the effective record wins the fold again |
| `DebtCompact.CountersStay` | internal/localdebt/store.go:835-891 | the compacted group counts the same occurrences, and nothing twice |
| `DebtCompact.EffectiveStaysIff` | internal/localdebt/store.go:1021-1037 | for arbitrary timestamps, the effective record wins its compacted group iff the winner of the other retained records yields to it; otherwise status or time changes |
| `DebtCompact.FirstSeenStaysIff` | internal/localdebt/store.go:835-959 | for arbitrary texts, the first sighting keeps its instant iff the earliest retained timestamp does not supplant it |
| `DebtCompact.FirstSeenStaysParsed` | internal/localdebt/store.go:835-959 | on texts that parse, iff no retained superseded record is older than the first sighting |
| `DebtCompact.CompactionIsInvisible` | internal/localdebt/store.go:1119-1349 | same ids in the same order, at most four records each; a finding reads the same iff its effective record stays ahead and no retained timestamp supplants its first sighting, which holds when its texts parse and no first sighting is after its record |
| `DebtCompact.RetainedIsWellFormed` | internal/localdebt/store.go:1119-1349 | compaction keeps texts parsing and first sightings not after their records |
| `DebtCompact.CompactionsAreInvisible` | internal/localdebt/store.go:1079-1081 | after any number of compactions a well-formed finding reads as before the first |
| `DebtCompact.NoTwinIsKept` | internal/localdebt/store.go:1176-1207 | no retained superseded record equals the effective one in status, time, model and rationale |
| `DebtCompact.RationaleSurvives` | internal/localdebt/store.go:1408-1420 | no superseded rationale outranks every rationale that survives |
| `FindingFold.RationaleIsKept` | internal/localdebt/store.go:1408-1420 | of every close that may hold a rationale compaction keeps the text or a rationale worth at least as much: a dismissal over nothing to fix over giving up over a fix |
| `DebtCompact.ModelSurvivesIff` | internal/localdebt/store.go:1382-1394 | the recovered model is the same after compaction iff neither the effective record nor, when the donor doubles as the trail, the latest close ties the donor's timestamp with another model |
| `CompactLimits.TiedModelsMoveTheCredit` | internal/localdebt/store.go:1292-1338 | at any clock, two closes of one second with different models for which compaction moves the credit |
| `CompactLimits.MalformedTimestampMovesTheFold` | internal/localdebt/store.go:1480-1486 | at any clock, a history with one unparsable timestamp that compaction closes |
| `CompactLimits.FutureFirstSeenMoves` | internal/localdebt/store.go:1300-1310 | at any clock, a close that says it was first seen after its own time: compaction moves the first sighting to that time |
| `CompactTwice.RetainedSettles` | internal/localdebt/store.go:1083-1091 | for every history whose texts parse, ties included, the third pass over a finding is the second |
| `CompactTwice.CompactionConverges` | internal/localdebt/store.go:1083-1091 | from the second pass on the whole store is a fixed point of compaction |
| `CompactTwice.SecondPassShrinks` | internal/localdebt/store.go:1083-1091 | at any clock, a history for which the second pass keeps fewer records than the first |
| `CompactFiling.FilingByMonthKeepsTies` | internal/localdebt/store.go:473-500 | filing by month only moves records of different timestamps past each other, if records of one timestamp belong to one month |
| `CompactFiling.FoldIgnoresFiling` | internal/localdebt/store.go:699-723 | in any order that keeps records of one timestamp in sequence the fold is the same record, up to how it spells its first sighting |
| `CompactFiling.SameFirstSeen` | internal/localdebt/store.go:835-959 | the first sighting is one instant in any such order, and one text where instants have one spelling |
| `CompactFiling.RetainedIgnoresFiling` | internal/localdebt/store.go:1119-1349 | compaction retains the same records in the same order however its input was filed |
| `CompactFiling.FiledCompactionConverges` | internal/localdebt/store.go:1083-1091 | from the second pass on compaction writes the same records, however its output was filed between the passes |
| `AppendRun.RunIsPrefix` | cli/debt_sync_outcomes.go:138-184 | wherever an append loop ends, it wrote what was decided for a prefix of its ids |
| `AppendRun.HistoryAfter` | cli/debt_sync_outcomes.go:138-184 | after the loop each id has its old history and at most one more record |
| `AppendRun.RerunCompletes` | cli/debt_import.go:87-109 | stopping after any prefix and rerunning writes exactly the missing records |
| `SyncOutcomes.CollectWants` | cli/debt_sync_outcomes.go:96-130 | the wanted outcome of each id, in order of first mention |
| `SyncOutcomes.WantIsTheRows` | cli/debt_sync_outcomes.go:96-130 | an id is in conflict iff two of its rows disagree; otherwise all its rows say its outcome |
| `SyncOutcomes.Attribute` | cli/debt_resolve.go:649-692 | first-seen union of reviewers and the last model of the unsettled records |
| `SyncOutcomes.DecideOne` | cli/debt_resolve.go:613-805 | the record appended for an id, or none: conflict, absent, recorded, settled, unlocated, unexplained or too large |
| `SyncOutcomes.SyncDebtOutcomes` | cli/debt_sync_outcomes.go:90-202 | the command equals its specification at every store failure; the three counts are exact and cover every wanted id and every other row |
| `SyncOutcomes.NeverRecordedTwice` | cli/debt_sync_outcomes.go:149-163 | an id recorded with its outcome gains nothing from any number of runs of the table, whatever others append between them |
| `SyncOutcomes.AtMostOncePerRun` | cli/debt_sync_outcomes.go:138-184 | a run adds at most one record per id, none for conflicting or recorded ones |
| `SyncOutcomes.SyncConverges` | cli/debt_sync_outcomes.go:90-202 | a rerun after a completed run writes nothing, at any later time |
| `SyncOutcomes.StoppedThenRerun` | cli/debt_sync_outcomes.go:90-202 | stopped anywhere and rerun under any other clock, the store is that of one uninterrupted run, up to the times written down |
| `SyncedRows.SyncAppendsOnlyCalledFor` | internal/localdebt/tdsync.go:58-61 | a run only appends, at most once per finding; a record it appends is resolved where every counting row of its finding is `[x]`, or unreproducible with the first row's words where every one is `[-]`; it closes an unsettled located finding never recorded so, bears the time of the run, and is credited and counted as the source says |
| `SyncedRows.SyncAppendsCalledFor` | cli/debt_sync_outcomes.go:90-202 | an id whose rows call for a close, whose record fits and up to whose first counting row no append breaks the store gains exactly one record, the one called for |
| `SyncedRows.SyncLeavesOthersAlone` | cli/debt_sync_outcomes.go:90-202 | an id for which the rows call for nothing gains nothing |
| `SyncedRows.SyncAppendsInOrder` | cli/debt_sync_outcomes.go:138-184 | the appended records stand in the order in which the table first marks their findings |
| `SyncedRows.RecordedIff` | cli/debt_sync_outcomes.go:149-163 | an id is reported as already recorded iff its rows agree on an outcome it has recorded and still shows |
| `SyncedRows.ResolutionCredits` | cli/debt_resolve.go:649-692 | the credit of a close: the reviewers of the unsettled records by first naming and the last model among them, or what the finding shows where there is none |
| `SyncGuard.GuardSurvivesCompaction` | cli/debt_sync_outcomes.go:149-163 | the guard survives compaction if no rationale outranks the recorded outcome of a finding that is open again |
| `SyncGuard.GuardSurvivesIff` | cli/debt_sync_outcomes.go:149-163 | after compaction an outcome still reads as recorded iff the effective record says it, or the highest-ranking superseded rationale, or the newest close naming a model, or the last close of an open finding while attempts-exhausted is in play |
| `SyncGuard.LastCloseIsMaximum` | internal/localdebt/store.go:1245-1287 | on timestamps that parse, that last close is the last one of maximal timestamp and precedence |
| `SyncGuard.CompactionForgetsOutcome` | cli/debt_sync_outcomes.go:149-163 | at any clock, a finding fixed, seen again, closed as unreproducible and seen again: its stale row is skipped before compaction and closes it after |
| `DebtImport.PlanDebtImport` | cli/debt_import.go:117-151 | the three lists of the plan |
| `DebtImport.ImportPartitions` | cli/debt_import.go:117-151 | every row lands in exactly one list |
| `DebtImport.KeptIsKept` | cli/debt_import.go:133-141 | the scan keeps row i iff it is the last one of maximal timestamp for its id |
| `DebtImport.ImportedIsNewestPerId` | cli/debt_import.go:133-149 | imported ids are distinct, every valid id is imported, each by its kept row |
| `DebtImport.RunDebtImport` | cli/debt_import.go:67-112 | appends, in order, the planned records the store lacks |
| `ImportedRows.ImportAppendsOwed` | cli/debt_import.go:67-151 | the import appends, in table order, each finding's newest row, the later one of one time, unless the store has that record but for its counters; a run that breaks off appends a prefix of that |
| `DebtImport.ImportConverges` | cli/debt_import.go:87-109 | stopping anywhere and rerunning gives the uninterrupted store; a further rerun writes nothing |
| `DebtImport.HeldAfterCompactionIff` | cli/debt_import.go:256-266 | after compaction any record still counts as held iff it is the effective record under the annotation the finding shows, or a retained position keeps its key |
| `DebtImport.CompactedCopyIsHeldIff` | cli/debt_import.go:256-266 | the effective record itself still counts as held iff the annotation the finding shows is its own |
| `DebtImport.OpenRowIsHeldIff` | cli/debt_import.go:256-266 | an open row is held after compaction iff it is the effective record |
| `DebtImport.SupersededRowIsImportedAgain` | cli/debt_import.go:87-109 | at any clock, an imported row superseded by a later sighting: a rerun skips it before compaction and appends it again after |
| `AutoFixSafety.SelectEntries` | cli/autofix.go:838-873 | the first entry of each raw path, a review flag for each annotated one, and the number of entries dropped |
| `AutoFixSafety.FirstPerPathIsFirst` | cli/autofix.go:844-869 | the entry selected for a path is the first one offered |
| `AutoFixSafety.FirstOfferIsSelected` | cli/autofix.go:838-873 | of the parsed fixes of eligible findings the first entry of each raw path is selected, and flagged if the gate annotated its fix |
| `AutoFixSafety.SelectedIsFirstOffer` | cli/autofix.go:838-873 | and every selected entry is one of those, with the annotation of its own fix |
| `AutoFixSafety.RevertSafeIff` | internal/autofix/revert.go:49-81 | for every tree, patch contents, failures and revert order, successful reverts restore every selected file and every path outside the scratch names iff no file is touched twice and none is a backup name or a leftover of a touched file |
| `AutoFixSafety.SelectionSafeIff` | cli/autofix.go:844-869 | what is selected can be undone in that sense iff cleaning keeps the selected paths apart and sends none into the scratch names of another |
| `AutoFix.ApplyIsAccounted` | internal/autofix/apply.go:96-233 | after any apply every path outside the scratch names is as it was or is recorded with a backup of its old content, unless another file's backup deleted that backup as a leftover |
| `AutoFix.RevertRestores` | internal/autofix/revert.go:49-81 | in any order, a successful revert restores each listed file from its backup and changes nothing else |
| `AutoFix.RevertUndoesApply` | internal/autofix/revert.go:49-81 | whatever failed in apply, a successful revert restores every patched file; if validation left the tree alone, everything but the scratch names is as it was |
| `AutoFix.PriorBackupIsLost` | internal/atomicfs/atomic.go:127-196 | after a full revert the `.bak` name of a restored file is as before iff no such file existed |
| `AutoFix.PriorOldIsLost` | internal/atomicfs/atomic.go:145-155 | after a full revert the `.bak.old` name of a restored file is as before iff no such file existed |
| `AutoFixSafety.AliasedPathsDefeatRevert` | cli/autofix.go:844-869 | for any cleaning, two raw paths of one file pass the selection, apply succeeds, and a successful revert leaves the file patched |
| `AutoFixSafety.BackupTargetDefeatsRevert` | internal/autofix/apply.go:96-233 | for any cleaning, a file and its `.bak` name pass the selection, apply succeeds, and a successful revert gives the file the other's patch |
| `AutoFixSafety.OldTargetIsLost` | internal/atomicfs/atomic.go:145-155 | for any cleaning, a file and its `.bak.old` name pass the selection, the second patch finds its file deleted, and the successful revert leaves it gone |
| `AutoFix.ApplyWritesPatches` | internal/autofix/apply.go:125-233 | when every entry lands, each file holds its own patch of its original content |
| `AutoFixOutcome.BatchFailsIff` | internal/autofix/apply.go:96-233 | a batch that does not fail had only patches that suit the original tree; where nothing else goes wrong it fails iff one does not suit |
| `AutoFixOutcome.BackupPlaces` | internal/atomicfs/atomic.go:127-196 | where a backup goes, path by path: the copy under `.bak`, the backup before it under `.bak.old` if that stays, and no leftover that could be deleted |
| `AutoFixOutcome.FailedWrite` | internal/autofix/apply.go:125-233 | a write that fails leaves the file as it was and takes its backup away again where it can |
| `AutoFixOutcome.FailedBackup` | internal/atomicfs/atomic.go:127-196 | a backup that fails leaves the file as it was, and the backup before it, moved aside or not |
| `AutoFixOutcome.RevertSucceedsIff` | internal/autofix/revert.go:49-81 | in any order, a revert reports success iff every listed file can be undone as the tree stands |
| `AutoFixOutcome.CleanupDropsBackups` | internal/autofix/revert.go:91-102 | the cleanup removes the backups of the patched files where it can, and nothing else |
| `AutoFixRun.ApplyPatch` | internal/autofix/apply.go:96-118 | the batch on the tree in place, failures not stopping it |
| `AutoFixRun.RevertPatch` | internal/autofix/revert.go:49-81 | undoes every recorded file in some order and reports whether all succeeded |
| `AutoFixRun.ReadCommitFiles` | cli/autofix.go:722-737 | each entry's current content, or a deletion where the file is gone; fails iff some entry's file cannot be read |
| `AutoFixRun.RunAutoFix` | cli/autofix.go:548-686 | GitHub is called iff everything applied, an allowed backend passed it, there is a base branch and every file can be read; the calls come in order, each iff none before it failed, and the pull request is updated iff one was found; each of the other endings happens iff its exit is the first reached; a reverted run restored the tree; the commit is the validated tree's content |
| `AutoFixRun.CommitCarriesThePatches` | cli/autofix.go:548-737 | if no touched file is scratch space of a touched one and validation left the tree alone, the commit carries each entry's patch of the original file |
| `AutoFixRun.OldTargetIsCommittedAsDeleted` | cli/autofix.go:722-737 | for any cleaning, a `.bak.old` file patched before its file: both patches land and the commit records it as deleted |
| `LineDedup.LineDedupWriter.Write` | cli/debt_dashboard.go:325-342 | passes on the first occurrence of each complete line, stops at the first call the sink fails with that line counted as seen and the rest held, and reports success iff no call failed |
| `LineDedup.LineDedupWriter.Flush` | cli/debt_dashboard.go:345-350 | sends what is held as it is; after a drained stream that is its tail |
| `LineDedup.WriteChunks` | cli/debt_dashboard.go:315-350 | any way of cutting a stream into writes gives the same output on any sink, as long as the last write got through; on a sound sink that is the deduplicated stream |
| `LineDedup.LinesOfConcat` | cli/debt_dashboard.go:325-342 | a stream's lines are those of its first part, then those of the held tail and the rest |
| `LineDedup.LinesSpellStream` | cli/debt_dashboard.go:325-342 | lines and tail spell the stream again, and the tail has no newline |
| `LineDedup.FirstOfInOrder` | cli/debt_dashboard.go:325-342 | the lines passed on are those of the stream, each once, in the order in which they are first met |
| `FitReport.BuildFitReport` | cli/benchmark_fit.go:101-129 | refused iff some row cannot be judged; otherwise the report sorted by persona and model |
| `FitReport.AddFit` | cli/benchmark_fit.go:173-203 | adds one row to its pair, growing the replicate arrays |
| `FitReport.VerdictIsDeclarative` | cli/benchmark_fit.go:207-228 | unfit iff some call failed, timed out, was truncated, unparseable or wholly silent; warned iff not unfit and some chunk silent |
| `FitReport.ReportIsOrderFree` | cli/benchmark_fit.go:101-129 | permuting the rows leaves the report unchanged |
| `FitReport.ReportConserves` | cli/benchmark_fit.go:101-203 | calls, findings and tokens add up over pairs and replicates |
| `FitRows.ReportSaysPairs` | cli/benchmark_fit.go:101-228 | the report lists every pair of the run once, by persona, then model; each row counts the troubles of its own calls by kind, lists per replicate what they found and wrote, and carries the verdict they call for |
| `DebtGroup.GroupDebt` | cli/debt_group.go:125-192 | the groups with their path pattern, minutes and frontend flag, the ungrouped items and the summary |
| `DebtGroup.GroupsPartition` | cli/debt_group.go:125-192 | groups and ungrouped items are a partition of the input |
| `DebtGroup.GroupsAreThemes` | cli/debt_group.go:125-192 | CRITICAL items form one group; each other group is one theme of at least the minimum size, in input order and theme order; ungrouped themes are smaller |
| `DebtGroup.SummaryAddsUp` | cli/debt_group.go:178-191 | grouped plus ungrouped is the total, even when a theme is named `critical` |
| `GroupSums.DocSays` | cli/debt_group.go:125-192 | the document item by item: the CRITICAL group if there is one, then each theme that is large enough, a theme called `critical` first and the rest by name, with its count, minutes, pattern and frontend flag; then what is left |
| `GroupSums.MinutesConserve` | cli/debt_group.go:178-186 | the minutes of the groups and of the ungrouped items are the input's, whatever the order |
| `Locator.DecodeUndoesEncode` | cli/debt_backfill.go:237-266 | the percent-encoding is reversible |
| `Locator.EncodedIsOneToken` | cli/debt_backfill.go:237-266 | an encoded name has no colon and no whitespace |
| `Locator.SanitizeLocator` | cli/debt_backfill.go:191-266 | strips what drives a terminal, then encodes |
| `Locator.LocatorNames` | cli/debt_backfill.go:412-445 | a name for each changed shard, with a digest iff its collision key is shared |
| `Locator.LocatorsNameOneFile` | cli/debt_backfill.go:412-477 | two different shards of the snapshot never print one token, given no `#` in names and no digest clash among names that strip alike |
| `Locator.PrintedNameIsTame` | cli/debt_backfill.go:191-266 | a printed name holds no control, separator or format rune, and its token reads back as exactly the safe runes of the raw name |
| `Locator.DigestIff` | cli/debt_backfill.go:412-445 | a digest follows the token iff two shards of the snapshot strip and fold alike |
| `Locator.EscapesAreHex` | cli/debt_backfill.go:237-266 | an escape is a percent sign and the two upper-case digits of its byte |
| `Locator.PlainStays` | cli/debt_backfill.go:237-266 | a name without percent signs, colons and whitespace is not changed |

## Left out

- The order in which an append lands: a record is modelled at the end of the reading order, as in a store whose clock moves forward; month shards and event files are not separate.
- Fields kept normalized: statuses, origins and texts that the code compares after trimming or lower-casing are held in that form.
- `debt_resolve.buildDebtResolution` is modelled for `sync-outcomes`; the `debt resolve` command's own messages and flags are not.
- CompactTwice.CompactionConverges: stated for stores whose timestamps and first sightings parse, as the source claims the fixed point for well-formed timestamps only.
- CompactFiling.FiledCompactionConverges: stated finding by finding; frozen shards, event files and records whose run id names no month are not modelled.
- RepoStateRun.ExecuteRepoState: the vocabulary arrays, positional recall and the generated-at time of the emitted file are not modelled.
- RepoStateRun.RunCases: positional recall and its line maps, log lines and the size report of a retained work dir are not modelled.
- RunReport.BuildRunResult: scores are a function of a reviewer's cases; their arithmetic, the vocabulary rates and the generated-at time are not modelled.
- Export.RunExport: the rate checks on vocabulary and positional recall, `anchorSuiteDenominator` and the parsing of the generated-at time are not modelled.
- Diagnostics: which message a refusal prints, `describeMissing`, truncation of lists, table, TOON and Markdown rendering.
- The patch engine, symlink and containment checks, sandboxed validation and the GitHub client: each is an input that may fail.
- DebtGroup.GroupDebt: how a theme and its path pattern are spelled and which items are frontend work are parameters.
- File modes, symlinks and directories as patch targets: the tree of the auto-fix model maps file paths to contents.
- Listings.SelectDebtForList: case folding, trimming, path cleaning and list splitting inside the filter are parameters; store read errors are not modelled.
- Which runes are format runes, NFKC and SHA-256: parameters of the locator model.
- The reconcile library, cloud sync, item locks, registry and configuration handling.
