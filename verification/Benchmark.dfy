/**
 The benchmark's shared vocabulary and records: reviewer identities, outcomes,
 failure reasons and the published run-result.
 */
module Benchmark {
  import opened Basics
  import opened Orders

  // ------------------------------------------------------------- vocabulary

  const OUTCOME_UNKNOWN := ""
  const OUTCOME_UNKNOWN_LABEL := "unknown"
  const OUTCOME_UNGROUNDED := "ungrounded"

  predicate ValidOutcome(s: string) {
    s in ["", "findings", "clean", "unparseable", "truncated", "incomplete", "ungrounded", "filtered", "failed"]
  }

  function OutcomeTallyKey(outcome: string): (k: string)
    ensures k != ""
    ensures ValidOutcome(outcome) ==> k == OUTCOME_UNKNOWN_LABEL || ValidOutcome(k)
    ensures k == OUTCOME_UNGROUNDED <==> outcome == OUTCOME_UNGROUNDED
  {
    if outcome == OUTCOME_UNKNOWN then OUTCOME_UNKNOWN_LABEL else outcome
  }

  predicate ValidCaseFailureReason(s: string) {
    s in ["work_dir", "materialize", "prepare", "execute", "pool_summary", "read_findings"]
  }

  const SLOT_CALL_FAILED := "call_failed"
  const SLOT_CALL_TIMEOUT := "call_timeout"
  const SLOT_STATUS_UNKNOWN := "call_status_unknown"
  const SLOT_UNMEASURED_OK := "unmeasured_salvaged_ok"

  predicate ValidSlotFailureReason(s: string) {
    s in [SLOT_CALL_FAILED, SLOT_CALL_TIMEOUT, SLOT_STATUS_UNKNOWN, SLOT_UNMEASURED_OK]
  }

  /** How a reviewer call ended, as its status file records it. */
  datatype CallStatus = CallOk | CallFailed | CallTimedOut | CallOther(status: string)

  /** Why a slot measured nothing. */
  datatype Loss = LostToFailure | LostToTimeout | LostToUnknownStatus | LostThoughOk

  function LossOfStatus(status: CallStatus): (r: Loss)
    ensures r != LostThoughOk
  {
    match status
    case CallFailed => LostToFailure
    case CallTimedOut => LostToTimeout
    case _ => LostToUnknownStatus
  }

  function LossReason(loss: Loss): (r: string)
    ensures ValidSlotFailureReason(r)
    ensures r == SLOT_UNMEASURED_OK <==> loss == LostThoughOk
  {
    match loss
    case LostToFailure => SLOT_CALL_FAILED
    case LostToTimeout => SLOT_CALL_TIMEOUT
    case LostToUnknownStatus => SLOT_STATUS_UNKNOWN
    case LostThoughOk => SLOT_UNMEASURED_OK
  }

  // --------------------------------------------------------------- identity

  /** One leaderboard row: the realized model and the configured persona. */
  datatype ReviewerKey = ReviewerKey(model: string, persona: string)

  /** The one (model, persona) ordering every emitted array uses. */
  predicate KeyLess(a: ReviewerKey, b: ReviewerKey) {
    if a.model != b.model then StringLess(a.model, b.model) else StringLess(a.persona, b.persona)
  }

  lemma KeyLessIsTotal()
    ensures StrictTotal(KeyLess)
  {
    StringLessIsTotal();
    forall x, y, z ensures WeakAt(KeyLess, x, y, z) {
      assert WeakAt(StringLess, x.model, y.model, z.model);
      assert WeakAt(StringLess, x.model, z.model, y.model);
      assert WeakAt(StringLess, y.model, x.model, z.model);
      assert WeakAt(StringLess, x.persona, y.persona, z.persona);
    }
  }

  /**
   The two text passes publication rests on: `scrub` removes path-, address- and
   credential-shaped tokens, `printable` holds when no control or format rune occurs.
   */
  datatype Text = Text(scrub: string -> string, printable: string -> bool) {
    function Publish(k: ReviewerKey): ReviewerKey {
      ReviewerKey(scrub(k.model), scrub(k.persona))
    }

    predicate PrintableKey(k: ReviewerKey) {
      printable(k.model) && printable(k.persona)
    }
  }

  // ---------------------------------------------------------------- records

  datatype CaseScore = CaseScore(expected: seq<string>, raised: seq<string>)

  datatype ReviewerScore = ReviewerScore(key: ReviewerKey, cases: seq<CaseScore>, cost: real, latencyP50: int)

  /** A public reviewer row: identity, case count and the remaining measured columns. */
  datatype PublicRecord = PublicRecord(key: ReviewerKey, runs: int, metrics: seq<real>)

  datatype Coverage = Coverage(
    key: ReviewerKey,
    caseIDs: seq<string>,
    outcomes: Option<map<string, int>>,
    fallbackCases: int,
    grounding: Option<bool>)

  datatype CaseFailure = CaseFailure(caseID: string, reason: string)

  datatype SlotFailure = SlotFailure(key: ReviewerKey, caseID: string, reason: string)

  datatype Fit = Fit(
    key: ReviewerKey,
    caseID: string,
    replicate: int,
    outcome: string,
    findings: int,
    tokensOut: int,
    chunkCount: int,
    silentChunks: int,
    timedOut: bool)

  datatype RunResult = RunResult(
    suite: string,
    suiteVersion: string,
    reviewers: seq<PublicRecord>,
    suiteCaseIDs: seq<string>,
    coverage: seq<Coverage>,
    caseFailures: seq<CaseFailure>,
    slotFailures: seq<SlotFailure>,
    fit: seq<Fit>)

  // ------------------------------------------------------------------ score

  /** The columns `Score` derives from a reviewer's cases; their arithmetic is left open. */
  type Metrics = ReviewerScore -> seq<real>

  function ScoreOne(text: Text, metrics: Metrics, r: ReviewerScore): PublicRecord {
    PublicRecord(text.Publish(r.key), |r.cases|, metrics(r))
  }

  predicate RecordLess(a: PublicRecord, b: PublicRecord) { KeyLess(a.key, b.key) }

  /** One row per reviewer, scrubbed and sorted by identity. */
  function Score(text: Text, metrics: Metrics, rows: seq<ReviewerScore>): seq<PublicRecord> {
    StableSort(RecordLess, Map((r: ReviewerScore) => ScoreOne(text, metrics, r), rows))
  }
}
