/** The durable checkpoint of a benchmark run: its entries, its integrity check and its resume guards. */
module Checkpoint {
  import opened Basics
  import opened Orders
  import opened Benchmark

  /** One run of one case: the case's suite index and the replicate number, from 1. */
  datatype CaseRun = CaseRun(index: int, replicate: int)

  datatype CheckpointReviewer = CheckpointReviewer(
    agent: string,
    key: ReviewerKey,
    raised: seq<string>,
    usageReported: bool,
    cost: real,
    latency: int,
    outcome: string,
    fallbackUsed: bool,
    tokensOut: int,
    chunkCount: int,
    silentChunks: int,
    timedOut: bool)

  datatype CheckpointCase = CheckpointCase(
    index: int,
    caseID: string,
    expected: seq<string>,
    reviewers: seq<CheckpointReviewer>,
    grounding: Option<bool>,
    replicate: int)
  {
    /** A legacy entry's 0 reads as replicate 1. */
    function Replicate(): int {
      if replicate < 1 then 1 else replicate
    }

    function Key(): CaseRun {
      CaseRun(index, Replicate())
    }
  }

  const ROSTER_FORMAT_UNION := "union"

  datatype RunCheckpoint = RunCheckpoint(
    reproHash: string,
    suite: string,
    suiteVersion: string,
    roster: Option<seq<string>>,
    rosterFormat: string,
    cases: seq<CheckpointCase>)

  // -------------------------------------------------------------- integrity

  predicate EntryWellFormed(c: CheckpointCase) {
    && c.index >= 0
    && c.replicate >= 0
    && c.caseID != ""
    && (forall j :: 0 <= j < |c.reviewers| ==> ValidOutcome(c.reviewers[j].outcome))
  }

  predicate KeysDistinct(cases: seq<CheckpointCase>) {
    forall i, j :: 0 <= i < j < |cases| ==> cases[i].Key() != cases[j].Key()
  }

  predicate Integrity(cp: RunCheckpoint) {
    && cp.rosterFormat in ["", ROSTER_FORMAT_UNION]
    && (forall i :: 0 <= i < |cp.cases| ==> EntryWellFormed(cp.cases[i]))
    && KeysDistinct(cp.cases)
  }

  /** `validateCheckpointIntegrity`: one pass with a set of the keys seen so far. */
  method ValidateIntegrity(cp: RunCheckpoint) returns (ok: bool)
    ensures ok <==> Integrity(cp)
  {
    if cp.rosterFormat !in ["", ROSTER_FORMAT_UNION] {
      return false;
    }
    var seen: set<CaseRun> := {};
    for i := 0 to |cp.cases|
      invariant forall j :: 0 <= j < i ==> EntryWellFormed(cp.cases[j]) && cp.cases[j].Key() in seen
      invariant forall k :: k in seen ==> exists j :: 0 <= j < i && cp.cases[j].Key() == k
      invariant KeysDistinct(cp.cases[..i])
    {
      var c := cp.cases[i];
      if c.index < 0 || c.replicate < 0 || c.caseID == "" {
        return false;
      }
      if c.Key() in seen {
        return false;
      }
      seen := seen + {c.Key()};
      for j := 0 to |c.reviewers|
        invariant forall k :: 0 <= k < j ==> ValidOutcome(c.reviewers[k].outcome)
      {
        if !ValidOutcome(c.reviewers[j].outcome) {
          return false;
        }
      }
    }
    assert cp.cases[..|cp.cases|] == cp.cases;
    return true;
  }

  // ---------------------------------------------------------------- lookup

  function Keys(cases: seq<CheckpointCase>): set<CaseRun> {
    set c | c in cases :: c.Key()
  }

  /** `doneIndex`: a later entry overwrites an earlier one with its key. */
  function DoneMap(cases: seq<CheckpointCase>): (m: map<CaseRun, CheckpointCase>)
    ensures m.Keys == Keys(cases)
  {
    if cases == [] then map[]
    else
      var n := |cases| - 1;
      assert cases == cases[..n] + [cases[n]];
      DoneMap(cases[..n])[cases[n].Key() := cases[n]]
  }

  method DoneIndex(cp: RunCheckpoint) returns (done: map<CaseRun, CheckpointCase>)
    ensures done == DoneMap(cp.cases)
  {
    done := map[];
    for i := 0 to |cp.cases|
      invariant done == DoneMap(cp.cases[..i])
    {
      assert cp.cases[..i + 1][..i] == cp.cases[..i];
      done := done[cp.cases[i].Key() := cp.cases[i]];
    }
    assert cp.cases[..|cp.cases|] == cp.cases;
  }

  /** On a file that passes the integrity check no entry is lost to the lookup. */
  lemma {:induction false} DoneMapIsFaithful(cases: seq<CheckpointCase>, i: nat)
    requires KeysDistinct(cases) && i < |cases|
    ensures cases[i].Key() in DoneMap(cases) && DoneMap(cases)[cases[i].Key()] == cases[i]
  {
    var n := |cases| - 1;
    if i < n { DoneMapIsFaithful(cases[..n], i); }
  }

  // ----------------------------------------------------------------- guards

  predicate SameSuite(cp: RunCheckpoint, reproHash: string, suite: string, suiteVersion: string) {
    cp.reproHash == reproHash && cp.suite == suite && cp.suiteVersion == suiteVersion
  }

  function SortedCopy(s: seq<string>): seq<string> {
    StableSort(StringLess, s)
  }

  /** `validateCheckpointRoster`: equal panels resume; an unstamped parallel-lane roster is upgraded. */
  function RosterGuard(cp: RunCheckpoint, roster: seq<string>, legacyRoster: seq<string>): Result<RunCheckpoint> {
    if cp.roster.None? then Err
    else
      var recorded := SortedCopy(cp.roster.value);
      var current := SortedCopy(roster);
      if recorded == current then Ok(cp)
      else if cp.rosterFormat == "" && |recorded| > 0 && recorded == SortedCopy(legacyRoster) then
        Ok(cp.(roster := Some(current), rosterFormat := ROSTER_FORMAT_UNION))
      else Err
  }

  lemma SortedCopiesAgree(a: seq<string>, b: seq<string>)
    ensures SortedCopy(a) == SortedCopy(b) <==> multiset(a) == multiset(b)
  {
    SortPermutes(StringLess, a);
    SortPermutes(StringLess, b);
    if multiset(a) == multiset(b) {
      StringLessIsTotal();
      SortOfPermutation(StringLess, a, b);
    }
  }

  /** A resume is let through exactly when the recorded panel is this panel, or its unstamped parallel half. */
  lemma RosterGuardIsPanelEquality(cp: RunCheckpoint, roster: seq<string>, legacyRoster: seq<string>)
    ensures RosterGuard(cp, roster, legacyRoster).Ok? <==>
            && cp.roster.Some?
            && (|| multiset(cp.roster.value) == multiset(roster)
                || (&& cp.rosterFormat == "" && cp.roster.value != []
                    && multiset(cp.roster.value) == multiset(legacyRoster)))
    ensures RosterGuard(cp, roster, legacyRoster).Ok? ==>
              var cp' := RosterGuard(cp, roster, legacyRoster).value;
              && cp'.cases == cp.cases && cp'.roster.Some? && multiset(cp'.roster.value) == multiset(roster)
  {
    if cp.roster.Some? {
      SortedCopiesAgree(cp.roster.value, roster);
      SortedCopiesAgree(cp.roster.value, legacyRoster);
      SortPermutes(StringLess, roster);
    }
  }
}
