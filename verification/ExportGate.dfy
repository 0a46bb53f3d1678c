/**
 The publication gate: `validateCaseFailures`, `validateSlotFailures` and
 `checkCoverage` decide whether a run-result file, possibly assembled by hand, may
 publish. Each is a chain of loops with early returns; each is shown to accept exactly
 the files its declarative specification describes.
 */
module ExportGate {
  import opened Basics
  import opened Orders
  import opened Benchmark

  // -------------------------------------------------------- specification

  predicate LegalTally(m: map<string, int>) {
    forall k :: k in m ==> m[k] >= 0 && k != "" && (k == OUTCOME_UNKNOWN_LABEL || ValidOutcome(k))
  }

  /** A gate-driven outcome beside a claim that the gate was off. */
  predicate TagContradicted(c: Coverage) {
    && c.grounding == Some(false)
    && c.outcomes.Some?
    && OUTCOME_UNGROUNDED in c.outcomes.value
    && c.outcomes.value[OUTCOME_UNGROUNDED] > 0
  }

  predicate LegalRow(c: Coverage) {
    (c.outcomes.Some? ==> LegalTally(c.outcomes.value)) && !TagContradicted(c)
  }

  function CoverageIds(text: Text, rows: seq<Coverage>): (ids: seq<ReviewerKey>)
    ensures |ids| == |rows| && forall i :: 0 <= i < |rows| ==> ids[i] == text.Publish(rows[i].key)
  {
    Map((c: Coverage) => text.Publish(c.key), rows)
  }

  function ReviewerIds(text: Text, rows: seq<PublicRecord>): (ids: seq<ReviewerKey>)
    ensures |ids| == |rows| && forall i :: 0 <= i < |rows| ==> ids[i] == text.Publish(rows[i].key)
  {
    Map((r: PublicRecord) => text.Publish(r.key), rows)
  }

  /** `runs` and any outcome tally count exactly the covered cases. */
  ghost predicate CountsAgree(rev: PublicRecord, cov: Coverage) {
    && rev.runs == |cov.caseIDs|
    && (cov.outcomes.Some? ==> MapSum(cov.outcomes.value) == |cov.caseIDs|)
  }

  /** Every reviewer row that joins a coverage row agrees with it and covers only the suite. */
  ghost predicate RowsAgree(text: Text, rr: RunResult) {
    forall i, j :: 0 <= i < |rr.reviewers| && 0 <= j < |rr.coverage| &&
                   text.Publish(rr.reviewers[i].key) == text.Publish(rr.coverage[j].key) ==>
                     && CountsAgree(rr.reviewers[i], rr.coverage[j])
                     && multiset(rr.coverage[j].caseIDs) <= multiset(rr.suiteCaseIDs)
  }

  /** No coverage row lacks a case of the suite. */
  ghost predicate FullyCovered(rr: RunResult) {
    forall j :: 0 <= j < |rr.coverage| ==> multiset(rr.coverage[j].caseIDs) == multiset(rr.suiteCaseIDs)
  }

  /** Reviewer and coverage rows correspond one to one by published identity, and agree. */
  ghost predicate Corresponds(text: Text, rr: RunResult) {
    && Distinct(CoverageIds(text, rr.coverage))
    && Distinct(ReviewerIds(text, rr.reviewers))
    && ToSet(CoverageIds(text, rr.coverage)) == ToSet(ReviewerIds(text, rr.reviewers))
    && RowsAgree(text, rr)
  }

  ghost predicate WellFormed(text: Text, rr: RunResult) {
    Distinct(rr.suiteCaseIDs) && rr.coverage != [] && AllLegal(rr.coverage) && Corresponds(text, rr)
  }

  /** What `checkCoverage` lets through. */
  ghost predicate CoverageSpec(text: Text, rr: RunResult, allowPartial: bool) {
    if rr.suiteCaseIDs == [] then rr.coverage == []
    else WellFormed(text, rr) && (allowPartial || FullyCovered(rr))
  }

  // ------------------------------------------------------------ the loops

  datatype Verdict =
    | Publish
    | PublishUnmeasured
    | PublishPartial(short: seq<ReviewerKey>)
    | Malformed
    | TooShort(short: seq<ReviewerKey>)
  {
    predicate Accepts() { Publish? || PublishUnmeasured? || PublishPartial? }
  }

  method IndexSuite(ids: seq<string>) returns (ok: bool, suite: set<string>)
    ensures ok <==> Distinct(ids)
    ensures ok ==> suite == ToSet(ids)
  {
    suite := {};
    for i := 0 to |ids|
      invariant Distinct(ids[..i]) && suite == ToSet(ids[..i])
    {
      assert ids[..i + 1] == ids[..i] + [ids[i]];
      DistinctSnoc(ids[..i], ids[i]);
      DistinctPrefix(ids, i + 1);
      if ids[i] in suite {
        return false, suite;
      }
      suite := suite + {ids[i]};
    }
    assert ids[..|ids|] == ids;
    return true, suite;
  }

  method CheckTally(m: map<string, int>) returns (ok: bool)
    ensures ok <==> LegalTally(m)
  {
    var left := m.Keys;
    while left != {}
      invariant left <= m.Keys
      invariant forall k :: k in m && k !in left ==> m[k] >= 0 && k != "" && (k == OUTCOME_UNKNOWN_LABEL || ValidOutcome(k))
      decreases left
    {
      var k :| k in left;
      if m[k] < 0 || k == "" || (k != OUTCOME_UNKNOWN_LABEL && !ValidOutcome(k)) {
        return false;
      }
      left := left - {k};
    }
    return true;
  }

  method SumTally(m: map<string, int>) returns (sum: int)
    ensures sum == MapSum(m)
  {
    sum := 0;
    var rest := m;
    while rest.Keys != {}
      invariant sum + MapSum(rest) == MapSum(m)
      decreases rest.Keys
    {
      var k :| k in rest.Keys;
      MapSumRemove(rest, k);
      sum := sum + rest[k];
      rest := rest - {k};
    }
    assert rest == map[];
  }

  method CheckRow(c: Coverage) returns (ok: bool)
    ensures ok <==> LegalRow(c)
  {
    if c.outcomes.Some? {
      ok := CheckTally(c.outcomes.value);
      if !ok {
        return;
      }
    }
    return !TagContradicted(c);
  }

  ghost predicate AllLegal(rows: seq<Coverage>) {
    rows == [] || (AllLegal(rows[..|rows| - 1]) && LegalRow(rows[|rows| - 1]))
  }

  lemma {:induction false} AllLegalIsEach(rows: seq<Coverage>)
    ensures AllLegal(rows) <==> forall j :: 0 <= j < |rows| ==> LegalRow(rows[j])
  {
    if rows != [] {
      var n := |rows| - 1;
      AllLegalIsEach(rows[..n]);
      assert forall j :: 0 <= j < n ==> rows[..n][j] == rows[j];
    }
  }

  lemma LegalSnoc(rows: seq<Coverage>, c: Coverage)
    ensures AllLegal(rows + [c]) <==> AllLegal(rows) && LegalRow(c)
  {
    assert (rows + [c])[..|rows|] == rows;
  }

  /** Each row is filed under its published identity, and nothing else is filed. */
  ghost predicate Indexed(text: Text, rows: seq<Coverage>, byIdentity: map<ReviewerKey, Coverage>) {
    && byIdentity.Keys == ToSet(CoverageIds(text, rows))
    && (forall j :: 0 <= j < |rows| ==>
          text.Publish(rows[j].key) in byIdentity && byIdentity[text.Publish(rows[j].key)] == rows[j])
  }

  lemma IndexSnoc(text: Text, rows: seq<Coverage>, c: Coverage, byIdentity: map<ReviewerKey, Coverage>)
    requires Indexed(text, rows, byIdentity)
    ensures CoverageIds(text, rows + [c]) == CoverageIds(text, rows) + [text.Publish(c.key)]
    ensures Distinct(CoverageIds(text, rows + [c])) <==>
            Distinct(CoverageIds(text, rows)) && text.Publish(c.key) !in byIdentity
    ensures text.Publish(c.key) !in byIdentity ==> Indexed(text, rows + [c], byIdentity[text.Publish(c.key) := c])
  {
    var ids, key := CoverageIds(text, rows), text.Publish(c.key);
    assert CoverageIds(text, rows + [c]) == ids + [key];
    DistinctSnoc(ids, key);
    assert key in byIdentity <==> key in ToSet(ids);
    if key !in byIdentity {
      var all := rows + [c];
      forall j | 0 <= j < |all| ensures var k := text.Publish(all[j].key); k in byIdentity[key := c] && byIdentity[key := c][k] == all[j] {
        if j < |rows| { assert all[j] == rows[j] && text.Publish(rows[j].key) in byIdentity; }
      }
    }
  }

  lemma {:induction false} PrefixOfLegal(text: Text, rows: seq<Coverage>, i: nat)
    requires i <= |rows|
    ensures AllLegal(rows) ==> AllLegal(rows[..i])
    ensures Distinct(CoverageIds(text, rows)) ==> Distinct(CoverageIds(text, rows[..i]))
  {
    assert CoverageIds(text, rows[..i]) == CoverageIds(text, rows)[..i];
    AllLegalIsEach(rows);
    AllLegalIsEach(rows[..i]);
  }

  /** The coverage rows by published identity; a repeated identity or an illegal row stops the pass. */
  method IndexCoverage(text: Text, rows: seq<Coverage>) returns (ok: bool, byIdentity: map<ReviewerKey, Coverage>)
    ensures ok <==> Distinct(CoverageIds(text, rows)) && AllLegal(rows)
    ensures ok ==> Indexed(text, rows, byIdentity)
  {
    byIdentity := map[];
    for i := 0 to |rows|
      invariant Distinct(CoverageIds(text, rows[..i])) && AllLegal(rows[..i]) && Indexed(text, rows[..i], byIdentity)
    {
      var c := rows[i];
      var key := text.Publish(c.key);
      assert rows[..i + 1] == rows[..i] + [c];
      IndexSnoc(text, rows[..i], c, byIdentity);
      LegalSnoc(rows[..i], c);
      PrefixOfLegal(text, rows, i + 1);
      if key in byIdentity {
        return false, byIdentity;
      }
      var legal := CheckRow(c);
      if !legal {
        return false, byIdentity;
      }
      byIdentity := byIdentity[key := c];
    }
    assert rows[..|rows|] == rows;
    return true, byIdentity;
  }

  /** `validateCoveredSet`: the suite cases a duplicate-free subset still owes, in order. */
  method ValidateCoveredSet(suite: set<string>, covered: seq<string>) returns (ok: bool, missing: seq<string>)
    ensures ok <==> Distinct(covered) && ToSet(covered) <= suite
    ensures ok ==> ToSet(missing) == suite - ToSet(covered) && Distinct(missing) && Sorted(StringLess, missing)
  {
    var seen: set<string> := {};
    missing := [];
    for i := 0 to |covered|
      invariant Distinct(covered[..i]) && seen == ToSet(covered[..i]) && seen <= suite
    {
      assert covered[..i + 1] == covered[..i] + [covered[i]];
      DistinctSnoc(covered[..i], covered[i]);
      DistinctPrefix(covered, i + 1);
      if covered[i] in seen {
        return false, [];
      }
      if covered[i] !in suite {
        assert covered[i] in ToSet(covered);
        return false, [];
      }
      seen := seen + {covered[i]};
    }
    assert covered[..|covered|] == covered;
    var unsorted := ListOf(suite - seen);
    missing := StableSort(StringLess, unsorted);
    StringLessIsTotal();
    SortSorted(StringLess, unsorted);
    SortMembers(StringLess, unsorted);
    SortPermutes(StringLess, unsorted);
    DistinctMultiset(unsorted);
    DistinctMultiset(missing);
    return true, missing;
  }

  method ListOf(s: set<string>) returns (r: seq<string>)
    ensures ToSet(r) == s && Distinct(r)
  {
    r := [];
    var left := s;
    while left != {}
      invariant Distinct(r) && left !! ToSet(r) && left + ToSet(r) == s
      decreases left
    {
      var x :| x in left;
      DistinctSnoc(r, x);
      r := r + [x];
      left := left - {x};
    }
  }

  /** A joined pair of rows the gate accepts, short or not. */
  ghost predicate PairOk(rev: PublicRecord, cov: Coverage, suite: set<string>) {
    CountsAgree(rev, cov) && Distinct(cov.caseIDs) && ToSet(cov.caseIDs) <= suite
  }

  ghost predicate Joins(text: Text, byIdentity: map<ReviewerKey, Coverage>, suite: set<string>, reviewers: seq<PublicRecord>) {
    forall i :: 0 <= i < |reviewers| ==>
      var k := text.Publish(reviewers[i].key);
      k in byIdentity && PairOk(reviewers[i], byIdentity[k], suite)
  }

  predicate IsShort(byIdentity: map<ReviewerKey, Coverage>, suite: set<string>, k: ReviewerKey) {
    k in byIdentity && !(suite <= ToSet(byIdentity[k].caseIDs))
  }

  function ShortIds(byIdentity: map<ReviewerKey, Coverage>, suite: set<string>, ids: seq<ReviewerKey>): seq<ReviewerKey> {
    Filter((k: ReviewerKey) => IsShort(byIdentity, suite, k), ids)
  }

  method CheckPair(rev: PublicRecord, cov: Coverage, suite: set<string>) returns (ok: bool, short: bool)
    ensures ok <==> PairOk(rev, cov, suite)
    ensures ok ==> (short <==> !(suite <= ToSet(cov.caseIDs)))
  {
    if rev.runs != |cov.caseIDs| {
      return false, false;
    }
    if cov.outcomes.Some? {
      var tally := SumTally(cov.outcomes.value);
      if tally != |cov.caseIDs| {
        return false, false;
      }
    }
    var missing;
    ok, missing := ValidateCoveredSet(suite, cov.caseIDs);
    short := |missing| > 0;
    if ok {
      assert missing != [] ==> missing[0] in ToSet(missing);
      assert forall x :: x in suite && x !in ToSet(cov.caseIDs) ==> x in ToSet(missing);
    }
  }

  lemma JoinSnoc(text: Text, byIdentity: map<ReviewerKey, Coverage>, suite: set<string>, reviewers: seq<PublicRecord>, rev: PublicRecord)
    ensures ReviewerIds(text, reviewers + [rev]) == ReviewerIds(text, reviewers) + [text.Publish(rev.key)]
    ensures Distinct(ReviewerIds(text, reviewers + [rev])) <==>
            Distinct(ReviewerIds(text, reviewers)) && text.Publish(rev.key) !in ToSet(ReviewerIds(text, reviewers))
    ensures Joins(text, byIdentity, suite, reviewers + [rev]) <==>
            && Joins(text, byIdentity, suite, reviewers)
            && text.Publish(rev.key) in byIdentity && PairOk(rev, byIdentity[text.Publish(rev.key)], suite)
  {
    var all := reviewers + [rev];
    assert all[|reviewers|] == rev && forall i :: 0 <= i < |reviewers| ==> all[i] == reviewers[i];
    DistinctSnoc(ReviewerIds(text, reviewers), text.Publish(rev.key));
    assert ReviewerIds(text, all) == ReviewerIds(text, reviewers) + [text.Publish(rev.key)];
  }

  lemma JoinPrefix(text: Text, byIdentity: map<ReviewerKey, Coverage>, suite: set<string>, reviewers: seq<PublicRecord>, i: nat)
    requires i <= |reviewers|
    ensures Joins(text, byIdentity, suite, reviewers) ==> Joins(text, byIdentity, suite, reviewers[..i])
    ensures Distinct(ReviewerIds(text, reviewers)) ==> Distinct(ReviewerIds(text, reviewers[..i]))
  {
    assert ReviewerIds(text, reviewers[..i]) == ReviewerIds(text, reviewers)[..i];
  }

  /** Reviewer rows, each joined to its coverage row; `short` names the rows that owe cases. */
  method JoinReviewers(text: Text, byIdentity: map<ReviewerKey, Coverage>, suite: set<string>, reviewers: seq<PublicRecord>)
    returns (ok: bool, consumed: set<ReviewerKey>, short: seq<ReviewerKey>)
    ensures ok <==> Distinct(ReviewerIds(text, reviewers)) && Joins(text, byIdentity, suite, reviewers)
    ensures ok ==> consumed == ToSet(ReviewerIds(text, reviewers)) && short == ShortIds(byIdentity, suite, ReviewerIds(text, reviewers))
  {
    consumed, short := {}, [];
    for i := 0 to |reviewers|
      invariant Distinct(ReviewerIds(text, reviewers[..i])) && consumed == ToSet(ReviewerIds(text, reviewers[..i]))
      invariant short == ShortIds(byIdentity, suite, ReviewerIds(text, reviewers[..i]))
      invariant Joins(text, byIdentity, suite, reviewers[..i])
    {
      var rev := reviewers[i];
      var key := text.Publish(rev.key);
      assert reviewers[..i + 1] == reviewers[..i] + [rev];
      JoinSnoc(text, byIdentity, suite, reviewers[..i], rev);
      JoinPrefix(text, byIdentity, suite, reviewers, i + 1);
      ShortSnoc(byIdentity, suite, ReviewerIds(text, reviewers[..i]), key);
      if key in consumed || key !in byIdentity {
        return false, consumed, short;
      }
      var good, owes := CheckPair(rev, byIdentity[key], suite);
      if !good {
        return false, consumed, short;
      }
      consumed := consumed + {key};
      if owes {
        short := short + [key];
      }
    }
    assert reviewers[..|reviewers|] == reviewers;
    return true, consumed, short;
  }

  /** A coverage row no reviewer row consumed makes the file malformed. */
  method NoLeftovers(text: Text, rows: seq<Coverage>, consumed: set<ReviewerKey>) returns (ok: bool)
    ensures ok <==> ToSet(CoverageIds(text, rows)) <= consumed
  {
    ghost var ids := CoverageIds(text, rows);
    for i := 0 to |rows|
      invariant forall j :: 0 <= j < i ==> ids[j] in consumed
    {
      if text.Publish(rows[i].key) !in consumed {
        assert ids[i] in ToSet(ids);
        return false;
      }
    }
    return true;
  }

  lemma ShortSnoc(byIdentity: map<ReviewerKey, Coverage>, suite: set<string>, ids: seq<ReviewerKey>, k: ReviewerKey)
    ensures ShortIds(byIdentity, suite, ids + [k]) ==
            if IsShort(byIdentity, suite, k) then ShortIds(byIdentity, suite, ids) + [k] else ShortIds(byIdentity, suite, ids)
  {
    var p := (x: ReviewerKey) => IsShort(byIdentity, suite, x);
    FilterConcat(p, ids, [k]);
    FilterCons(p, k, []);
    assert [k] + [] == [k];
    assert Filter(p, ids) + [] == Filter(p, ids);
  }

  // ----------------------------------------------- the gate is its specification

  /** A duplicate-free subset of the suite is a sub-multiset of it, and a full one is a permutation. */
  lemma SubsetIsSubmultiset(covered: seq<string>, suite: seq<string>)
    requires Distinct(suite)
    ensures Distinct(covered) && ToSet(covered) <= ToSet(suite) <==> multiset(covered) <= multiset(suite)
    ensures Distinct(covered) && ToSet(covered) <= ToSet(suite) && ToSet(suite) <= ToSet(covered) <==> multiset(covered) == multiset(suite)
  {
    DistinctMultiset(suite);
    DistinctMultiset(covered);
    DistinctSubset(suite, covered);
    if Distinct(covered) { DistinctSubset(covered, suite); }
    if multiset(covered) <= multiset(suite) {
      forall x ensures multiset(covered)[x] <= 1 { assert multiset(covered)[x] <= multiset(suite)[x]; }
    }
    assert multiset(covered) == multiset(suite) <==> multiset(covered) <= multiset(suite) && multiset(suite) <= multiset(covered);
  }

  lemma CorrespondingRowsJoin(text: Text, rr: RunResult, byIdentity: map<ReviewerKey, Coverage>)
    requires Distinct(rr.suiteCaseIDs) && Indexed(text, rr.coverage, byIdentity) && Corresponds(text, rr)
    ensures Joins(text, byIdentity, ToSet(rr.suiteCaseIDs), rr.reviewers)
  {
    var revs, covs := ReviewerIds(text, rr.reviewers), CoverageIds(text, rr.coverage);
    forall i | 0 <= i < |rr.reviewers|
      ensures revs[i] in byIdentity && PairOk(rr.reviewers[i], byIdentity[revs[i]], ToSet(rr.suiteCaseIDs))
    {
      assert revs[i] in ToSet(revs);
      assert revs[i] in ToSet(covs);
      var j :| 0 <= j < |covs| && covs[j] == revs[i];
      SubsetIsSubmultiset(rr.coverage[j].caseIDs, rr.suiteCaseIDs);
    }
  }

  lemma JoinedRowsAgree(text: Text, rr: RunResult, byIdentity: map<ReviewerKey, Coverage>)
    requires Distinct(rr.suiteCaseIDs) && Indexed(text, rr.coverage, byIdentity)
    requires Joins(text, byIdentity, ToSet(rr.suiteCaseIDs), rr.reviewers)
    ensures RowsAgree(text, rr) && ToSet(ReviewerIds(text, rr.reviewers)) <= ToSet(CoverageIds(text, rr.coverage))
  {
    var revs, covs := ReviewerIds(text, rr.reviewers), CoverageIds(text, rr.coverage);
    forall x | x in ToSet(revs) ensures x in ToSet(covs) {
      var i :| 0 <= i < |revs| && revs[i] == x;
      assert revs[i] in byIdentity;
    }
    forall i, j | 0 <= i < |rr.reviewers| && 0 <= j < |rr.coverage| && revs[i] == covs[j]
      ensures CountsAgree(rr.reviewers[i], rr.coverage[j]) && multiset(rr.coverage[j].caseIDs) <= multiset(rr.suiteCaseIDs)
    {
      assert byIdentity[revs[i]] == rr.coverage[j];
      SubsetIsSubmultiset(rr.coverage[j].caseIDs, rr.suiteCaseIDs);
    }
  }

  /** Given the index, the row loop and the leftover loop accept exactly the corresponding rows. */
  lemma JoinIsCorrespondence(text: Text, rr: RunResult, byIdentity: map<ReviewerKey, Coverage>)
    requires Distinct(rr.suiteCaseIDs) && Distinct(CoverageIds(text, rr.coverage)) && Indexed(text, rr.coverage, byIdentity)
    ensures Corresponds(text, rr) <==>
            && Distinct(ReviewerIds(text, rr.reviewers))
            && Joins(text, byIdentity, ToSet(rr.suiteCaseIDs), rr.reviewers)
            && ToSet(CoverageIds(text, rr.coverage)) <= ToSet(ReviewerIds(text, rr.reviewers))
  {
    if Corresponds(text, rr) { CorrespondingRowsJoin(text, rr, byIdentity); }
    if Joins(text, byIdentity, ToSet(rr.suiteCaseIDs), rr.reviewers) { JoinedRowsAgree(text, rr, byIdentity); }
  }

  lemma ShortIsNotPermutation(text: Text, rr: RunResult, byIdentity: map<ReviewerKey, Coverage>, j: nat)
    requires Distinct(rr.suiteCaseIDs) && Corresponds(text, rr) && Indexed(text, rr.coverage, byIdentity) && j < |rr.coverage|
    ensures var k := CoverageIds(text, rr.coverage)[j];
            && k in ReviewerIds(text, rr.reviewers)
            && (IsShort(byIdentity, ToSet(rr.suiteCaseIDs), k) <==> multiset(rr.coverage[j].caseIDs) != multiset(rr.suiteCaseIDs))
  {
    var revs, covs := ReviewerIds(text, rr.reviewers), CoverageIds(text, rr.coverage);
    assert covs[j] in ToSet(covs);
    assert covs[j] in ToSet(revs);
    var i :| 0 <= i < |revs| && revs[i] == covs[j];
    assert byIdentity[covs[j]] == rr.coverage[j];
    SubsetIsSubmultiset(rr.coverage[j].caseIDs, rr.suiteCaseIDs);
  }

  /** No row is short exactly when every row's case list is a permutation of the suite. */
  lemma NoneShortIsFull(text: Text, rr: RunResult, byIdentity: map<ReviewerKey, Coverage>)
    requires Distinct(rr.suiteCaseIDs) && Corresponds(text, rr) && Indexed(text, rr.coverage, byIdentity)
    ensures ShortIds(byIdentity, ToSet(rr.suiteCaseIDs), ReviewerIds(text, rr.reviewers)) == [] <==> FullyCovered(rr)
  {
    var revs, covs, suite := ReviewerIds(text, rr.reviewers), CoverageIds(text, rr.coverage), ToSet(rr.suiteCaseIDs);
    var p := (k: ReviewerKey) => IsShort(byIdentity, suite, k);
    if FullyCovered(rr) {
      forall k | k in revs ensures !p(k) {
        assert k in ToSet(revs);
        assert k in ToSet(covs);
        var j :| 0 <= j < |covs| && covs[j] == k;
        ShortIsNotPermutation(text, rr, byIdentity, j);
      }
      FilterNone(p, revs);
    } else {
      var j :| 0 <= j < |rr.coverage| && multiset(rr.coverage[j].caseIDs) != multiset(rr.suiteCaseIDs);
      ShortIsNotPermutation(text, rr, byIdentity, j);
      FilterIn(p, revs, covs[j]);
    }
  }

  /** `checkCoverage` accepts exactly the files its specification describes, in both modes. */
  method CheckCoverage(text: Text, rr: RunResult, allowPartial: bool) returns (v: Verdict)
    ensures v.Accepts() <==> CoverageSpec(text, rr, allowPartial)
    ensures v.Publish? <==> rr.suiteCaseIDs != [] && CoverageSpec(text, rr, false)
    ensures v.Malformed? <==> !CoverageSpec(text, rr, true)
  {
    if rr.suiteCaseIDs == [] {
      if rr.coverage != [] {
        return Malformed;
      }
      return PublishUnmeasured;
    }
    var ok, suite := IndexSuite(rr.suiteCaseIDs);
    if !ok || rr.coverage == [] {
      return Malformed;
    }
    var byIdentity;
    ok, byIdentity := IndexCoverage(text, rr.coverage);
    if !ok {
      return Malformed;
    }
    JoinIsCorrespondence(text, rr, byIdentity);
    var consumed, short;
    ok, consumed, short := JoinReviewers(text, byIdentity, suite, rr.reviewers);
    if !ok {
      return Malformed;
    }
    ok := NoLeftovers(text, rr.coverage, consumed);
    if !ok {
      return Malformed;
    }
    NoneShortIsFull(text, rr, byIdentity);
    if |short| == 0 {
      return Publish;
    }
    if allowPartial {
      return PublishPartial(short);
    }
    return TooShort(short);
  }

  /** Two rows of one identity that agree and cover part of the suite. */
  ghost predicate Stands(text: Text, id: ReviewerKey, rev: PublicRecord, cov: Coverage, suite: seq<string>) {
    && text.Publish(cov.key) == id && text.Publish(rev.key) == id
    && CountsAgree(rev, cov)
    && multiset(cov.caseIDs) <= multiset(suite)
  }

  /** Arrays whose rows stand pairwise, one identity each, correspond. */
  lemma StandingRowsCorrespond(text: Text, ids: seq<ReviewerKey>, rr: RunResult)
    requires Distinct(ids) && |rr.coverage| == |rr.reviewers| == |ids|
    requires forall i :: 0 <= i < |ids| ==> Stands(text, ids[i], rr.reviewers[i], rr.coverage[i], rr.suiteCaseIDs)
    ensures Corresponds(text, rr)
  {
    var covs, revs := CoverageIds(text, rr.coverage), ReviewerIds(text, rr.reviewers);
    forall i | 0 <= i < |ids| ensures covs[i] == ids[i] == revs[i] {
      assert Stands(text, ids[i], rr.reviewers[i], rr.coverage[i], rr.suiteCaseIDs);
    }
    assert covs == ids && revs == ids;
    forall i, j | 0 <= i < |ids| && 0 <= j < |ids| && revs[i] == covs[j] ensures i == j { }
  }

  // ------------------------------------------------------ the failure channels

  /** The cases some coverage row scored. */
  ghost function CoveredCases(rows: seq<Coverage>): set<string> {
    set j, id | 0 <= j < |rows| && id in rows[j].caseIDs :: id
  }

  ghost predicate CaseFailureOk(text: Text, rr: RunResult, f: CaseFailure) {
    && ValidCaseFailureReason(f.reason)
    && !Blank(f.caseID) && text.printable(f.caseID)
    && f.caseID in rr.suiteCaseIDs
    && f.caseID !in CoveredCases(rr.coverage)
  }

  function FailedIds(fs: seq<CaseFailure>): seq<string> { Map((f: CaseFailure) => f.caseID, fs) }

  ghost predicate AllCaseFailuresOk(text: Text, rr: RunResult, fs: seq<CaseFailure>) {
    (forall i :: 0 <= i < |fs| ==> CaseFailureOk(text, rr, fs[i])) && Distinct(FailedIds(fs))
  }

  /** What `validateCaseFailures` lets through; the entry count bound of the code follows from it. */
  ghost predicate CaseFailuresSpec(text: Text, rr: RunResult) {
    AllCaseFailuresOk(text, rr, rr.caseFailures)
  }

  lemma CaseFailuresSnoc(text: Text, rr: RunResult, fs: seq<CaseFailure>, f: CaseFailure)
    ensures FailedIds(fs + [f]) == FailedIds(fs) + [f.caseID]
    ensures AllCaseFailuresOk(text, rr, fs + [f]) <==>
            AllCaseFailuresOk(text, rr, fs) && CaseFailureOk(text, rr, f) && f.caseID !in FailedIds(fs)
  {
    var all := fs + [f];
    assert FailedIds(all) == FailedIds(fs) + [f.caseID];
    DistinctSnoc(FailedIds(fs), f.caseID);
    assert all[|fs|] == f && forall i :: 0 <= i < |fs| ==> all[i] == fs[i];
  }

  lemma CaseFailuresPrefix(text: Text, rr: RunResult, fs: seq<CaseFailure>, i: nat)
    requires i <= |fs|
    ensures AllCaseFailuresOk(text, rr, fs) ==> AllCaseFailuresOk(text, rr, fs[..i])
  {
    assert FailedIds(fs[..i]) == FailedIds(fs)[..i];
  }

  lemma {:induction false} SetOfSeqSize(s: seq<string>)
    ensures |ToSet(s)| <= |s|
  {
    if s != [] {
      SetOfSeqSize(s[1..]);
      assert ToSet(s) == {s[0]} + ToSet(s[1..]);
    }
  }

  lemma SubsetSize(a: set<string>, b: set<string>)
    requires a <= b
    ensures |a| <= |b|
  {
    assert b == a + (b - a);
  }

  /** Distinct failures inside the suite are never more than the suite. */
  lemma CaseFailuresFit(text: Text, rr: RunResult)
    ensures CaseFailuresSpec(text, rr) ==> |rr.caseFailures| <= |rr.suiteCaseIDs|
  {
    var ids := FailedIds(rr.caseFailures);
    if CaseFailuresSpec(text, rr) {
      DistinctSize(ids);
      forall x | x in ToSet(ids) ensures x in ToSet(rr.suiteCaseIDs) {
        var i :| 0 <= i < |ids| && ids[i] == x;
        assert CaseFailureOk(text, rr, rr.caseFailures[i]);
      }
      SubsetSize(ToSet(ids), ToSet(rr.suiteCaseIDs));
      SetOfSeqSize(rr.suiteCaseIDs);
    }
  }

  /** The union of the covered sets, as the validators build it. */
  method ScoredCases(rows: seq<Coverage>) returns (scored: set<string>)
    ensures scored == CoveredCases(rows)
  {
    scored := {};
    for i := 0 to |rows|
      invariant scored == CoveredCases(rows[..i])
    {
      assert rows[..i + 1] == rows[..i] + [rows[i]];
      scored := scored + ToSet(rows[i].caseIDs);
    }
    assert rows[..|rows|] == rows;
  }

  /** `validateCaseFailures` accepts exactly the files its specification describes. */
  method ValidateCaseFailures(text: Text, rr: RunResult) returns (ok: bool)
    ensures ok <==> CaseFailuresSpec(text, rr)
  {
    var fs := rr.caseFailures;
    if fs == [] {
      return true;
    }
    CaseFailuresFit(text, rr);
    if |fs| > |rr.suiteCaseIDs| {
      return false;
    }
    var suite := ToSet(rr.suiteCaseIDs);
    var scored := ScoredCases(rr.coverage);
    var seen: set<string> := {};
    for i := 0 to |fs|
      invariant AllCaseFailuresOk(text, rr, fs[..i]) && seen == ToSet(FailedIds(fs[..i]))
    {
      var f := fs[i];
      assert fs[..i + 1] == fs[..i] + [f];
      CaseFailuresSnoc(text, rr, fs[..i], f);
      CaseFailuresPrefix(text, rr, fs, i + 1);
      DistinctSnoc(FailedIds(fs[..i]), f.caseID);
      if !ValidCaseFailureReason(f.reason) || Blank(f.caseID) || !text.printable(f.caseID) {
        return false;
      }
      if f.caseID !in suite || f.caseID in scored || f.caseID in seen {
        return false;
      }
      seen := seen + {f.caseID};
    }
    assert fs[..|fs|] == fs;
    return true;
  }

  ghost predicate RowExists(rows: seq<Coverage>, k: ReviewerKey) {
    exists j :: 0 <= j < |rows| && rows[j].key == k
  }

  ghost predicate RowCovers(rows: seq<Coverage>, k: ReviewerKey, id: string) {
    exists j :: 0 <= j < |rows| && rows[j].key == k && id in rows[j].caseIDs
  }

  ghost predicate SlotFailureOk(text: Text, rr: RunResult, f: SlotFailure) {
    && ValidSlotFailureReason(f.reason)
    && !Blank(f.caseID) && !Blank(f.key.model) && !Blank(f.key.persona)
    && text.printable(f.caseID) && text.PrintableKey(f.key)
    && f.caseID in rr.suiteCaseIDs
    && RowExists(rr.coverage, f.key)
    && !RowCovers(rr.coverage, f.key, f.caseID)
  }

  /** One reviewer on one case. */
  datatype Pair = Pair(key: ReviewerKey, caseID: string)

  function FailedPairs(fs: seq<SlotFailure>): seq<Pair> { Map((f: SlotFailure) => Pair(f.key, f.caseID), fs) }

  ghost predicate AllSlotFailuresOk(text: Text, rr: RunResult, fs: seq<SlotFailure>) {
    (forall i :: 0 <= i < |fs| ==> SlotFailureOk(text, rr, fs[i])) && Distinct(FailedPairs(fs))
  }

  /** What `validateSlotFailures` lets through. */
  ghost predicate SlotFailuresSpec(text: Text, rr: RunResult) {
    AllSlotFailuresOk(text, rr, rr.slotFailures)
  }

  /** The string the code files a pair under: three fields joined by NUL. */
  function PairText(p: Pair): string {
    p.key.model + ['\0'] + p.key.persona + ['\0'] + p.caseID
  }

  /** NUL is a control rune, so no printable text holds one. */
  ghost predicate NulIsUnprintable(text: Text) {
    forall s, i :: text.printable(s) && 0 <= i < |s| ==> s[i] != '\0'
  }

  lemma SplitAtNul(a: string, x: string, b: string, y: string)
    requires '\0' !in a && '\0' !in b
    requires a + ['\0'] + x == b + ['\0'] + y
    ensures a == b && x == y
  {
    var s, t := a + ['\0'] + x, b + ['\0'] + y;
    assert s[|a|] == '\0' && t[|b|] == '\0';
    assert a == s[..|a|] && b == t[..|b|];
    assert x == s[|a| + 1..] && y == t[|b| + 1..];
  }

  /** On printable fields the joined string identifies the pair. */
  lemma PairTextInjective(text: Text, p: Pair, q: Pair)
    requires NulIsUnprintable(text) && text.PrintableKey(p.key) && text.PrintableKey(q.key)
    ensures PairText(p) == PairText(q) <==> p == q
  {
    if PairText(p) == PairText(q) {
      var restP, restQ := p.key.persona + ['\0'] + p.caseID, q.key.persona + ['\0'] + q.caseID;
      assert PairText(p) == p.key.model + ['\0'] + restP && PairText(q) == q.key.model + ['\0'] + restQ;
      SplitAtNul(p.key.model, restP, q.key.model, restQ);
      SplitAtNul(p.key.persona, p.caseID, q.key.persona, q.caseID);
    }
  }

  lemma SlotFailuresSnoc(text: Text, rr: RunResult, fs: seq<SlotFailure>, f: SlotFailure)
    ensures FailedPairs(fs + [f]) == FailedPairs(fs) + [Pair(f.key, f.caseID)]
    ensures AllSlotFailuresOk(text, rr, fs + [f]) <==>
            AllSlotFailuresOk(text, rr, fs) && SlotFailureOk(text, rr, f) && Pair(f.key, f.caseID) !in FailedPairs(fs)
  {
    var all := fs + [f];
    assert FailedPairs(all) == FailedPairs(fs) + [Pair(f.key, f.caseID)];
    DistinctSnoc(FailedPairs(fs), Pair(f.key, f.caseID));
    assert all[|fs|] == f && forall i :: 0 <= i < |fs| ==> all[i] == fs[i];
  }

  lemma SlotFailuresPrefix(text: Text, rr: RunResult, fs: seq<SlotFailure>, i: nat)
    requires i <= |fs|
    ensures AllSlotFailuresOk(text, rr, fs) ==> AllSlotFailuresOk(text, rr, fs[..i])
  {
    assert FailedPairs(fs[..i]) == FailedPairs(fs)[..i];
  }

  ghost function PairTexts(fs: seq<SlotFailure>): set<string> {
    set p | p in FailedPairs(fs) :: PairText(p)
  }

  lemma SeenIsFaithful(text: Text, rr: RunResult, fs: seq<SlotFailure>, f: SlotFailure)
    requires NulIsUnprintable(text) && AllSlotFailuresOk(text, rr, fs) && text.PrintableKey(f.key)
    ensures PairText(Pair(f.key, f.caseID)) in PairTexts(fs) <==> Pair(f.key, f.caseID) in FailedPairs(fs)
  {
    var p := Pair(f.key, f.caseID);
    forall q | q in FailedPairs(fs) ensures PairText(p) == PairText(q) <==> p == q {
      var i :| 0 <= i < |fs| && FailedPairs(fs)[i] == q;
      assert SlotFailureOk(text, rr, fs[i]);
      PairTextInjective(text, p, q);
    }
  }

  ghost predicate CoveredIndex(rows: seq<Coverage>, covered: map<ReviewerKey, set<string>>) {
    && (forall k :: k in covered <==> RowExists(rows, k))
    && (forall k, id :: k in covered ==> (id in covered[k] <==> RowCovers(rows, k, id)))
  }

  lemma CoveredSnoc(rows: seq<Coverage>, c: Coverage, covered: map<ReviewerKey, set<string>>)
    requires CoveredIndex(rows, covered)
    ensures CoveredIndex(rows + [c], covered[c.key := (if c.key in covered then covered[c.key] else {}) + ToSet(c.caseIDs)])
  {
    var all := rows + [c];
    assert all[|rows|] == c && forall j :: 0 <= j < |rows| ==> all[j] == rows[j];
    forall k ensures RowExists(all, k) <==> RowExists(rows, k) || k == c.key { }
    forall k, id ensures RowCovers(all, k, id) <==> RowCovers(rows, k, id) || (k == c.key && id in c.caseIDs) { }
    forall id | RowCovers(rows, c.key, id) ensures c.key in covered { assert RowExists(rows, c.key); }
  }

  /** The covered set of each raw identity; rows of one identity are merged. */
  method IndexCovered(rows: seq<Coverage>) returns (covered: map<ReviewerKey, set<string>>)
    ensures CoveredIndex(rows, covered)
  {
    covered := map[];
    for i := 0 to |rows|
      invariant CoveredIndex(rows[..i], covered)
    {
      var c := rows[i];
      assert rows[..i + 1] == rows[..i] + [c];
      CoveredSnoc(rows[..i], c, covered);
      covered := covered[c.key := (if c.key in covered then covered[c.key] else {}) + ToSet(c.caseIDs)];
    }
    assert rows[..|rows|] == rows;
  }

  /** The arms one entry passes before the repeat check. */
  method CheckSlotFailure(text: Text, rr: RunResult, suite: set<string>, covered: map<ReviewerKey, set<string>>, f: SlotFailure) returns (ok: bool)
    requires suite == ToSet(rr.suiteCaseIDs) && CoveredIndex(rr.coverage, covered)
    ensures ok <==> SlotFailureOk(text, rr, f)
  {
    if !ValidSlotFailureReason(f.reason) || Blank(f.caseID) || Blank(f.key.model) || Blank(f.key.persona) {
      return false;
    }
    if !text.printable(f.caseID) || !text.PrintableKey(f.key) {
      return false;
    }
    return f.caseID in suite && f.key in covered && f.caseID !in covered[f.key];
  }

  /** `validateSlotFailures` accepts exactly the files its specification describes. */
  method ValidateSlotFailures(text: Text, rr: RunResult) returns (ok: bool)
    requires NulIsUnprintable(text)
    ensures ok <==> SlotFailuresSpec(text, rr)
  {
    var fs := rr.slotFailures;
    if fs == [] {
      return true;
    }
    if rr.suiteCaseIDs == [] {
      assert !SlotFailureOk(text, rr, fs[0]);
      return false;
    }
    var suite := ToSet(rr.suiteCaseIDs);
    var covered := IndexCovered(rr.coverage);
    var seen: set<string> := {};
    for i := 0 to |fs|
      invariant AllSlotFailuresOk(text, rr, fs[..i]) && seen == PairTexts(fs[..i])
    {
      var f := fs[i];
      assert fs[..i + 1] == fs[..i] + [f];
      SlotFailuresSnoc(text, rr, fs[..i], f);
      SlotFailuresPrefix(text, rr, fs, i + 1);
      var stands := CheckSlotFailure(text, rr, suite, covered, f);
      if !stands {
        return false;
      }
      SeenIsFaithful(text, rr, fs[..i], f);
      var pair := PairText(Pair(f.key, f.caseID));
      if pair in seen {
        return false;
      }
      seen := seen + {pair};
    }
    assert fs[..|fs|] == fs;
    return true;
  }

  /** The gate as export runs it: both failure channels, then the coverage. */
  ghost predicate GateSpec(text: Text, rr: RunResult, allowPartial: bool) {
    CaseFailuresSpec(text, rr) && SlotFailuresSpec(text, rr) && CoverageSpec(text, rr, allowPartial)
  }

  method Gate(text: Text, rr: RunResult, allowPartial: bool) returns (ok: bool)
    requires NulIsUnprintable(text)
    ensures ok <==> GateSpec(text, rr, allowPartial)
  {
    ok := ValidateCaseFailures(text, rr);
    if !ok {
      return;
    }
    ok := ValidateSlotFailures(text, rr);
    if !ok {
      return;
    }
    var v := CheckCoverage(text, rr, allowPartial);
    return v.Accepts();
  }
}
