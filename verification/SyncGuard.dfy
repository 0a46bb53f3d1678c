/**
 `sync-outcomes` refuses a stale row because the history already records its outcome. After
 compaction the history is shorter: this module says exactly which outcomes it still records.
 */
module SyncGuard {
  import opened Basics
  import opened Orders
  import opened DebtFold
  import opened DebtRecord
  import opened DebtCompact
  import opened CompactLimits
  import opened SyncOutcomes

  /** No rationale in the history outranks `mark`. */
  ghost predicate TopRationale(hist: seq<Record>, mark: Mark) {
    forall i :: 0 <= i < |hist| && BearsRationale(hist[i].status) ==> ClosedRank(hist[i].status) <= ClosedRank(Marked(mark))
  }

  lemma RankIsInjective(a: Status, b: Status)
    requires IsClosed(a) && IsClosed(b) && ClosedRank(a) == ClosedRank(b)
    ensures a == b
  {
  }

  /**
   The guard against closing a regression reads history, so it survives compaction as long
   as the recorded outcome is the highest-ranked rationale of a finding that is open again.
   */
  lemma GuardSurvivesCompaction(time: Times, hist: seq<Record>, mark: Mark)
    requires hist != [] && !IsClosed(hist[EffIndex(time, hist)].status)
    requires RecordedAs(hist, mark) && BearsRationale(Marked(mark)) && TopRationale(hist, mark)
    ensures RecordedAs(Retained(time, hist), mark)
  {
    var e, plan := EffIndex(time, hist), PlanOf(time, hist);
    var i :| 0 <= i < |hist| && hist[i].status == Marked(mark);
    TrailOutranks(hist, e, |hist|, i);
    var t := plan.trail.value;
    RankIsInjective(hist[t].status, Marked(mark));
    RetainedSplits(time, hist);
    assert plan.Kept()[0] == t;
    assert Retained(time, hist)[0] == Stripped(Folded(time, hist), hist[t]);
  }

  // What a reader of the history can see of each retained position.

  ghost predicate EffectiveSays(time: Times, hist: seq<Record>, mark: Mark)
    requires hist != []
  {
    hist[EffIndex(time, hist)].status == Marked(mark)
  }

  /** A superseded rationale says it, and none ranks higher. */
  ghost predicate TrailSays(hist: seq<Record>, e: nat, mark: Mark)
    requires e < |hist|
  {
    && (exists i :: 0 <= i < |hist| && IsTrail(hist, e, i) && hist[i].status == Marked(mark))
    && (forall j :: 0 <= j < |hist| && IsTrail(hist, e, j) ==> ClosedRank(hist[j].status) <= ClosedRank(Marked(mark)))
  }

  ghost predicate NewestCarrier(hist: seq<Record>, i: nat) {
    && i < |hist| && CarriesModel(hist[i])
    && forall j :: 0 <= j < |hist| && CarriesModel(hist[j]) ==> Outlasts(hist, i, j)
  }

  /** The newest close that names a model says it. */
  ghost predicate DonorSays(hist: seq<Record>, mark: Mark) {
    exists i: nat :: NewestCarrier(hist, i) && hist[i].status == Marked(mark)
  }

  /** The close that the scan for the latest one ends on says it. */
  ghost predicate LastCloseSays(time: Times, hist: seq<Record>, mark: Mark) {
    Says(hist, LatestClosed(time, hist), mark)
  }

  /** Given up on, by the last close, by the ranking rationale or by the newest attributed close. */
  ghost predicate ExhaustedInPlay(time: Times, hist: seq<Record>)
    requires hist != []
  {
    || LastCloseSays(time, hist, AttemptsExhausted)
    || TrailSays(hist, EffIndex(time, hist), AttemptsExhausted)
    || DonorSays(hist, AttemptsExhausted)
  }

  predicate Says(hist: seq<Record>, o: Option<nat>, mark: Mark) {
    o.Some? && o.value < |hist| && hist[o.value].status == Marked(mark)
  }

  lemma TrailSaysIff(hist: seq<Record>, e: nat, mark: Mark)
    requires e < |hist|
    ensures TrailSays(hist, e, mark) <==> Says(hist, BestTrail(hist, e, |hist|), mark)
  {
    var best := BestTrail(hist, e, |hist|);
    if TrailSays(hist, e, mark) {
      var i :| 0 <= i < |hist| && IsTrail(hist, e, i) && hist[i].status == Marked(mark);
      TrailOutranks(hist, e, |hist|, i);
      RankIsInjective(hist[best.value].status, Marked(mark));
    }
    if Says(hist, best, mark) {
      forall j | 0 <= j < |hist| && IsTrail(hist, e, j) ensures ClosedRank(hist[j].status) <= ClosedRank(Marked(mark)) {
        TrailOutranks(hist, e, |hist|, j);
      }
    }
  }

  lemma DonorIsNewest(hist: seq<Record>)
    requires Donor(hist, |hist|).Some?
    ensures NewestCarrier(hist, Donor(hist, |hist|).value)
  {
    var best := Donor(hist, |hist|).value;
    forall j | 0 <= j < |hist| && CarriesModel(hist[j]) ensures Outlasts(hist, best, j) { DonorOutlasts(hist, |hist|, j); }
  }

  lemma NewestIsOne(hist: seq<Record>, i: nat, j: nat)
    requires NewestCarrier(hist, i) && NewestCarrier(hist, j)
    ensures i == j
  {
    assert Outlasts(hist, i, j) && Outlasts(hist, j, i);
  }

  lemma DonorSaysIff(hist: seq<Record>, mark: Mark)
    ensures DonorSays(hist, mark) <==> Says(hist, Donor(hist, |hist|), mark)
  {
    var best := Donor(hist, |hist|);
    if best.Some? {
      DonorIsNewest(hist);
    }
    if DonorSays(hist, mark) {
      var i: nat :| NewestCarrier(hist, i) && hist[i].status == Marked(mark);
      DonorOutlasts(hist, |hist|, i);
      NewestIsOne(hist, i, best.value);
    }
  }

  /** Some retained position says it. */
  lemma RetainedSays(time: Times, hist: seq<Record>, mark: Mark)
    requires hist != []
    ensures var plan := PlanOf(time, hist);
            RecordedAs(Retained(time, hist), mark) <==>
            Says(hist, plan.trail, mark) || Says(hist, plan.latest, mark) || Says(hist, plan.donor, mark) || EffectiveSays(time, hist, mark)
  {
    RetainedIsDrawn(time, hist);
    PlanIsGood(time, hist);
    DrawnSays(hist, Retained(time, hist), PlanOf(time, hist), EffIndex(time, hist), mark);
  }

  /** Some record of `hist` at the positions `from` says it. */
  ghost predicate SaidAt(hist: seq<Record>, from: seq<nat>, mark: Mark) {
    exists i :: 0 <= i < |from| && Says(hist, Some(from[i]), mark)
  }

  lemma SaidAtEither(hist: seq<Record>, a: seq<nat>, o: Option<nat>, mark: Mark)
    ensures SaidAt(hist, a + AsSeq(o), mark) <==> SaidAt(hist, a, mark) || Says(hist, o, mark)
  {
    var both := a + AsSeq(o);
    if i :| 0 <= i < |a| && Says(hist, Some(a[i]), mark) { assert both[i] == a[i]; }
    if Says(hist, o, mark) { assert both[|a|] == o.value; }
  }

  lemma DrawnSays(hist: seq<Record>, after: seq<Record>, plan: Plan, e: nat, mark: Mark)
    requires DrawnFrom(hist, after, plan.Kept() + [e])
    ensures RecordedAs(after, mark) <==>
            Says(hist, plan.trail, mark) || Says(hist, plan.latest, mark) || Says(hist, plan.donor, mark) || Says(hist, Some(e), mark)
  {
    var from := plan.Kept() + [e];
    if i :| 0 <= i < |from| && Says(hist, Some(from[i]), mark) { assert after[i].status == Marked(mark); }
    if i :| 0 <= i < |after| && after[i].status == Marked(mark) { assert Says(hist, Some(from[i]), mark); }
    assert plan.Kept() + [e] == plan.Kept() + AsSeq(Some(e)) && [] + AsSeq(plan.trail) == AsSeq(plan.trail);
    SaidAtEither(hist, plan.Kept(), Some(e), mark);
    SaidAtEither(hist, AsSeq(plan.trail) + AsSeq(plan.latest), plan.donor, mark);
    SaidAtEither(hist, AsSeq(plan.trail), plan.latest, mark);
    SaidAtEither(hist, [], plan.trail, mark);
  }

  /** The plan in terms of the four candidates it is made from. */
  lemma PlanSays(time: Times, hist: seq<Record>, mark: Mark)
    requires hist != []
    ensures var plan, e := PlanOf(time, hist), EffIndex(time, hist);
            var trail, donor, latest := BestTrail(hist, e, |hist|), Donor(hist, |hist|), LatestClosed(time, hist);
            var inPlay := Says(hist, latest, AttemptsExhausted) || Says(hist, trail, AttemptsExhausted) || Says(hist, donor, AttemptsExhausted);
            (Says(hist, plan.trail, mark) || Says(hist, plan.latest, mark) || Says(hist, plan.donor, mark) || EffectiveSays(time, hist, mark)) <==>
            (EffectiveSays(time, hist, mark) || Says(hist, trail, mark) || Says(hist, donor, mark) ||
             (!IsClosed(hist[e].status) && inPlay && Says(hist, latest, mark)))
  {
    var e := EffIndex(time, hist);
    ArrangeSays(hist, e, BestTrail(hist, e, |hist|), Donor(hist, |hist|), LatestClosed(time, hist), mark);
  }

  lemma ArrangeSays(hist: seq<Record>, e: nat, trail: Option<nat>, carrier: Option<nat>, closed: Option<nat>, mark: Mark)
    requires e < |hist| && (carrier == Some(e) ==> IsClosed(hist[e].status))
    ensures var plan := Arrange(hist, e, trail, carrier, closed);
            var inPlay := Says(hist, closed, AttemptsExhausted) || Says(hist, trail, AttemptsExhausted) || Says(hist, carrier, AttemptsExhausted);
            (Says(hist, plan.trail, mark) || Says(hist, plan.latest, mark) || Says(hist, plan.donor, mark) || Says(hist, Some(e), mark)) <==>
            (Says(hist, Some(e), mark) || Says(hist, trail, mark) || Says(hist, carrier, mark) ||
             (!IsClosed(hist[e].status) && inPlay && Says(hist, closed, mark)))
  {
  }

  /**
   The guard against closing a regression reads history. After compaction an outcome still
   reads as recorded exactly when the effective record says it, or the highest-ranking
   superseded rationale, or the newest close that names a model, or, for a finding that is
   open while giving up is in play, its last close.
   */
  lemma GuardSurvivesIff(time: Times, hist: seq<Record>, mark: Mark)
    requires hist != []
    ensures var e := EffIndex(time, hist);
            RecordedAs(Retained(time, hist), mark) <==>
            || EffectiveSays(time, hist, mark)
            || TrailSays(hist, e, mark)
            || DonorSays(hist, mark)
            || (!IsClosed(hist[e].status) && ExhaustedInPlay(time, hist) && LastCloseSays(time, hist, mark))
  {
    var e := EffIndex(time, hist);
    RetainedSays(time, hist, mark);
    PlanSays(time, hist, mark);
    TrailSaysIff(hist, e, mark);
    DonorSaysIff(hist, mark);
    TrailSaysIff(hist, e, AttemptsExhausted);
    DonorSaysIff(hist, AttemptsExhausted);
  }

  /** On timestamps that parse, the last close is the last one of maximal timestamp and precedence. */
  lemma LastCloseIsMaximum(time: Times, hist: seq<Record>, mark: Mark)
    requires WellTimed(time, hist)
    ensures LastCloseSays(time, hist, mark) <==> exists i: nat :: IsLastMaximum(EntryOf, Closes(), hist, i) && hist[i].status == Marked(mark)
  {
    var latest := LatestClosed(time, hist);
    assert ValidStamps(Valid(time), EntryOf, hist);
    LatestIsLastMaximum(Valid(time), EntryOf, Closes(), hist);
    LatestFinds(Valid(time), EntryOf, Closes(), hist);
    if i: nat :| IsLastMaximum(EntryOf, Closes(), hist, i) && hist[i].status == Marked(mark) {
      assert Closes()(hist[i]);
      LastMaximumIsUnique(EntryOf, Closes(), hist, i, latest.value);
    }
  }

  // ---------------------------------------------------------- a forgotten outcome

  function Located(status: Status, timestamp: string): Record {
    Note(status, timestamp, "").(file := "x")
  }

  /** A finding fixed, detected again, closed as unreproducible, and detected again. */
  function Returned(a: string, b: string, c: string, d: string): seq<Record> {
    [Located(Marked(Resolved), a), Located(Unset, b), Located(Marked(Unreproducible), c), Located(Unset, d)]
  }

  ghost predicate FourTimes(time: Times, a: string, b: string, c: string, d: string) {
    Earlier(time, a, b) && Earlier(time, b, c) && Earlier(time, c, d)
  }

  lemma ReturnedTrail(hist: seq<Record>)
    requires |hist| == 4 && hist[0].status == Marked(Resolved) && hist[1].status == Unset
    requires hist[2].status == Marked(Unreproducible) && hist[3].status == Unset && hist[0].model == hist[2].model == ""
    ensures BestTrail(hist, 3, 4) == Some(2) && Donor(hist, 4) == None
  {
    assert BestTrail(hist, 3, 1) == Some(0) && BestTrail(hist, 3, 2) == Some(0) && BestTrail(hist, 3, 3) == Some(2);
    assert Donor(hist, 1) == Donor(hist, 2) == Donor(hist, 3) == None;
  }

  lemma ReturnedEffective(time: Times, a: string, b: string, c: string, d: string)
    requires FourTimes(time, a, b, c, d)
    ensures EffIndex(time, Returned(a, b, c, d)) == 3
  {
    var hist := Returned(a, b, c, d);
    StringLessTransitive(b, c, d);
    StringLessTransitive(a, b, d);
    assert hist == hist[..3] + [hist[3]];
    LastWins(time, hist[..3], hist[3]);
  }

  /** The fix is said by no position that survives. */
  lemma FixIsForgotten(time: Times, a: string, b: string, c: string, d: string)
    requires FourTimes(time, a, b, c, d)
    ensures !RecordedAs(Retained(time, Returned(a, b, c, d)), Resolved)
  {
    var hist := Returned(a, b, c, d);
    ReturnedEffective(time, a, b, c, d);
    ReturnedTrail(hist);
    TrailSaysIff(hist, 3, Resolved);
    TrailSaysIff(hist, 3, AttemptsExhausted);
    DonorSaysIff(hist, Resolved);
    DonorSaysIff(hist, AttemptsExhausted);
    GuardSurvivesIff(time, hist, Resolved);
  }

  /** A table may close an open, located finding whose history does not say so yet. */
  lemma OpenIsClosable(env: Env, wording: Row -> string, first: Row, hist: seq<Record>)
    requires hist != [] && !RecordedAs(hist, Resolved) && forall r :: env.fits(r)
    requires Folded(env.time, hist).status == Unset && Folded(env.time, hist).file != ""
    ensures Decision(env, wording, hist, "f", Want(Resolved, first, false)).Some?
  {
  }

  lemma RecordedIsSkipped(env: Env, wording: Row -> string, first: Row, hist: seq<Record>)
    requires RecordedAs(hist, Resolved)
    ensures Decision(env, wording, hist, "f", Want(Resolved, first, false)).None?
  {
  }

  lemma ReturnedReads(time: Times, a: string, b: string, c: string, d: string)
    requires FourTimes(time, a, b, c, d) && time("").None?
    ensures var hist := Returned(a, b, c, d);
            && Folded(time, hist).status == Unset
            && Folded(time, Retained(time, hist)).status == Unset && Folded(time, Retained(time, hist)).file == "x"
  {
    var hist := Returned(a, b, c, d);
    ReturnedEffective(time, a, b, c, d);
    assert WellTimed(time, hist) && SaneFirstSeen(time, hist);
    WellFormedReadsAlike(time, hist);
    RetainedReadsAlikeIff(time, hist);
    FoldedIsSame(time, hist);
  }

  /**
   Otherwise compaction forgets the outcome: before it the stale row is skipped, after it
   the same row closes the regression.
   */
  lemma CompactionForgetsOutcome(env: Env, wording: Row -> string, first: Row, a: string, b: string, c: string, d: string)
    requires FourTimes(env.time, a, b, c, d) && env.time("").None? && forall r :: env.fits(r)
    ensures var hist := Returned(a, b, c, d);
            && Decision(env, wording, hist, "f", Want(Resolved, first, false)).None?
            && Decision(env, wording, Retained(env.time, hist), "f", Want(Resolved, first, false)).Some?
  {
    var hist := Returned(a, b, c, d);
    assert hist[0].status == Marked(Resolved);
    RecordedIsSkipped(env, wording, first, hist);
    FixIsForgotten(env.time, a, b, c, d);
    ReturnedReads(env.time, a, b, c, d);
    RetainedSplits(env.time, hist);
    OpenIsClosable(env, wording, first, Retained(env.time, hist));
  }
}
