/**
 Compaction of the debt store (`retainForCompaction`): each finding's history shrinks to
 its effective record and at most three superseded ones. Readers must not notice: the
 fold of a compacted store is the fold of the store it came from.
 */
module DebtCompact {
  import opened Basics
  import opened Orders
  import opened DebtFold
  import opened DebtRecord

  // ------------------------------------------------------- what is retained

  /** A superseded rationale: not the effective record, and text the effective record lacks. */
  predicate IsTrail(group: seq<Record>, e: nat, i: nat)
    requires e < |group| && i < |group|
  {
    && i != e
    && BearsRationale(group[i].status)
    && !(BearsRationale(group[e].status) && group[i].justification == group[e].justification)
  }

  /** `highestRankedTerminalIndex` over the trail records among the first `n`. */
  function BestTrail(group: seq<Record>, e: nat, n: nat): (r: Option<nat>)
    requires e < |group| && n <= |group|
    ensures r.Some? ==> r.value < n && IsTrail(group, e, r.value)
  {
    if n == 0 then None
    else
      var best, i := BestTrail(group, e, n - 1), n - 1;
      if !IsTrail(group, e, i) then best
      else if best.None? then Some(i)
      else
        var rank, top := ClosedRank(group[i].status), ClosedRank(group[best.value].status);
        if rank > top || (rank == top && !StringLess(group[i].timestamp, group[best.value].timestamp)) then Some(i) else best
  }

  /** No trail record outranks the chosen one. */
  lemma {:induction false} TrailOutranks(group: seq<Record>, e: nat, n: nat, i: nat)
    requires e < |group| && i < n <= |group| && IsTrail(group, e, i)
    ensures BestTrail(group, e, n).Some? && ClosedRank(group[BestTrail(group, e, n).value].status) >= ClosedRank(group[i].status)
  {
    if i < n - 1 { TrailOutranks(group, e, n - 1, i); }
  }

  predicate CarriesModel(r: Record) { IsClosed(r.status) && r.model != "" }

  /** `modelDonorIndex` over the first `n` records: the newest closed one with a model, the last on a tie. */
  function Donor(group: seq<Record>, n: nat): (r: Option<nat>)
    requires n <= |group|
    ensures r.Some? ==> r.value < n && CarriesModel(group[r.value])
  {
    if n == 0 then None
    else
      var best, i := Donor(group, n - 1), n - 1;
      if CarriesModel(group[i]) && (best.None? || !StringLess(group[i].timestamp, group[best.value].timestamp)) then Some(i)
      else best
  }

  /** The superseded records kept beside the effective one, by position. */
  datatype Plan = Plan(trail: Option<nat>, latest: Option<nat>, donor: Option<nat>) {
    function Kept(): seq<nat> { AsSeq(trail) + AsSeq(latest) + AsSeq(donor) }
  }

  function AsSeq(o: Option<nat>): seq<nat> { if o.Some? then [o.value] else [] }

  predicate Exhausted(group: seq<Record>, o: Option<nat>) {
    o.Some? && o.value < |group| && group[o.value].status == Marked(AttemptsExhausted)
  }

  function Closes(): Record -> bool { (r: Record) => IsClosed(r.status) }

  function LatestClosed(time: Times, group: seq<Record>): (r: Option<nat>)
    ensures r.Some? ==> r.value < |group| && IsClosed(group[r.value].status)
  {
    LatestWhere(Valid(time), EntryOf, Closes(), group)
  }

  function EffIndex(time: Times, group: seq<Record>): (e: nat)
    requires group != []
    ensures e < |group|
  {
    FoldIndex(Valid(time), RECORDS, group)
  }

  /** The plan, given the best trail, the newest model carrier and the latest close. */
  function Arrange(group: seq<Record>, e: nat, trail: Option<nat>, carrier: Option<nat>, closed: Option<nat>): Plan
    requires e < |group|
  {
    var donor := if carrier == trail || carrier == Some(e) then None else carrier;
    var latest := if IsClosed(group[e].status) then None else closed;
    if latest == trail || latest == donor || (!Exhausted(group, latest) && !Exhausted(group, trail) && !Exhausted(group, donor))
    then Plan(trail, None, donor)
    else Plan(trail, latest, donor)
  }

  function PlanOf(time: Times, group: seq<Record>): Plan
    requires group != []
  {
    var e := EffIndex(time, group);
    Arrange(group, e, BestTrail(group, e, |group|), Donor(group, |group|), LatestClosed(time, group))
  }

  /** A superseded record gives up its counters and takes the newest annotation if it had one. */
  function Stripped(eff: Record, r: Record): Record {
    r.(occurrences := 0, firstSeen := "", countedThrough := "", feedback := if r.feedback.Some? then eff.feedback else None)
  }

  function StrippedAll(eff: Record, group: seq<Record>, kept: seq<nat>): (r: seq<Record>)
    requires forall i :: 0 <= i < |kept| ==> kept[i] < |group|
    ensures |r| == |kept| && forall i :: 0 <= i < |kept| ==> r[i] == Stripped(eff, group[kept[i]])
  {
    if kept == [] then [] else StrippedAll(eff, group, kept[..|kept| - 1]) + [Stripped(eff, group[kept[|kept| - 1]])]
  }

  ghost predicate GoodKept(group: seq<Record>, e: nat, kept: seq<nat>) {
    forall i :: 0 <= i < |kept| ==> kept[i] < |group| && kept[i] != e
  }

  lemma PlanIsGood(time: Times, group: seq<Record>)
    requires group != []
    ensures GoodKept(group, EffIndex(time, group), PlanOf(time, group).Kept())
    ensures |PlanOf(time, group).Kept()| <= 3 && Distinct(PlanOf(time, group).Kept())
  {
  }

  /** One id's retained records; the effective one comes last. */
  function Retained(time: Times, group: seq<Record>): (r: seq<Record>) {
    if group == [] then []
    else
      PlanIsGood(time, group);
      var eff := Folded(time, group);
      StrippedAll(eff, group, PlanOf(time, group).Kept()) + [eff]
  }

  function RetainIds(time: Times, recs: seq<Record>, ids: seq<string>): seq<Record> {
    if ids == [] then []
    else RetainIds(time, recs, ids[..|ids| - 1]) + Retained(time, GroupOf(RECORDS, recs, ids[|ids| - 1]))
  }

  /** `retainForCompaction`. */
  function Retain(time: Times, recs: seq<Record>): seq<Record> {
    RetainIds(time, recs, Ids(RECORDS, recs))
  }

  // --------------------------------------------- a compacted group folds alike

  /** The timestamps of a group all parse, and the empty text does not. */
  ghost predicate WellTimed(time: Times, group: seq<Record>) {
    time("").None? && forall i :: 0 <= i < |group| ==> time(group[i].timestamp).Some?
  }

  /** What a fold of a once-folded record still fills in: an absent counting boundary. */
  function Settled(r: Record): Record {
    if r.countedThrough == "" then r.(countedThrough := r.timestamp) else r
  }

  lemma FoldedFields(time: Times, group: seq<Record>)
    requires group != []
    ensures var r, x := Folded(time, group), group[EffIndex(time, group)];
            && r.id == x.id && EntryOf(r) == EntryOf(x)
            && r.occurrences == Occurrences(group) >= 1
            && r.countedThrough == CountedThrough(Boundary(Carrier(group)), group)
            && r.firstSeen == FirstSeen(time, group)
            && r.feedback == (if NewestFeedback(time, group).Some? then group[NewestFeedback(time, group).value].feedback else x.feedback)
            && r == x.(occurrences := r.occurrences, firstSeen := r.firstSeen, countedThrough := r.countedThrough, feedback := r.feedback)
  {
  }

  /** What folding leaves of a record: everything but its counters and its annotation. */
  ghost predicate SameFinding(a: Record, b: Record) {
    a.id == b.id && a.status == b.status && a.timestamp == b.timestamp && a.model == b.model &&
    a.justification == b.justification && a.file == b.file
  }

  lemma FoldedIsSame(time: Times, group: seq<Record>)
    requires group != []
    ensures SameFinding(Folded(time, group), group[EffIndex(time, group)])
  {
  }

  lemma RetainedSplits(time: Times, group: seq<Record>)
    requires group != []
    ensures GoodKept(group, EffIndex(time, group), PlanOf(time, group).Kept())
    ensures Retained(time, group) == StrippedAll(Folded(time, group), group, PlanOf(time, group).Kept()) + [Folded(time, group)]
  {
    PlanIsGood(time, group);
  }

  lemma MaximumAfter(time: Times, p: Record -> bool, group: seq<Record>, e: nat, kept: seq<nat>, eff: Record)
    requires WellTimed(time, group) && GoodKept(group, e, kept) && IsLastMaximum(EntryOf, p, group, e)
    requires EntryOf(eff) == EntryOf(group[e]) && p(eff)
    requires forall r: Record, s: Record :: EntryOf(r) == EntryOf(s) ==> p(r) == p(s)
    ensures LatestWhere(Valid(time), EntryOf, p, StrippedAll(eff, group, kept) + [eff]) == Some(|kept|)
  {
    var after := StrippedAll(eff, group, kept) + [eff];
    forall i | 0 <= i < |kept| ensures EntryOf(after[i]) == EntryOf(group[kept[i]]) && p(after[i]) == p(group[kept[i]]) { }
    assert ValidStamps(Valid(time), EntryOf, after);
    AheadIsWeak(EntryOf(eff), EntryOf(eff), EntryOf(eff));
    assert IsLastMaximum(EntryOf, p, after, |kept|);
    LatestIsLastMaximum(Valid(time), EntryOf, p, after);
    var r := LatestWhere(Valid(time), EntryOf, p, after);
    assert p(after[|kept|]);
    LastMaximumIsUnique(EntryOf, p, after, r.value, |kept|);
  }

  function SuppressesRecord(): Record -> bool { (r: Record) => Suppresses(RECORDS, r) }

  function AnyRecord(): Record -> bool { (r: Record) => true }

  lemma {:induction false} FoldIndexArms(time: Times, group: seq<Record>)
    requires group != []
    ensures var kept := LatestWhere(Valid(time), EntryOf, SuppressesRecord(), group);
            EffIndex(time, group) == if kept.Some? then kept.value else LatestWhere(Valid(time), EntryOf, AnyRecord(), group).value
    ensures LatestWhere(Valid(time), EntryOf, AnyRecord(), group).Some?
  {
    LatestOfProjection(Valid(time), (r: Record) => r, EntryOf, SuppressesRecord(), RECORDS.entry, (x: Record) => Suppresses(RECORDS, x), group);
    LatestOfProjection(Valid(time), (r: Record) => r, EntryOf, AnyRecord(), RECORDS.entry, (x: Record) => true, group);
    assert Map((r: Record) => r, group) == group;
  }

  /** The winner among the records satisfying `p` wins among the retained ones. */
  lemma WinnerStays(time: Times, p: Record -> bool, group: seq<Record>, e: nat, kept: seq<nat>, eff: Record)
    requires WellTimed(time, group) && GoodKept(group, e, kept) && e < |group| && EntryOf(eff) == EntryOf(group[e])
    requires LatestWhere(Valid(time), EntryOf, p, group) == Some(e)
    requires forall r: Record, s: Record :: EntryOf(r) == EntryOf(s) ==> p(r) == p(s)
    ensures LatestWhere(Valid(time), EntryOf, p, StrippedAll(eff, group, kept) + [eff]) == Some(|kept|)
  {
    assert ValidStamps(Valid(time), EntryOf, group);
    LatestIsLastMaximum(Valid(time), EntryOf, p, group);
    MaximumAfter(time, p, group, e, kept, eff);
  }

  lemma NoneStays(time: Times, p: Record -> bool, group: seq<Record>, e: nat, kept: seq<nat>, eff: Record)
    requires GoodKept(group, e, kept) && e < |group| && EntryOf(eff) == EntryOf(group[e])
    requires LatestWhere(Valid(time), EntryOf, p, group) == None
    requires forall r: Record, s: Record :: EntryOf(r) == EntryOf(s) ==> p(r) == p(s)
    ensures LatestWhere(Valid(time), EntryOf, p, StrippedAll(eff, group, kept) + [eff]) == None
  {
    var after := StrippedAll(eff, group, kept) + [eff];
    LatestFinds(Valid(time), EntryOf, p, group);
    LatestFinds(Valid(time), EntryOf, p, after);
    forall i | 0 <= i < |after| ensures !p(after[i]) {
      var origin := if i < |kept| then kept[i] else e;
      assert EntryOf(after[i]) == EntryOf(group[origin]) && !p(group[origin]);
    }
  }

  lemma SuppressionIsOfEntry()
    ensures forall r: Record, s: Record :: EntryOf(r) == EntryOf(s) ==> SuppressesRecord()(r) == SuppressesRecord()(s)
    ensures forall r: Record, s: Record :: EntryOf(r) == EntryOf(s) ==> AnyRecord()(r) == AnyRecord()(s)
  {
  }

  /** The effective record wins its compacted group again, from the last position. */
  lemma EffectiveStays(time: Times, group: seq<Record>, kept: seq<nat>, eff: Record)
    requires group != [] && WellTimed(time, group) && GoodKept(group, EffIndex(time, group), kept)
    requires EntryOf(eff) == EntryOf(group[EffIndex(time, group)])
    ensures EffIndex(time, StrippedAll(eff, group, kept) + [eff]) == |kept|
  {
    var e := EffIndex(time, group);
    SuppressionIsOfEntry();
    FoldIndexArms(time, group);
    FoldIndexArms(time, StrippedAll(eff, group, kept) + [eff]);
    if LatestWhere(Valid(time), EntryOf, SuppressesRecord(), group).Some? {
      WinnerStays(time, SuppressesRecord(), group, e, kept, eff);
    } else {
      NoneStays(time, SuppressesRecord(), group, e, kept, eff);
      WinnerStays(time, AnyRecord(), group, e, kept, eff);
    }
  }

  /** The records at these positions, as they stood. */
  function Superseded(group: seq<Record>, kept: seq<nat>): (r: seq<Record>)
    requires forall i :: 0 <= i < |kept| ==> kept[i] < |group|
    ensures |r| == |kept| && forall i :: 0 <= i < |kept| ==> r[i] == group[kept[i]]
  {
    if kept == [] then [] else Superseded(group, kept[..|kept| - 1]) + [group[kept[|kept| - 1]]]
  }

  /** The records that compete with the effective one: the suppressing ones if it suppresses, else all. */
  function Rivals(eff: Entry): Record -> bool {
    if IsSuppressing(eff.status) then SuppressesRecord() else AnyRecord()
  }

  /** The winner among the other records, if there is one, yields to the effective record. */
  ghost predicate StaysAhead(time: Times, others: seq<Record>, eff: Entry) {
    var rival := LatestWhere(Valid(time), EntryOf, Rivals(eff), others);
    rival.None? || Displaces(Valid(time), eff, EntryOf(others[rival.value]))
  }

  lemma StrippedScansAlike(time: Times, p: Record -> bool, group: seq<Record>, kept: seq<nat>, eff: Record)
    requires forall i :: 0 <= i < |kept| ==> kept[i] < |group|
    requires forall r: Record, s: Record :: EntryOf(r) == EntryOf(s) ==> p(r) == p(s)
    ensures LatestWhere(Valid(time), EntryOf, p, StrippedAll(eff, group, kept)) == LatestWhere(Valid(time), EntryOf, p, Superseded(group, kept))
  {
    var strip := (r: Record) => Stripped(eff, r);
    assert Map(strip, Superseded(group, kept)) == StrippedAll(eff, group, kept);
    LatestOfProjection(Valid(time), strip, EntryOf, p, EntryOf, p, Superseded(group, kept));
  }

  /** A scan that ends with a candidate ends on it exactly when it displaces the leader so far. */
  lemma ScanEndsOnLast(time: Times, p: Record -> bool, rest: seq<Record>, last: Record)
    requires p(last)
    ensures var r, best := LatestWhere(Valid(time), EntryOf, p, rest + [last]), LatestWhere(Valid(time), EntryOf, p, rest);
            if best.None? || Displaces(Valid(time), EntryOf(last), EntryOf(rest[best.value])) then r == Some(|rest|) else r == best
  {
    assert (rest + [last])[..|rest|] == rest;
  }

  lemma RivalsArm(time: Times, group: seq<Record>, kept: seq<nat>, eff: Record)
    requires group != [] && GoodKept(group, EffIndex(time, group), kept) && EntryOf(eff) == EntryOf(group[EffIndex(time, group)])
    ensures var after := StrippedAll(eff, group, kept) + [eff];
            LatestWhere(Valid(time), EntryOf, Rivals(EntryOf(eff)), after) == Some(EffIndex(time, after))
  {
    var e, after := EffIndex(time, group), StrippedAll(eff, group, kept) + [eff];
    SuppressionIsOfEntry();
    FoldIndexArms(time, group);
    FoldIndexArms(time, after);
    if IsSuppressing(eff.status) {
      LatestFinds(Valid(time), EntryOf, SuppressesRecord(), after);
      assert SuppressesRecord()(after[|kept|]);
    } else {
      NoneStays(time, SuppressesRecord(), group, e, kept, eff);
    }
  }

  /**
   Whatever the timestamps, the effective record wins its compacted group again exactly
   when the winner among the other retained records yields to it; when it does not, the
   finding shows another status or another time.
   */
  lemma EffectiveStaysIff(time: Times, group: seq<Record>, kept: seq<nat>, eff: Record)
    requires group != [] && GoodKept(group, EffIndex(time, group), kept) && EntryOf(eff) == EntryOf(group[EffIndex(time, group)])
    ensures var after := StrippedAll(eff, group, kept) + [eff];
            && (EffIndex(time, after) == |kept| <==> StaysAhead(time, Superseded(group, kept), EntryOf(eff)))
            && (EffIndex(time, after) != |kept| ==> EntryOf(after[EffIndex(time, after)]) != EntryOf(eff))
  {
    var p, rest := Rivals(EntryOf(eff)), StrippedAll(eff, group, kept);
    SuppressionIsOfEntry();
    RivalsArm(time, group, kept, eff);
    ScanEndsOnLast(time, p, rest, eff);
    StrippedScansAlike(time, p, group, kept, eff);
  }

  /** A later boundary covers what an earlier one covered. */
  lemma LaterCovers(a: string, b: string, x: string)
    requires !StringLess(a, x) && (a == b || StringLess(a, b))
    ensures !StringLess(b, x)
  {
    if a != b && StringLess(b, x) { StringLessTransitive(a, b, x); }
  }

  lemma {:induction false} CountedCovers(boundary: string, group: seq<Record>, i: nat)
    requires i < |group| && IsSighting(group[i])
    ensures !StringLess(CountedThrough(boundary, group), group[i].timestamp)
  {
    var n := |group| - 1;
    if i < n {
      CountedCovers(boundary, group[..n], i);
      LaterCovers(CountedThrough(boundary, group[..n]), CountedThrough(boundary, group), group[i].timestamp);
    } else {
      StringLessIrreflexive(group[n].timestamp);
    }
  }

  /** The counting boundary of a folded record: no sighting of its group lies beyond it. */
  lemma NoSightingBeyond(time: Times, group: seq<Record>, i: nat)
    requires i < |group| && IsSighting(group[i])
    ensures !StringLess(Boundary(Some(Folded(time, group))), group[i].timestamp)
  {
    FoldedFields(time, group);
    CountedCovers(Boundary(Carrier(group)), group, i);
  }

  lemma {:induction false} OnlyCarrier(rest: seq<Record>, eff: Record)
    requires eff.occurrences != 0 && forall i :: 0 <= i < |rest| ==> rest[i].occurrences == 0
    ensures Carrier(rest + [eff]) == Some(eff)
  {
    NoCarrier(rest);
    assert (rest + [eff])[..|rest|] == rest;
  }

  lemma {:induction false} NoCarrier(rest: seq<Record>)
    requires forall i :: 0 <= i < |rest| ==> rest[i].occurrences == 0
    ensures Carrier(rest) == None
  {
    if rest != [] { NoCarrier(rest[..|rest| - 1]); }
  }

  lemma {:induction false} CountedStays(boundary: string, group: seq<Record>)
    requires forall i :: 0 <= i < |group| && IsSighting(group[i]) ==> !StringLess(boundary, group[i].timestamp)
    ensures CountedThrough(boundary, group) == boundary
  {
    if group != [] {
      var n := |group| - 1;
      CountedStays(boundary, group[..n]);
    }
  }

  /** The compacted group counts what the whole group counted, and nothing twice. */
  lemma CountersStay(time: Times, group: seq<Record>, kept: seq<nat>)
    requires group != [] && GoodKept(group, EffIndex(time, group), kept)
    ensures var eff := Folded(time, group);
            var after := StrippedAll(eff, group, kept) + [eff];
            && Carrier(after) == Some(eff)
            && Occurrences(after) == eff.occurrences
            && CountedThrough(Boundary(Some(eff)), after) == Boundary(Some(eff))
  {
    var eff := Folded(time, group);
    var rest := StrippedAll(eff, group, kept);
    var after := rest + [eff];
    var boundary := Boundary(Some(eff));
    FoldedFields(time, group);
    OnlyCarrier(rest, eff);
    forall i | 0 <= i < |after| && IsSighting(after[i]) ensures !StringLess(boundary, after[i].timestamp) {
      if i < |kept| {
        if NewestFeedback(time, group).None? { FeedbackIsFound(time, group, kept[i]); }
        assert IsSighting(group[kept[i]]);
        NoSightingBeyond(time, group, kept[i]);
      } else {
        EffectiveSighting(time, group);
      }
    }
    CountedStays(boundary, after);
    NothingFresh(eff.occurrences, boundary, after);
  }

  lemma EffectiveSighting(time: Times, group: seq<Record>)
    requires group != [] && IsSighting(Folded(time, group))
    ensures !StringLess(Boundary(Some(Folded(time, group))), Folded(time, group).timestamp)
  {
    FoldedFields(time, group);
    var e := EffIndex(time, group);
    assert NewestFeedback(time, group).None?;
    assert IsSighting(group[e]);
    NoSightingBeyond(time, group, e);
  }

  lemma NothingFresh(carried: int, boundary: string, group: seq<Record>)
    requires carried != 0
    requires forall i :: 0 <= i < |group| && IsSighting(group[i]) ==> !StringLess(boundary, group[i].timestamp)
    ensures FreshCount(carried, boundary, group) == 0
  {
    FilterNone((r: Record) => IsFresh(carried, boundary, r), group);
  }

  lemma FeedbackStays(time: Times, group: seq<Record>, kept: seq<nat>)
    requires group != [] && GoodKept(group, EffIndex(time, group), kept)
    ensures var eff := Folded(time, group);
            var after := StrippedAll(eff, group, kept) + [eff];
            var i := NewestFeedback(time, after);
            if i.Some? then after[i.value].feedback == eff.feedback else eff.feedback.None?
  {
    var eff := Folded(time, group);
    var after := StrippedAll(eff, group, kept) + [eff];
    var i := NewestFeedback(time, after);
    if i.None? { assert after[|kept|] == eff; }
  }

  /** The compacted group folds to the same record exactly when the effective record stays ahead. */
  lemma GroupFoldsAlikeIff(time: Times, group: seq<Record>, kept: seq<nat>)
    requires group != [] && GoodKept(group, EffIndex(time, group), kept)
    ensures var eff := Folded(time, group);
            var after := StrippedAll(eff, group, kept) + [eff];
            Folded(time, after) == Settled(eff).(firstSeen := FirstSeen(time, after)) <==> StaysAhead(time, Superseded(group, kept), EntryOf(eff))
  {
    var eff := Folded(time, group);
    var after := StrippedAll(eff, group, kept) + [eff];
    FoldedFields(time, group);
    EffectiveStaysIff(time, group, kept, eff);
    CountersStay(time, group, kept);
    FeedbackStays(time, group, kept);
    FoldedFields(time, after);
  }

  // ------------------------------------------------------------- first sighting

  /** Each record's first sighting parses and is not after the record itself. */
  ghost predicate SaneFirstSeen(time: Times, group: seq<Record>) {
    forall i :: 0 <= i < |group| ==>
      && time(SeenAt(group[i])).Some? && time(group[i].timestamp).Some?
      && time(SeenAt(group[i])).value <= time(group[i].timestamp).value
  }

  ghost predicate AllSeen(time: Times, group: seq<Record>) {
    time("").None? && forall i :: 0 <= i < |group| ==> time(SeenAt(group[i])).Some?
  }

  ghost predicate IsEarliest(time: Times, group: seq<Record>, t: int) {
    && (forall i :: 0 <= i < |group| && time(SeenAt(group[i])).Some? ==> t <= time(SeenAt(group[i])).value)
    && (exists i :: 0 <= i < |group| && time(SeenAt(group[i])) == Some(t))
  }

  lemma {:induction false} FirstSeenIsEarliest(time: Times, group: seq<Record>)
    requires group != [] && AllSeen(time, group)
    ensures time(FirstSeen(time, group)).Some? && IsEarliest(time, group, time(FirstSeen(time, group)).value)
  {
    var n := |group| - 1;
    assert group[..n] + [group[n]] == group;
    if n > 0 {
      FirstSeenIsEarliest(time, group[..n]);
      var i :| 0 <= i < n && time(SeenAt(group[..n][i])) == time(FirstSeen(time, group[..n]));
      assert group[..n][i] == group[i];
    } else {
      assert FirstSeen(time, group[..n]) == "";
    }
    assert forall i :: 0 <= i < n ==> group[..n][i] == group[i];
  }

  lemma {:induction false} FirstSeenOfNone(time: Times, group: seq<Record>)
    ensures FirstSeen(time, group) == "" <==> forall i :: 0 <= i < |group| ==> SeenAt(group[i]) == ""
  {
    if group != [] {
      var n := |group| - 1;
      FirstSeenOfNone(time, group[..n]);
      assert forall i :: 0 <= i < n ==> group[..n][i] == group[i];
    }
  }

  function Bare(r: Record): Record { r.(firstSeen := "") }

  /** The earliest timestamp of these records, by the rule for first sightings. */
  function EarliestStamp(time: Times, recs: seq<Record>): string {
    FirstSeen(time, Map(Bare, recs))
  }

  lemma {:induction false} FirstSeenOfStamps(time: Times, a: seq<Record>, b: seq<Record>)
    requires |a| == |b| && forall i :: 0 <= i < |a| ==> SeenAt(a[i]) == SeenAt(b[i])
    ensures FirstSeen(time, a) == FirstSeen(time, b)
  {
    if a != [] { FirstSeenOfStamps(time, a[..|a| - 1], b[..|b| - 1]); }
  }

  /** The text `w` is taken for the first sighting instead of `first`, and names another instant. */
  predicate Supplants(time: Times, w: string, first: string) {
    if time(w).Some? && time(first).Some? then time(w).value < time(first).value
    else time(w) != time(first) && !StringLess(first, w)
  }

  /**
   Superseded records give up their first sighting and are read by their timestamps, so
   compaction keeps the instant a finding was first seen exactly when the earliest
   timestamp among them does not supplant it.
   */
  lemma FirstSeenStaysIff(time: Times, group: seq<Record>, e: nat, kept: seq<nat>, eff: Record)
    requires GoodKept(group, e, kept) && e < |group| && eff.timestamp == group[e].timestamp && eff.firstSeen == FirstSeen(time, group)
    ensures var w := EarliestStamp(time, Superseded(group, kept));
            time(FirstSeen(time, StrippedAll(eff, group, kept) + [eff])) == time(FirstSeen(time, group)) <==>
            w == "" || !Supplants(time, w, FirstSeen(time, group))
  {
    var rest, first := StrippedAll(eff, group, kept), FirstSeen(time, group);
    var bare := Map(Bare, Superseded(group, kept));
    assert (rest + [eff])[..|rest|] == rest;
    FirstSeenOfStamps(time, rest, bare);
    if first == "" {
      FirstSeenOfNone(time, group);
      forall i | 0 <= i < |rest| ensures SeenAt(rest[i]) == "" { assert SeenAt(group[kept[i]]) == ""; }
      FirstSeenOfNone(time, rest);
      assert SeenAt(group[e]) == "";
    }
  }

  /** On texts that parse: exactly when no superseded record that is kept is older than the first sighting. */
  lemma FirstSeenStaysParsed(time: Times, group: seq<Record>, e: nat, kept: seq<nat>)
    requires WellTimed(time, group) && AllSeen(time, group) && GoodKept(group, e, kept) && group != []
    ensures var w, first := EarliestStamp(time, Superseded(group, kept)), time(FirstSeen(time, group));
            && first.Some?
            && (w == "" || !Supplants(time, w, FirstSeen(time, group)) <==>
                forall i :: 0 <= i < |kept| ==> first.value <= time(group[kept[i]].timestamp).value)
  {
    FirstSeenIsEarliest(time, group);
    var bare := Map(Bare, Superseded(group, kept));
    forall i | 0 <= i < |kept| ensures SeenAt(bare[i]) == group[kept[i]].timestamp { }
    if kept != [] {
      FirstSeenIsEarliest(time, bare);
      var w := time(EarliestStamp(time, Superseded(group, kept))).value;
      var i :| 0 <= i < |bare| && time(SeenAt(bare[i])) == Some(w);
      assert time(group[kept[i]].timestamp) == Some(w);
    }
  }

  // ---------------------------------------------------------- the whole store

  lemma {:induction false} IdsOfBlock(pre: seq<Record>, block: seq<Record>, k: string)
    requires block != [] && OfOneId(RECORDS, block, k) && k !in Ids(RECORDS, pre)
    ensures Ids(RECORDS, pre + block) == Ids(RECORDS, pre) + [k]
  {
    var n := |block| - 1;
    assert (pre + block)[..|pre + block| - 1] == pre + block[..n];
    if n > 0 { IdsOfBlock(pre, block[..n], k); } else { assert pre + block[..n] == pre; }
  }

  lemma RetainedShape(time: Times, group: seq<Record>, k: string)
    requires group != [] && OfOneId(RECORDS, group, k)
    ensures var g := Retained(time, group); g != [] && OfOneId(RECORDS, g, k) && |g| <= 4
  {
    PlanIsGood(time, group);
    FoldedIsSame(time, group);
    RetainedSplits(time, group);
    ShapeOf(group, EffIndex(time, group), PlanOf(time, group).Kept(), Folded(time, group), k);
  }

  lemma ShapeOf(group: seq<Record>, e: nat, kept: seq<nat>, eff: Record, k: string)
    requires GoodKept(group, e, kept) && |kept| <= 3 && OfOneId(RECORDS, group, k) && eff.id == k
    ensures var g := StrippedAll(eff, group, kept) + [eff]; g != [] && OfOneId(RECORDS, g, k) && |g| <= 4
  {
  }

  lemma RetainedIsOwn(time: Times, recs: seq<Record>, k: string)
    requires k in Ids(RECORDS, recs)
    ensures var g := Retained(time, GroupOf(RECORDS, recs, k)); g != [] && OfOneId(RECORDS, g, k) && |g| <= 4
  {
    GroupMembers(RECORDS, recs, k);
    RetainedShape(time, GroupOf(RECORDS, recs, k), k);
  }

  lemma {:induction false} RetainedGroups(time: Times, recs: seq<Record>, ids: seq<string>, x: string)
    requires Distinct(ids) && forall k :: k in ids ==> k in Ids(RECORDS, recs)
    ensures Ids(RECORDS, RetainIds(time, recs, ids)) == ids
    ensures GroupOf(RECORDS, RetainIds(time, recs, ids), x) == if x in ids then Retained(time, GroupOf(RECORDS, recs, x)) else []
  {
    if ids != [] {
      var n := |ids| - 1;
      assert ids == ids[..n] + [ids[n]];
      RetainedGroups(time, recs, ids[..n], x);
      RetainedIsOwn(time, recs, ids[n]);
      AppendBlock(RetainIds(time, recs, ids[..n]), Retained(time, GroupOf(RECORDS, recs, ids[n])), ids[..n], ids[n], x);
    }
  }

  lemma AppendBlock(pre: seq<Record>, block: seq<Record>, ids: seq<string>, k: string, x: string)
    requires Ids(RECORDS, pre) == ids && k !in ids && block != [] && OfOneId(RECORDS, block, k)
    ensures Ids(RECORDS, pre + block) == ids + [k]
    ensures GroupOf(RECORDS, pre + block, x) == if x == k then block else GroupOf(RECORDS, pre, x)
  {
    IdsOfBlock(pre, block, k);
    GroupOfBlock(RECORDS, pre, block, k, x);
    if x == k { GroupMembers(RECORDS, pre, k); }
  }

  /** Same finding, same state, same counts, same first sighting. */
  ghost predicate ReadsAlike(time: Times, after: Record, before: Record) {
    after == Settled(before).(firstSeen := after.firstSeen) && time(after.firstSeen) == time(before.firstSeen)
  }

  /** The effective record outranks whatever else compaction keeps of the finding. */
  ghost predicate StaysEffective(time: Times, group: seq<Record>)
    requires group != []
  {
    PlanIsGood(time, group);
    StaysAhead(time, Superseded(group, PlanOf(time, group).Kept()), EntryOf(group[EffIndex(time, group)]))
  }

  /** No timestamp that compaction keeps supplants the first sighting. */
  ghost predicate KeepsFirstSeen(time: Times, group: seq<Record>)
    requires group != []
  {
    PlanIsGood(time, group);
    var w := EarliestStamp(time, Superseded(group, PlanOf(time, group).Kept()));
    w == "" || !Supplants(time, w, FirstSeen(time, group))
  }

  /** One finding, any history: compaction is invisible exactly under these two conditions. */
  lemma RetainedReadsAlikeIff(time: Times, group: seq<Record>)
    requires group != []
    ensures ReadsAlike(time, Folded(time, Retained(time, group)), Folded(time, group)) <==>
            StaysEffective(time, group) && KeepsFirstSeen(time, group)
  {
    var e, kept, eff := EffIndex(time, group), PlanOf(time, group).Kept(), Folded(time, group);
    PlanIsGood(time, group);
    RetainedSplits(time, group);
    FoldedFields(time, group);
    GroupFoldsAlikeIff(time, group, kept);
    FirstSeenStaysIff(time, group, e, kept, eff);
    FoldedFields(time, Retained(time, group));
  }

  /** Both hold of a finding whose texts parse and whose first sightings are not in its future. */
  lemma WellFormedReadsAlike(time: Times, group: seq<Record>)
    requires group != [] && WellTimed(time, group) && SaneFirstSeen(time, group)
    ensures StaysEffective(time, group) && KeepsFirstSeen(time, group)
  {
    var e, kept, eff := EffIndex(time, group), PlanOf(time, group).Kept(), Folded(time, group);
    PlanIsGood(time, group);
    FoldedIsSame(time, group);
    EffectiveStays(time, group, kept, eff);
    EffectiveStaysIff(time, group, kept, eff);
    FirstSeenIsEarliest(time, group);
    FirstSeenStaysParsed(time, group, e, kept);
    forall i | 0 <= i < |kept| ensures time(FirstSeen(time, group)).value <= time(group[kept[i]].timestamp).value {
      assert time(SeenAt(group[kept[i]])).Some?;
    }
  }

  /** The record a finding shows. */
  function Shown(time: Times, recs: seq<Record>, id: string): Record { Folded(time, GroupOf(RECORDS, recs, id)) }

  /**
   Compaction is invisible: the compacted store folds to the same findings in the same
   order, each keeps at most four records, and a finding reads the same exactly when its
   effective record stays ahead of what else is kept and no kept timestamp supplants its
   first sighting; both hold when its texts parse and its first sightings are sane.
   */
  lemma CompactionIsInvisible(time: Times, recs: seq<Record>, id: string)
    ensures Ids(RECORDS, Retain(time, recs)) == Ids(RECORDS, recs)
    ensures RecordIds(FoldRecords(time, Retain(time, recs))) == RecordIds(FoldRecords(time, recs))
    ensures id in Ids(RECORDS, recs) ==>
              var group := GroupOf(RECORDS, recs, id);
              && group != [] && |GroupOf(RECORDS, Retain(time, recs), id)| <= 4
              && (ReadsAlike(time, Shown(time, Retain(time, recs), id), Shown(time, recs, id)) <==>
                    StaysEffective(time, group) && KeepsFirstSeen(time, group))
              && (WellTimed(time, group) && SaneFirstSeen(time, group) ==> StaysEffective(time, group) && KeepsFirstSeen(time, group))
  {
    var ids, group := Ids(RECORDS, recs), GroupOf(RECORDS, recs, id);
    IdsFacts(RECORDS, recs);
    RetainedGroups(time, recs, ids, id);
    FoldIsOnePerId(time, recs);
    FoldIsOnePerId(time, Retain(time, recs));
    if id in ids {
      RetainedIsOwn(time, recs, id);
      GroupMembers(RECORDS, recs, id);
      RetainedReadsAlikeIff(time, group);
      if WellTimed(time, group) && SaneFirstSeen(time, group) { WellFormedReadsAlike(time, group); }
    }
  }

  // --------------------------------------------------------- any number of passes

  /** The texts of a finding parse and its first sightings are sane. */
  ghost predicate WellFormed(time: Times, group: seq<Record>) {
    WellTimed(time, group) && SaneFirstSeen(time, group)
  }

  /** Compaction keeps a well-formed finding well-formed. */
  lemma RetainedIsWellFormed(time: Times, group: seq<Record>)
    requires group != [] && WellFormed(time, group)
    ensures WellFormed(time, Retained(time, group))
  {
    RetainedSplits(time, group);
    FoldedFields(time, group);
    FirstSeenIsEarliest(time, group);
    FormOf(time, group, EffIndex(time, group), PlanOf(time, group).Kept(), Folded(time, group));
  }

  lemma FormOf(time: Times, group: seq<Record>, e: nat, kept: seq<nat>, eff: Record)
    requires WellFormed(time, group) && GoodKept(group, e, kept) && e < |group| && eff.timestamp == group[e].timestamp
    requires time(eff.firstSeen).Some? && IsEarliest(time, group, time(eff.firstSeen).value)
    ensures WellFormed(time, StrippedAll(eff, group, kept) + [eff])
  {
    var after := StrippedAll(eff, group, kept) + [eff];
    assert time(eff.firstSeen).value <= time(SeenAt(group[e])).value;
    forall i | 0 <= i < |after|
      ensures time(after[i].timestamp).Some? && time(SeenAt(after[i])).Some? && time(SeenAt(after[i])).value <= time(after[i].timestamp).value
    {
      if i < |kept| { assert SeenAt(after[i]) == group[kept[i]].timestamp; } else { assert after[i] == eff; }
    }
  }

  /** The store after `n` compactions. */
  function Compacted(time: Times, recs: seq<Record>, n: nat): seq<Record> {
    if n == 0 then recs else Retain(time, Compacted(time, recs, n - 1))
  }

  lemma ReadsAlikeTwice(time: Times, a: Record, b: Record, c: Record)
    requires ReadsAlike(time, a, b) && ReadsAlike(time, b, c)
    ensures ReadsAlike(time, a, c)
  {
  }

  lemma OnePass(time: Times, recs: seq<Record>, id: string)
    requires id in Ids(RECORDS, recs) && WellFormed(time, GroupOf(RECORDS, recs, id))
    ensures Ids(RECORDS, Retain(time, recs)) == Ids(RECORDS, recs) && WellFormed(time, GroupOf(RECORDS, Retain(time, recs), id))
    ensures ReadsAlike(time, Shown(time, Retain(time, recs), id), Shown(time, recs, id))
  {
    CompactionIsInvisible(time, recs, id);
    IdsFacts(RECORDS, recs);
    RetainedGroups(time, recs, Ids(RECORDS, recs), id);
    RetainedIsWellFormed(time, GroupOf(RECORDS, recs, id));
  }

  /** However often the store is compacted, a well-formed finding reads as it did before the first pass. */
  lemma {:induction false} CompactionsAreInvisible(time: Times, recs: seq<Record>, n: nat, id: string)
    requires id in Ids(RECORDS, recs) && WellFormed(time, GroupOf(RECORDS, recs, id)) && n > 0
    ensures Ids(RECORDS, Compacted(time, recs, n)) == Ids(RECORDS, recs)
    ensures WellFormed(time, GroupOf(RECORDS, Compacted(time, recs, n), id))
    ensures ReadsAlike(time, Shown(time, Compacted(time, recs, n), id), Shown(time, recs, id))
  {
    if n > 1 {
      var before := Compacted(time, recs, n - 1);
      CompactionsAreInvisible(time, recs, n - 1, id);
      OnePass(time, before, id);
      ReadsAlikeTwice(time, Shown(time, Retain(time, before), id), Shown(time, before, id), Shown(time, recs, id));
    } else {
      assert Compacted(time, recs, 0) == recs;
      OnePass(time, recs, id);
    }
  }

  // ------------------------------------------------------- what the trail keeps

  /** No superseded rationale outranks every rationale that survives. */
  lemma RationaleSurvives(time: Times, group: seq<Record>, i: nat)
    requires i < |group| && BearsRationale(group[i].status)
    ensures exists r :: r in Retained(time, group) && BearsRationale(r.status) &&
                        (r.justification == group[i].justification || ClosedRank(r.status) >= ClosedRank(group[i].status))
  {
    var e, eff, plan := EffIndex(time, group), Folded(time, group), PlanOf(time, group);
    var kept := plan.Kept();
    PlanIsGood(time, group);
    FoldedFields(time, group);
    var after := StrippedAll(eff, group, kept) + [eff];
    if IsTrail(group, e, i) {
      TrailOutranks(group, e, |group|, i);
      assert kept[0] == plan.trail.value;
      assert after[0] in after;
    } else {
      assert after[|kept|] == eff && eff in after;
    }
  }

  /** `a` is no older than `b`, and newer if `b` comes later. */
  predicate Outlasts(group: seq<Record>, a: nat, b: nat)
    requires a < |group| && b < |group|
  {
    !StringLess(group[a].timestamp, group[b].timestamp) && (b > a ==> StringLess(group[b].timestamp, group[a].timestamp))
  }

  lemma OutlastsStep(group: seq<Record>, last: nat, best: nat, i: nat)
    requires last < |group| && i <= last && best < last && (i < last ==> Outlasts(group, best, i))
    ensures Outlasts(group, if StringLess(group[last].timestamp, group[best].timestamp) then best else last, i)
  {
    StringLessIrreflexive(group[last].timestamp);
    StringLessWeak(group[last].timestamp, group[best].timestamp, group[i].timestamp);
    StringLessWeak(group[best].timestamp, group[last].timestamp, group[best].timestamp);
  }

  /** The donor is the last of the newest model-carrying closes. */
  lemma {:induction false} DonorOutlasts(group: seq<Record>, n: nat, i: nat)
    requires i < n <= |group| && CarriesModel(group[i])
    ensures Donor(group, n).Some? && Outlasts(group, Donor(group, n).value, i)
  {
    StringLessIrreflexive(group[i].timestamp);
    if i < n - 1 { DonorOutlasts(group, n - 1, i); }
    var best := Donor(group, n - 1);
    if best.Some? && CarriesModel(group[n - 1]) { OutlastsStep(group, n - 1, best.value, i); }
  }

  /** The model a later model-less close would be credited to. */
  function RecoveredModel(group: seq<Record>): Option<string> {
    if Donor(group, |group|).None? then None else Some(group[Donor(group, |group|).value].model)
  }

  /** `after` holds, possibly stripped, the records of `group` at the positions `from`. */
  ghost predicate DrawnFrom(group: seq<Record>, after: seq<Record>, from: seq<nat>) {
    && |from| == |after|
    && forall i :: 0 <= i < |after| ==>
         && from[i] < |group| && after[i].model == group[from[i]].model
         && after[i].timestamp == group[from[i]].timestamp && after[i].status == group[from[i]].status
  }

  lemma RetainedIsDrawn(time: Times, group: seq<Record>)
    requires group != []
    ensures DrawnFrom(group, Retained(time, group), PlanOf(time, group).Kept() + [EffIndex(time, group)])
  {
    FoldedIsSame(time, group);
    RetainedSplits(time, group);
    DrawnOf(group, EffIndex(time, group), PlanOf(time, group).Kept(), Folded(time, group));
  }

  lemma DrawnOf(group: seq<Record>, e: nat, kept: seq<nat>, eff: Record)
    requires GoodKept(group, e, kept) && e < |group| && SameFinding(eff, group[e])
    ensures DrawnFrom(group, StrippedAll(eff, group, kept) + [eff], kept + [e])
  {
  }

  /** Record `x` would take over from donor `d` if it is emitted later: same timestamp, another model. */
  predicate Usurps(group: seq<Record>, d: nat, x: nat) {
    && d < |group| && x < |group| && CarriesModel(group[x])
    && group[x].timestamp == group[d].timestamp && group[x].model != group[d].model
  }

  /**
   The records emitted after the donor: the effective one always, and the latest close when
   the donor doubles as the rationale trail.
   */
  ghost predicate Displaced(time: Times, group: seq<Record>, d: nat)
    requires group != []
  {
    var plan := PlanOf(time, group);
    || Usurps(group, d, EffIndex(time, group))
    || (plan.trail == Some(d) && plan.latest.Some? && Usurps(group, d, plan.latest.value))
  }

  /** What is recovered from the drawn records is the model of the last one tied with the donor. */
  lemma RecoveredIsLastTied(group: seq<Record>, after: seq<Record>, from: seq<nat>, at: nat, w: nat)
    requires DrawnFrom(group, after, from) && at <= w < |after| && Donor(group, |group|) == Some(from[at])
    requires CarriesModel(after[w]) && after[w].timestamp == after[at].timestamp
    requires forall i :: w < i < |after| && CarriesModel(after[i]) ==> after[i].timestamp != after[w].timestamp
    ensures RecoveredModel(after) == Some(after[w].model)
  {
    DonorOutlasts(after, |after|, w);
    var d := Donor(after, |after|).value;
    assert CarriesModel(group[from[d]]);
    DonorOutlasts(group, |group|, from[d]);
    StringLessTotal(after[d].timestamp, after[w].timestamp);
  }

  lemma NoDonorDrawn(group: seq<Record>, after: seq<Record>, from: seq<nat>)
    requires DrawnFrom(group, after, from) && Donor(group, |group|).None?
    ensures RecoveredModel(after) == None
  {
    if Donor(after, |after|).Some? {
      DonorOutlasts(group, |group|, from[Donor(after, |after|).value]);
    }
  }

  /** Some record behind position `at` ties the donor there with another model. */
  ghost predicate UsurpedBehind(group: seq<Record>, from: seq<nat>, at: nat) {
    at < |from| && exists i :: at < i < |from| && Usurps(group, from[at], from[i])
  }

  /** At most one model-carrying close stands behind position `at`. */
  ghost predicate ShortTail(group: seq<Record>, after: seq<Record>, from: seq<nat>, at: nat) {
    && DrawnFrom(group, after, from) && at < |from| <= at + 3
    && (|from| == at + 3 ==> !CarriesModel(group[from[at + 2]]))
  }

  lemma CreditWhenTied(group: seq<Record>, after: seq<Record>, from: seq<nat>, at: nat)
    requires ShortTail(group, after, from, at) && Donor(group, |group|) == Some(from[at])
    requires at + 1 < |from| && CarriesModel(after[at + 1]) && after[at + 1].timestamp == after[at].timestamp
    ensures RecoveredModel(after) == Some(after[at + 1].model) && RecoveredModel(group) == Some(after[at].model)
  {
    TiedBehind(group, after, from, at);
    RecoveredIsLastTied(group, after, from, at, at + 1);
    assert RecoveredModel(group) == Some(group[from[at]].model);
  }

  lemma CreditWhenUntied(group: seq<Record>, after: seq<Record>, from: seq<nat>, at: nat)
    requires ShortTail(group, after, from, at) && Donor(group, |group|) == Some(from[at])
    requires at + 1 < |from| ==> !CarriesModel(after[at + 1]) || after[at + 1].timestamp != after[at].timestamp
    ensures RecoveredModel(after) == Some(after[at].model) && RecoveredModel(group) == Some(after[at].model)
  {
    UntiedBehind(group, after, from, at);
    RecoveredIsLastTied(group, after, from, at, at);
  }

  /** With at most one model-carrying close behind the donor, it keeps the credit unless that one usurps it. */
  lemma CreditIsKeptIff(group: seq<Record>, after: seq<Record>, from: seq<nat>, at: nat)
    requires ShortTail(group, after, from, at) && Donor(group, |group|) == Some(from[at])
    ensures RecoveredModel(after) == RecoveredModel(group) <==> !UsurpedBehind(group, from, at)
  {
    if at + 1 < |from| && CarriesModel(after[at + 1]) && after[at + 1].timestamp == after[at].timestamp {
      CreditWhenTied(group, after, from, at);
      TiedBehind(group, after, from, at);
    } else {
      CreditWhenUntied(group, after, from, at);
      UntiedBehind(group, after, from, at);
    }
  }

  lemma TiedBehind(group: seq<Record>, after: seq<Record>, from: seq<nat>, at: nat)
    requires DrawnFrom(group, after, from) && at + 1 < |from| <= at + 3 && (|from| == at + 3 ==> !CarriesModel(group[from[at + 2]]))
    requires CarriesModel(after[at + 1]) && after[at + 1].timestamp == after[at].timestamp
    ensures UsurpedBehind(group, from, at) <==> after[at + 1].model != after[at].model
    ensures forall i :: at + 1 < i < |after| ==> !CarriesModel(after[i])
  {
    assert Usurps(group, from[at], from[at + 1]) <==> after[at + 1].model != after[at].model;
  }

  lemma UntiedBehind(group: seq<Record>, after: seq<Record>, from: seq<nat>, at: nat)
    requires DrawnFrom(group, after, from) && at < |from| <= at + 3 && (|from| == at + 3 ==> !CarriesModel(group[from[at + 2]]))
    requires at + 1 < |from| ==> !CarriesModel(after[at + 1]) || after[at + 1].timestamp != after[at].timestamp
    ensures !UsurpedBehind(group, from, at)
    ensures forall i :: at < i < |after| && CarriesModel(after[i]) ==> after[i].timestamp != after[at].timestamp
  {
  }

  lemma BehindIsDisplaced(time: Times, group: seq<Record>)
    requires group != [] && Donor(group, |group|).Some?
    ensures var plan, e, at := PlanOf(time, group), EffIndex(time, group), DonorPosition(time, group);
            var from := plan.Kept() + [e];
            && at < |from| <= at + 3 && from[at] == Donor(group, |group|).value
            && (|from| == at + 3 ==> !CarriesModel(group[from[at + 2]]))
            && (UsurpedBehind(group, from, at) <==> Displaced(time, group, from[at]))
  {
    var plan, e, at := PlanOf(time, group), EffIndex(time, group), DonorPosition(time, group);
    var from, d := plan.Kept() + [e], Donor(group, |group|).value;
    EmittedAfterDonor(time, group, at);
    assert from[|from| - 1] == e;
    if plan.trail == Some(d) && plan.latest.Some? { assert from[1] == plan.latest.value; }
    if e == d { assert !Usurps(group, d, e); }
    if at < |from| - 1 && Usurps(group, d, e) { assert UsurpedBehind(group, from, at); }
  }

  /** Compaction recovers the same model exactly when no record emitted after the donor ties it with another model. */
  lemma ModelSurvivesIff(time: Times, group: seq<Record>)
    requires group != []
    ensures RecoveredModel(Retained(time, group)) == RecoveredModel(group) <==>
            Donor(group, |group|).None? || !Displaced(time, group, Donor(group, |group|).value)
  {
    RetainedIsDrawn(time, group);
    var from, after := PlanOf(time, group).Kept() + [EffIndex(time, group)], Retained(time, group);
    if Donor(group, |group|).None? {
      NoDonorDrawn(group, after, from);
    } else {
      BehindIsDisplaced(time, group);
      CreditIsKeptIff(group, after, from, DonorPosition(time, group));
    }
  }

  /** Behind the donor stand at most the latest close and the effective record. */
  lemma EmittedAfterDonor(time: Times, group: seq<Record>, at: nat)
    requires group != [] && Donor(group, |group|).Some? && at == DonorPosition(time, group)
    ensures var plan := PlanOf(time, group);
            && (plan.trail == Donor(group, |group|) && EffIndex(time, group) != Donor(group, |group|).value ==>
                  at == 0 && |plan.Kept()| == if plan.latest.Some? then 2 else 1)
            && (plan.trail != Donor(group, |group|) && EffIndex(time, group) != Donor(group, |group|).value ==> at == |plan.Kept()| - 1)
            && (EffIndex(time, group) == Donor(group, |group|).value ==> at == |plan.Kept()|)
            && (plan.latest.Some? ==> !IsClosed(group[EffIndex(time, group)].status))
  {
  }

  /** Where the donor sits among the retained records. */
  ghost function DonorPosition(time: Times, group: seq<Record>): (at: nat)
    requires group != [] && Donor(group, |group|).Some?
    ensures var kept := PlanOf(time, group).Kept();
            at <= |kept| && (if at < |kept| then kept[at] else EffIndex(time, group)) == Donor(group, |group|).value
  {
    var d, e, plan := Donor(group, |group|), EffIndex(time, group), PlanOf(time, group);
    if d == Some(e) then |plan.Kept()|
    else if d == plan.trail then 0
    else |plan.Kept()| - 1
  }

  // -------------------------------------------------------------- no twin is kept

  /** Two records that differ at most in what compaction rewrites or ignores. */
  predicate Twins(a: Record, b: Record) {
    EntryOf(a) == EntryOf(b) && a.model == b.model && a.justification == b.justification
  }

  lemma EffectiveIsLastTwin(time: Times, group: seq<Record>, k: nat)
    requires group != [] && EffIndex(time, group) < k < |group|
    ensures !Twins(group[k], group[EffIndex(time, group)])
  {
    var e := EffIndex(time, group);
    FoldIndexArms(time, group);
    if Twins(group[k], group[e]) {
      if LatestWhere(Valid(time), EntryOf, SuppressesRecord(), group).Some? {
        WinnerIsNotDisplaced(Valid(time), EntryOf, SuppressesRecord(), group, e, k);
      } else {
        WinnerIsNotDisplaced(Valid(time), EntryOf, AnyRecord(), group, e, k);
      }
    }
  }

  lemma DonorIsNoTwin(time: Times, group: seq<Record>, d: nat)
    requires group != [] && Donor(group, |group|) == Some(d) && d != EffIndex(time, group)
    ensures !Twins(group[d], group[EffIndex(time, group)])
  {
    var e := EffIndex(time, group);
    if Twins(group[d], group[e]) {
      DonorOutlasts(group, |group|, e);
      StringLessIrreflexive(group[d].timestamp);
      EffectiveIsLastTwin(time, group, d);
    }
  }

  /** Compaction never keeps a second copy of the effective record. */
  lemma NoTwinIsKept(time: Times, group: seq<Record>)
    requires group != []
    ensures var kept := PlanOf(time, group).Kept();
            forall i :: 0 <= i < |kept| ==> kept[i] < |group| && !Twins(group[kept[i]], group[EffIndex(time, group)])
  {
    var plan, e := PlanOf(time, group), EffIndex(time, group);
    if plan.trail.Some? { assert !Twins(group[plan.trail.value], group[e]); }
    if plan.latest.Some? { assert !Twins(group[plan.latest.value], group[e]); }
    if plan.donor.Some? { DonorIsNoTwin(time, group, plan.donor.value); }
  }

  // ------------------------------------------------------------- imperatively

  method FindTrail(group: seq<Record>, e: nat) returns (best: Option<nat>)
    requires e < |group|
    ensures best == BestTrail(group, e, |group|)
  {
    best := None;
    for i := 0 to |group|
      invariant best == BestTrail(group, e, i)
    {
      if IsTrail(group, e, i) {
        if best.None? {
          best := Some(i);
        } else {
          var rank, top := ClosedRank(group[i].status), ClosedRank(group[best.value].status);
          if rank > top || (rank == top && !StringLess(group[i].timestamp, group[best.value].timestamp)) {
            best := Some(i);
          }
        }
      }
    }
  }

  method FindDonor(group: seq<Record>) returns (best: Option<nat>)
    ensures best == Donor(group, |group|)
  {
    best := None;
    for i := 0 to |group|
      invariant best == Donor(group, i)
    {
      if CarriesModel(group[i]) {
        if best.None? {
          best := Some(i);
        } else if !StringLess(group[i].timestamp, group[best.value].timestamp) {
          best := Some(i);
        }
      }
    }
  }

  method FindPlan(time: Times, group: seq<Record>, e: nat) returns (plan: Plan)
    requires group != [] && e == EffIndex(time, group)
    ensures plan == PlanOf(time, group)
  {
    var trail := FindTrail(group, e);
    var donor := FindDonor(group);
    var latest: Option<nat> := None;
    if !IsClosed(group[e].status) {
      latest := ScanWhere(Valid(time), EntryOf, Closes(), group);
    }
    if donor == trail || donor == Some(e) {
      donor := None;
    }
    if latest == trail || latest == donor || (!Exhausted(group, latest) && !Exhausted(group, trail) && !Exhausted(group, donor)) {
      latest := None;
    }
    return Plan(trail, latest, donor);
  }

  /** One id: the superseded records in plan order, the effective record last. */
  method RetainGroup(time: Times, group: seq<Record>) returns (out: seq<Record>)
    requires group != []
    ensures out == Retained(time, group)
  {
    var eff := FoldGroup(time, group);
    var e := EffIndex(time, group);
    var plan := FindPlan(time, group, e);
    RetainedSplits(time, group);
    return StrippedAll(eff, group, plan.Kept()) + [eff];
  }

  lemma RetainNext(time: Times, recs: seq<Record>, order: seq<string>, i: nat, block: seq<Record>)
    requires i < |order| && block == Retained(time, GroupOf(RECORDS, recs, order[i]))
    ensures RetainIds(time, recs, order[..i + 1]) == RetainIds(time, recs, order[..i]) + block
  {
    assert order[..i + 1][..i] == order[..i];
  }

  method RetainNextGroup(time: Times, recs: seq<Record>, group: seq<Record>, ghost order: seq<string>, ghost i: nat, out: seq<Record>)
    returns (out': seq<Record>)
    requires i < |order| && group == GroupOf(RECORDS, recs, order[i]) && group != []
    requires out == RetainIds(time, recs, order[..i])
    ensures out' == RetainIds(time, recs, order[..i + 1])
  {
    var kept := RetainGroup(time, group);
    RetainNext(time, recs, order, i, kept);
    return out + kept;
  }

  /** `retainForCompaction` as the source's loop over the folded ids. */
  method RetainForCompaction(time: Times, recs: seq<Record>) returns (out: seq<Record>)
    ensures out == Retain(time, recs)
  {
    var order, byID := Grouping(RECORDS, recs);
    out := [];
    for i := 0 to |order|
      invariant out == RetainIds(time, recs, order[..i])
    {
      assert order[i] in ToSet(order);
      GroupMembers(RECORDS, recs, order[i]);
      out := RetainNextGroup(time, recs, byID[order[i]], order, i, out);
    }
    assert order[..|order|] == order;
  }
}
