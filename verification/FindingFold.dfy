/**
 What the fold shows of a finding, said of its records: how often it was seen, which record
 speaks for it, and what a further record changes.
 */
module FindingFold {
  import opened Basics
  import opened Orders
  import opened DebtFold
  import opened DebtRecord
  import opened DebtCompact
  import opened CompactTwice
  import opened CompactFiling

  // ------------------------------------------------------------------ sightings

  /** A detection: not an annotation, and either without a status or filed by hand and not a resolution. */
  function Detects(): Record -> bool {
    (r: Record) => r.feedback.None? && (r.status == Unset || (r.origin == ByHand && r.resolvedAt.None?))
  }

  /** A detection that no stored count includes and that lies behind the text `boundary`. */
  function DetectsAfter(boundary: string): Record -> bool {
    (r: Record) => Detects()(r) && r.occurrences == 0 && StringLess(boundary, r.timestamp)
  }

  ghost predicate NoCounts(own: seq<Record>) { forall i :: 0 <= i < |own| ==> own[i].occurrences == 0 }

  /** The record whose stored count is used: the highest, the newest of those, the first of those. */
  ghost predicate HoldsCount(own: seq<Record>, c: Record) {
    && c in own && c.occurrences != 0
    && forall i :: 0 <= i < |own| && own[i].occurrences != 0 ==>
         own[i].occurrences < c.occurrences || (own[i].occurrences == c.occurrences && !StringLess(c.timestamp, own[i].timestamp))
  }

  /** Where a stored count ends: what it says, or the time of its record. */
  function CountedUpTo(c: Record): string { if c.countedThrough != "" then c.countedThrough else c.timestamp }

  function AtLeastOne(n: int): int { if n < 1 then 1 else n }

  /** Without stored counts, the shown count is the number of detections, and at least one. */
  lemma CountOfSightings(time: Times, own: seq<Record>)
    requires own != [] && NoCounts(own)
    ensures Folded(time, own).occurrences == AtLeastOne(|Filter(Detects(), own)|)
  {
    NoCarrier(own);
    FoldedFields(time, own);
    FilterSame((r: Record) => IsFresh(0, "", r), Detects(), own);
  }

  lemma FreshIsBehind(c: Record, r: Record)
    requires c.occurrences != 0
    ensures IsFresh(c.occurrences, Boundary(Some(c)), r) == DetectsAfter(CountedUpTo(c))(r)
  {
    assert Boundary(Some(c)) == CountedUpTo(c);
    assert IsSighting(r) == Detects()(r);
  }

  lemma FreshCountIs(c: Record, own: seq<Record>)
    requires c.occurrences != 0
    ensures FreshCount(c.occurrences, Boundary(Some(c)), own) == |Filter(DetectsAfter(CountedUpTo(c)), own)|
  {
    var behind := (r: Record) => IsFresh(c.occurrences, Boundary(Some(c)), r);
    forall r | r in own ensures behind(r) == DetectsAfter(CountedUpTo(c))(r) { FreshIsBehind(c, r); }
    FilterSame(behind, DetectsAfter(CountedUpTo(c)), own);
  }

  lemma TopHoldsCount(own: seq<Record>, i: nat)
    requires TopCarrier(own, i)
    ensures HoldsCount(own, own[i])
  {
    forall k | 0 <= k < |own| && own[k].occurrences != 0
      ensures own[k].occurrences < own[i].occurrences || (own[k].occurrences == own[i].occurrences && !StringLess(own[i].timestamp, own[k].timestamp))
    {
      assert Outweighs(own[i], own[k]);
    }
  }

  lemma CountWithCarrier(time: Times, own: seq<Record>, c: Record)
    requires own != [] && Carrier(own) == Some(c)
    ensures Folded(time, own).occurrences == AtLeastOne(c.occurrences + |Filter(DetectsAfter(CountedUpTo(c)), own)|)
  {
    FreshCountIs(c, own);
    FoldedFields(time, own);
    assert Occurrences(own) == AtLeastOne(c.occurrences + FreshCount(c.occurrences, Boundary(Some(c)), own));
  }

  /** With stored counts, it is the one in use and the detections behind it. */
  lemma CountFromStored(time: Times, own: seq<Record>) returns (c: Record)
    requires own != [] && !NoCounts(own)
    ensures HoldsCount(own, c)
    ensures Folded(time, own).occurrences == AtLeastOne(c.occurrences + |Filter(DetectsAfter(CountedUpTo(c)), own)|)
  {
    assert exists k :: 0 <= k < |own| && own[k].occurrences != 0;
    var i := CarrierIsFirst(own);
    c := own[i];
    TopHoldsCount(own, i);
    CountWithCarrier(time, own, c);
  }

  /** The texts of a finding all lie before `t`. */
  ghost predicate AllBefore(own: seq<Record>, t: string) {
    forall i :: 0 <= i < |own| ==> StringLess(own[i].timestamp, t) && StringLess(own[i].countedThrough, t)
  }

  ghost predicate SeenBefore(own: seq<Record>) {
    || (exists i :: 0 <= i < |own| && own[i].occurrences > 0)
    || (NoCounts(own) && exists i :: 0 <= i < |own| && Detects()(own[i]))
  }

  lemma {:induction false} CarrierSnoc(own: seq<Record>, x: Record)
    requires x.occurrences == 0
    ensures Carrier(own + [x]) == Carrier(own)
  {
    assert (own + [x])[..|own|] == own;
  }

  lemma {:induction false} CarrierIsPositive(own: seq<Record>)
    requires exists i :: 0 <= i < |own| && own[i].occurrences > 0
    ensures Carried(own) > 0
  {
    var k :| 0 <= k < |own| && own[k].occurrences > 0;
    var i := CarrierIsFirst(own);
    assert Outweighs(own[i], own[k]);
  }

  lemma FreshSnoc(own: seq<Record>, x: Record)
    requires x.occurrences == 0
    ensures var c, b := Carried(own), Boundary(Carrier(own));
            Occurrences(own + [x]) == AtLeastOne(c + FreshCount(c, b, own) + if IsFresh(c, b, x) then 1 else 0)
  {
    var c, b := Carried(own), Boundary(Carrier(own));
    CarrierSnoc(own, x);
    FilterSnoc((r: Record) => IsFresh(c, b, r), own, x);
  }

  lemma SeenIsPositive(own: seq<Record>)
    requires SeenBefore(own)
    ensures Carried(own) + FreshCount(Carried(own), Boundary(Carrier(own)), own) >= 1
  {
    if i :| 0 <= i < |own| && own[i].occurrences > 0 {
      CarrierIsPositive(own);
    } else {
      NoCarrier(own);
      var i :| 0 <= i < |own| && Detects()(own[i]);
      FilterIn((r: Record) => IsFresh(0, "", r), own, own[i]);
    }
  }

  /** A new detection of a finding seen before adds exactly one. */
  lemma DetectionAddsOne(time: Times, own: seq<Record>, x: Record)
    requires own != [] && SeenBefore(own) && AllBefore(own, x.timestamp) && Detects()(x) && x.occurrences == 0
    ensures Folded(time, own + [x]).occurrences == Folded(time, own).occurrences + 1
  {
    FreshSnoc(own, x);
    SeenIsPositive(own);
    FoldedFields(time, own);
    FoldedFields(time, own + [x]);
    BoundaryBefore(own, x.timestamp);
  }

  lemma {:induction false} CarrierIsMember(own: seq<Record>)
    ensures Carrier(own).Some? ==> Carrier(own).value in own
  {
    if own != [] { CarrierIsMember(own[..|own| - 1]); }
  }

  lemma BoundaryBefore(own: seq<Record>, t: string)
    requires AllBefore(own, t)
    ensures Carrier(own).Some? ==> StringLess(Boundary(Carrier(own)), t)
  {
    CarrierIsMember(own);
    if Carrier(own).Some? {
      var i :| 0 <= i < |own| && own[i] == Carrier(own).value;
    }
  }

  /** A record that neither detects nor counts adds nothing. */
  lemma MarkerAddsNothing(time: Times, own: seq<Record>, x: Record)
    requires own != [] && !Detects()(x) && x.occurrences == 0
    ensures Folded(time, own + [x]).occurrences == Folded(time, own).occurrences
  {
    FreshSnoc(own, x);
    FoldedFields(time, own);
    FoldedFields(time, own + [x]);
  }

  // ------------------------------------------------------------------ the store

  function RecordsOf(recs: seq<Record>, id: string): seq<Record> { Filter((r: Record) => r.id == id, recs) }

  lemma GroupIsFilter<T>(d: Foldable<T>, items: seq<T>, id: string, p: T -> bool)
    requires forall x :: x in items ==> p(x) == (d.id(x) == id)
    ensures Filter(p, items) == GroupOf(d, items, id)
  {
    FilterSame(p, (x: T) => d.id(x) == id, items);
  }

  lemma RecordsAreGroup(recs: seq<Record>, id: string)
    ensures RecordsOf(recs, id) == GroupOf(RECORDS, recs, id)
  {
    GroupIsFilter(RECORDS, recs, id, (r: Record) => r.id == id);
  }

  /** The row shown for an id of the store is the fold of its records. */
  lemma ShownFor(time: Times, recs: seq<Record>, i: nat)
    requires i < |FoldRecords(time, recs)|
    ensures var id := FoldRecords(time, recs)[i].id;
            i < |Ids(RECORDS, recs)| && Ids(RECORDS, recs)[i] == id &&
            RecordsOf(recs, id) != [] && FoldRecords(time, recs)[i] == Folded(time, RecordsOf(recs, id))
  {
    var rows := FoldRecords(time, recs);
    FoldIsOnePerId(time, recs);
    assert RecordIds(rows)[i] == rows[i].id;
    FoldRecordsAt(time, recs, i);
    RecordsAreGroup(recs, rows[i].id);
  }

  lemma ShownRow(time: Times, recs: seq<Record>, row: Record)
    requires row in FoldRecords(time, recs)
    ensures row.id in Ids(RECORDS, recs)
    ensures RecordsOf(recs, row.id) != [] && row == Folded(time, RecordsOf(recs, row.id))
  {
    var rows := FoldRecords(time, recs);
    var i :| 0 <= i < |rows| && rows[i] == row;
    ShownFor(time, recs, i);
  }

  lemma IdsSnoc(recs: seq<Record>, r: Record)
    ensures RecordIds(recs + [r]) == RecordIds(recs) + [r.id]
    ensures Ids(RECORDS, recs + [r]) == if r.id in Ids(RECORDS, recs) then Ids(RECORDS, recs) else Ids(RECORDS, recs) + [r.id]
  {
    assert (recs + [r])[..|recs|] == recs;
  }

  lemma IdsStayInOrder(recs: seq<Record>, r: Record)
    requires InFirstOrder(Ids(RECORDS, recs), RecordIds(recs))
    ensures InFirstOrder(Ids(RECORDS, recs + [r]), RecordIds(recs + [r]))
  {
    IdsSnoc(recs, r);
    FirstOrderSnoc(Ids(RECORDS, recs), RecordIds(recs), r.id);
  }

  lemma {:induction false} IdsInOrder(recs: seq<Record>)
    ensures InFirstOrder(Ids(RECORDS, recs), RecordIds(recs))
  {
    if recs != [] {
      var n := |recs| - 1;
      IdsInOrder(recs[..n]);
      IdsStayInOrder(recs[..n], recs[n]);
      assert recs[..n] + [recs[n]] == recs;
    }
  }

  /** The folded store shows each finding once, in the order in which the findings are first met. */
  lemma StoreOrder(time: Times, recs: seq<Record>)
    ensures InFirstOrder(RecordIds(FoldRecords(time, recs)), RecordIds(recs))
  {
    FoldIsOnePerId(time, recs);
    IdsInOrder(recs);
  }

  /** `n` is the stored count in use and the detections behind it. */
  ghost predicate CountsPast(own: seq<Record>, n: int, c: Record) {
    HoldsCount(own, c) && n == AtLeastOne(c.occurrences + |Filter(DetectsAfter(CountedUpTo(c)), own)|)
  }

  /** What `n` counts: the detections among `own`, from a stored count on if there is one. */
  ghost predicate CountsOwn(own: seq<Record>, n: int) {
    && (NoCounts(own) ==> n == AtLeastOne(|Filter(Detects(), own)|))
    && (!NoCounts(own) ==> exists c :: CountsPast(own, n, c))
  }

  lemma FoldCountsOwn(time: Times, own: seq<Record>)
    requires own != []
    ensures CountsOwn(own, Folded(time, own).occurrences)
  {
    if NoCounts(own) {
      CountOfSightings(time, own);
    } else {
      var c := CountFromStored(time, own);
      CountsFrom(own, Folded(time, own).occurrences, c);
    }
  }

  lemma CountsFrom(own: seq<Record>, n: int, c: Record)
    requires !NoCounts(own) && CountsPast(own, n, c)
    ensures CountsOwn(own, n)
  {
  }

  /** Every row of the folded store counts the detections of its finding, from the stored count on if there is one. */
  lemma StoreCounts(time: Times, recs: seq<Record>, row: Record)
    requires row in FoldRecords(time, recs)
    ensures RecordsOf(recs, row.id) != [] && CountsOwn(RecordsOf(recs, row.id), row.occurrences)
  {
    ShownRow(time, recs, row);
    FoldCountsOwn(time, RecordsOf(recs, row.id));
  }

  /** Appending a detection behind everything known of its finding raises that finding's count by one and no other's. */
  lemma StoreDetection(time: Times, recs: seq<Record>, x: Record, row: Record)
    requires row in FoldRecords(time, recs) && x.occurrences == 0
    ensures var own := RecordsOf(recs, row.id);
            var after := Folded(time, RecordsOf(recs + [x], row.id));
            && after in FoldRecords(time, recs + [x]) && after.id == row.id
            && (x.id != row.id ==> after == row)
            && (x.id == row.id && !Detects()(x) ==> after.occurrences == row.occurrences)
            && (x.id == row.id && Detects()(x) && SeenBefore(own) && AllBefore(own, x.timestamp) ==> after.occurrences == row.occurrences + 1)
  {
    ShownRow(time, recs, row);
    var own := RecordsOf(recs, row.id);
    FilterSnoc((r: Record) => r.id == row.id, recs, x);
    AfterIsShown(time, recs, x, row.id);
    if x.id == row.id {
      if !Detects()(x) {
        MarkerAddsNothing(time, own, x);
      } else if SeenBefore(own) && AllBefore(own, x.timestamp) {
        DetectionAddsOne(time, own, x);
      }
    }
  }

  lemma AfterIsShown(time: Times, recs: seq<Record>, x: Record, id: string)
    requires id in Ids(RECORDS, recs)
    ensures var after := Folded(time, RecordsOf(recs + [x], id)); after in FoldRecords(time, recs + [x]) && after.id == id
  {
    var all := recs + [x];
    assert all[..|recs|] == recs;
    assert id in Ids(RECORDS, all);
    IdIsShown(time, all, id);
  }

  lemma IdIsShown(time: Times, recs: seq<Record>, id: string)
    requires id in Ids(RECORDS, recs)
    ensures var row := Folded(time, RecordsOf(recs, id)); row in FoldRecords(time, recs) && row.id == id
  {
    var i :| 0 <= i < |Ids(RECORDS, recs)| && Ids(RECORDS, recs)[i] == id;
    FoldRecordsAt(time, recs, i);
    ShownFor(time, recs, i);
  }

  // ---------------------------------------------------------- which record speaks

  /** Among records of one time: open, deferred, given up, resolved, unreproducible, in rising order. */
  function Place(s: Status): int {
    match s
    case Marked(Deferred) => 1
    case Marked(AttemptsExhausted) => 2
    case Marked(Resolved) => 3
    case Marked(Unreproducible) => 4
    case Marked(Wontfix) => 5
    case _ => 0
  }

  /** Record `j` lies before `e` in time, or is less far along at one time, or is the earlier one on a tie. */
  predicate NotPast(own: seq<Record>, j: nat, e: nat)
    requires j < |own| && e < |own|
  {
    || StringLess(own[j].timestamp, own[e].timestamp)
    || (own[j].timestamp == own[e].timestamp && Place(own[j].status) < Place(own[e].status))
    || (own[j].timestamp == own[e].timestamp && Place(own[j].status) == Place(own[e].status) && j <= e)
  }

  /**
   `row` is record `e` up to its counters and its annotation: the last dismissal if there is
   one, else the last record, among records of one time the one furthest along.
   */
  ghost predicate SpeaksFor(own: seq<Record>, e: nat, row: Record) {
    && e < |own|
    && row == own[e].(occurrences := row.occurrences, firstSeen := row.firstSeen, countedThrough := row.countedThrough, feedback := row.feedback)
    && ((exists i :: 0 <= i < |own| && own[i].status == Marked(Wontfix)) ==> row.status == Marked(Wontfix))
    && (forall j :: 0 <= j < |own| && (row.status == Marked(Wontfix) ==> own[j].status == Marked(Wontfix)) ==> NotPast(own, j, e))
  }

  lemma FoldSpeaks(time: Times, own: seq<Record>)
    requires own != [] && WellTimed(time, own)
    ensures SpeaksFor(own, EffIndex(time, own), Folded(time, own))
  {
    var e := EffIndex(time, own);
    FoldedFields(time, own);
    FoldIndexArms(time, own);
    assert ValidStamps(Valid(time), EntryOf, own);
    LatestFinds(Valid(time), EntryOf, SuppressesRecord(), own);
    var p := if LatestWhere(Valid(time), EntryOf, SuppressesRecord(), own).Some? then SuppressesRecord() else AnyRecord();
    LatestIsLastMaximum(Valid(time), EntryOf, p, own);
    forall j | 0 <= j < |own| && (own[e].status == Marked(Wontfix) ==> own[j].status == Marked(Wontfix)) ensures NotPast(own, j, e) {
      assert SuppressesRecord()(own[j]) <==> own[j].status == Marked(Wontfix);
      assert p(own[j]);
      StringLessTotal(own[j].timestamp, own[e].timestamp);
      PlaceIsPrecedence(own[j].status, own[e].status);
    }
  }

  /** Every row of the folded store is the record of its finding that speaks for it. */
  lemma StoreSpeaks(time: Times, recs: seq<Record>, row: Record)
    requires row in FoldRecords(time, recs) && WellTimed(time, RecordsOf(recs, row.id))
    ensures exists e: nat :: SpeaksFor(RecordsOf(recs, row.id), e, row)
  {
    ShownRow(time, recs, row);
    FoldSpeaks(time, RecordsOf(recs, row.id));
  }

  lemma PlaceIsPrecedence(a: Status, b: Status)
    ensures Precedence(a) < Precedence(b) <==> Place(a) < Place(b)
    ensures Precedence(a) == Precedence(b) <==> Place(a) == Place(b)
  {
  }

  // ------------------------------------------------------- first sighting, marks

  /** When a record says its finding was first seen: its own note, or its time. */
  function SaysSeen(r: Record): string { if r.firstSeen != "" then r.firstSeen else r.timestamp }

  /** The first sighting shown is the earliest any record says. */
  lemma FirstSightingShown(time: Times, own: seq<Record>)
    requires own != [] && time("").None? && forall i :: 0 <= i < |own| ==> time(SaysSeen(own[i])).Some?
    ensures time(Folded(time, own).firstSeen).Some?
    ensures forall i :: 0 <= i < |own| ==> time(Folded(time, own).firstSeen).value <= time(SaysSeen(own[i])).value
    ensures exists i :: 0 <= i < |own| && time(SaysSeen(own[i])) == time(Folded(time, own).firstSeen)
  {
    assert forall i :: 0 <= i < |own| ==> SeenAt(own[i]) == SaysSeen(own[i]);
    FirstSeenIsEarliest(time, own);
    FoldedFields(time, own);
  }

  /** The annotation shown is the last record's that has one, the later one of one time and standing. */
  lemma AnnotationShown(time: Times, own: seq<Record>)
    requires own != [] && WellTimed(time, own)
    ensures var note := Folded(time, own).feedback;
            && (note.None? <==> forall i :: 0 <= i < |own| ==> own[i].feedback.None?)
            && (note.Some? ==> exists k: nat :: LastNote(own, k) && note == own[k].feedback)
  {
    FoldedFields(time, own);
    FeedbackScan(time, own);
    LatestFinds(Valid(time), EntryOf, Annotated(), own);
    assert ValidStamps(Valid(time), EntryOf, own);
    LatestIsLastMaximum(Valid(time), EntryOf, Annotated(), own);
    var k := NewestFeedback(time, own);
    if k.Some? {
      MaximumIsLastNote(own, k.value);
    } else {
      assert !Annotated()(own[EffIndex(time, own)]);
    }
  }

  ghost predicate LastNote(own: seq<Record>, k: nat) {
    k < |own| && own[k].feedback.Some? && forall j :: 0 <= j < |own| && own[j].feedback.Some? ==> NotPast(own, j, k)
  }

  lemma MaximumIsLastNote(own: seq<Record>, k: nat)
    requires IsLastMaximum(EntryOf, Annotated(), own, k)
    ensures LastNote(own, k)
  {
    forall j | 0 <= j < |own| && own[j].feedback.Some? ensures NotPast(own, j, k) {
      assert Annotated()(own[j]);
      StringLessTotal(own[j].timestamp, own[k].timestamp);
      PlaceIsPrecedence(own[j].status, own[k].status);
    }
  }

  /** The boundary shown is the newest of the old one and the detections. */
  lemma BoundaryShown(time: Times, own: seq<Record>)
    requires own != []
    ensures forall i :: 0 <= i < |own| && Detects()(own[i]) ==> !StringLess(Folded(time, own).countedThrough, own[i].timestamp)
    ensures var b := Folded(time, own).countedThrough;
            || (exists i :: 0 <= i < |own| && Detects()(own[i]) && own[i].timestamp == b)
            || (NoCounts(own) && b == "")
            || (exists c :: HoldsCount(own, c) && b == CountedUpTo(c))
  {
    FoldedFields(time, own);
    var before := Boundary(Carrier(own));
    forall i | 0 <= i < |own| && Detects()(own[i]) ensures !StringLess(Folded(time, own).countedThrough, own[i].timestamp) {
      CountedCovers(before, own, i);
    }
    CountedIsOne(before, own);
    if NoCounts(own) {
      NoCarrier(own);
    } else {
      var i := CarrierIsFirst(own);
      TopHoldsCount(own, i);
    }
  }

  // ------------------------------------------------------------- rationales

  /** How much a close's rationale is worth keeping: a dismissal most, then nothing to fix, then giving up, then a fix. */
  function RationalePlace(s: Status): int {
    match s
    case Marked(Resolved) => 1
    case Marked(AttemptsExhausted) => 2
    case Marked(Unreproducible) => 3
    case Marked(Wontfix) => 4
    case _ => 0
  }

  lemma PlaceIsRank(s: Status)
    ensures BearsRationale(s) <==> RationalePlace(s) > 0
    ensures BearsRationale(s) ==> RationalePlace(s) == ClosedRank(s) - 1
  {
  }

  /** `r` holds a rationale: the text of `x`, or one worth at least as much. */
  predicate Covers(r: Record, x: Record) {
    RationalePlace(r.status) > 0 && (r.justification == x.justification || RationalePlace(r.status) >= RationalePlace(x.status))
  }

  lemma CoversIsRank(r: Record, x: Record)
    requires BearsRationale(r.status) && BearsRationale(x.status)
    requires r.justification == x.justification || ClosedRank(r.status) >= ClosedRank(x.status)
    ensures Covers(r, x)
  {
    PlaceIsRank(r.status);
    PlaceIsRank(x.status);
  }

  lemma SomeCovers(kept: seq<Record>, x: Record)
    requires BearsRationale(x.status)
    requires exists r :: r in kept && BearsRationale(r.status) && (r.justification == x.justification || ClosedRank(r.status) >= ClosedRank(x.status))
    ensures exists r :: r in kept && Covers(r, x)
  {
    var r :| r in kept && BearsRationale(r.status) && (r.justification == x.justification || ClosedRank(r.status) >= ClosedRank(x.status));
    CoversIsRank(r, x);
  }

  /** Of every close that may hold a rationale, compaction keeps its text or a rationale worth at least as much. */
  lemma RationaleIsKept(time: Times, group: seq<Record>, i: nat)
    requires i < |group| && RationalePlace(group[i].status) > 0
    ensures exists r :: r in Retained(time, group) && Covers(r, group[i])
  {
    PlaceIsRank(group[i].status);
    RationaleSurvives(time, group, i);
    SomeCovers(Retained(time, group), group[i]);
  }
}
