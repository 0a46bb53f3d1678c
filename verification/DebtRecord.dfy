/**
 Records and summaries of the debt store, folded: the effective record of each finding
 carries counters and the newest reconciler feedback of its whole history, and folding
 summaries selects exactly what folding records selects.
 */
module DebtRecord {
  import opened Basics
  import opened Orders
  import opened DebtFold

  /** Provenance as readers see it: an absent or unrecognized origin reads as a review's. */
  datatype Origin = FromReview | ByHand

  datatype Feedback = Feedback(kind: string, reason: string)

  datatype Record = Record(
    id: string,
    status: Status,
    timestamp: string,
    severity: string,
    file: string,
    line: int,
    category: string,
    estMinutes: int,
    origin: Origin,
    confidence: string,
    justification: string,
    model: string,
    reviewers: seq<string>,
    resolvedAt: Option<string>,
    feedback: Option<Feedback>,
    occurrences: int,
    firstSeen: string,
    countedThrough: string)

  /** The projection selection works on. */
  datatype Summary = Summary(
    id: string,
    status: Status,
    timestamp: string,
    severity: string,
    hasFile: bool,
    file: string,
    line: int,
    category: string,
    estMinutes: int,
    origin: Origin,
    confidence: string,
    feedbackKind: string)

  function SummaryOf(r: Record): Summary {
    Summary(r.id, r.status, r.timestamp, r.severity, r.file != "", r.file, r.line, r.category, r.estMinutes,
            r.origin, r.confidence, if r.feedback.Some? then r.feedback.value.kind else "")
  }

  const BLANK_RECORD := Record("", Unset, "", "", "", 0, "", 0, FromReview, "", "", "", [], None, None, 0, "", "")

  function EntryOf(r: Record): Entry { Entry(r.status, r.timestamp) }

  function EntryOfSummary(s: Summary): Entry { Entry(s.status, s.timestamp) }

  const RECORDS: Foldable<Record> := Foldable((r: Record) => r.id, EntryOf, BLANK_RECORD)

  const SUMMARIES: Foldable<Summary> := Foldable((s: Summary) => s.id, EntryOfSummary, SummaryOf(BLANK_RECORD))

  // ---------------------------------------------------------------- counters

  /** RFC 3339 parsing: the instant a text names, if it names one. */
  type Times = string -> Option<int>

  function Valid(time: Times): Clock { (s: string) => time(s).Some? }

  predicate IsSighting(r: Record) {
    r.feedback.None? && (r.status.Unset? || (r.origin.ByHand? && r.resolvedAt.None?))
  }

  /** The record with the highest count, the newest one on a tie. */
  function Carrier(group: seq<Record>): (c: Option<Record>)
    ensures c.Some? ==> c.value.occurrences != 0
  {
    if group == [] then None
    else
      var r := group[|group| - 1];
      var c := Carrier(group[..|group| - 1]);
      if r.occurrences == 0 then c
      else if c.None? || r.occurrences > c.value.occurrences ||
              (r.occurrences == c.value.occurrences && StringLess(c.value.timestamp, r.timestamp)) then Some(r)
      else c
  }

  function Boundary(c: Option<Record>): string {
    if c.None? then "" else if c.value.countedThrough != "" then c.value.countedThrough else c.value.timestamp
  }

  predicate IsFresh(carried: int, boundary: string, r: Record) {
    IsSighting(r) && r.occurrences == 0 && (carried == 0 || StringLess(boundary, r.timestamp))
  }

  function FreshCount(carried: int, boundary: string, group: seq<Record>): nat {
    |Filter((r: Record) => IsFresh(carried, boundary, r), group)|
  }

  /** The newest sighting accounted for, not before the boundary. */
  function CountedThrough(boundary: string, group: seq<Record>): string {
    if group == [] then boundary
    else
      var before, r := CountedThrough(boundary, group[..|group| - 1]), group[|group| - 1];
      if IsSighting(r) && StringLess(before, r.timestamp) then r.timestamp else before
  }

  function SeenAt(r: Record): string { if r.firstSeen == "" then r.timestamp else r.firstSeen }

  function EarlierTimestamp(time: Times, a: string, b: string): string {
    if time(a).Some? && time(b).Some? then (if time(b).value < time(a).value then b else a)
    else if StringLess(b, a) then b
    else a
  }

  function FirstSeen(time: Times, group: seq<Record>): string {
    if group == [] then ""
    else
      var first, seen := FirstSeen(time, group[..|group| - 1]), SeenAt(group[|group| - 1]);
      if seen == "" then first
      else if first == "" then seen
      else EarlierTimestamp(time, first, seen)
  }

  function Carried(group: seq<Record>): int {
    if Carrier(group).None? then 0 else Carrier(group).value.occurrences
  }

  function Occurrences(group: seq<Record>): (n: int)
    ensures n >= 1
  {
    var n := Carried(group) + FreshCount(Carried(group), Boundary(Carrier(group)), group);
    if n < 1 then 1 else n
  }

  /** `aggregateCounters`. */
  function WithCounters(time: Times, eff: Record, group: seq<Record>): Record {
    eff.(occurrences := Occurrences(group), firstSeen := FirstSeen(time, group),
         countedThrough := CountedThrough(Boundary(Carrier(group)), group))
  }

  function NewestFeedback(time: Times, group: seq<Record>): (i: Option<nat>)
    ensures i.Some? ==> i.value < |group| && group[i.value].feedback.Some?
  {
    LatestWhere(Valid(time), EntryOf, (r: Record) => r.feedback.Some?, group)
  }

  lemma FeedbackIsFound(time: Times, group: seq<Record>, i: nat)
    requires i < |group| && NewestFeedback(time, group).None?
    ensures group[i].feedback.None?
  {
    LatestFinds(Valid(time), EntryOf, (r: Record) => r.feedback.Some?, group);
  }

  function WithFeedback(time: Times, eff: Record, group: seq<Record>): Record {
    var i := NewestFeedback(time, group);
    if i.None? then eff else eff.(feedback := group[i.value].feedback)
  }

  function Folded(time: Times, group: seq<Record>): Record {
    WithFeedback(time, WithCounters(time, Pick(Valid(time), RECORDS, group), group), group)
  }

  function Folder(time: Times): seq<Record> -> Record { (g: seq<Record>) => Folded(time, g) }

  /** `FoldRecords`. */
  function FoldRecords(time: Times, recs: seq<Record>): seq<Record> {
    MapGroups(RECORDS, Folder(time), recs)
  }

  function NewestKind(time: Times, group: seq<Summary>): (i: Option<nat>)
    ensures i.Some? ==> i.value < |group|
  {
    LatestWhere(Valid(time), EntryOfSummary, (s: Summary) => s.feedbackKind != "", group)
  }

  function FoldedSummary(time: Times, group: seq<Summary>): Summary {
    var eff, i := Pick(Valid(time), SUMMARIES, group), NewestKind(time, group);
    if i.None? then eff else eff.(feedbackKind := group[i.value].feedbackKind)
  }

  /** `FoldSummaries`. */
  function FoldSummaries(time: Times, sums: seq<Summary>): seq<Summary> {
    MapGroups(SUMMARIES, (g: seq<Summary>) => FoldedSummary(time, g), sums)
  }

  // --------------------------------------------------------- laws of the fold

  function RecordIds(recs: seq<Record>): seq<string> { Map(RECORDS.id, recs) }

  function SummaryIds(sums: seq<Summary>): seq<string> { Map((s: Summary) => s.id, sums) }

  lemma FoldedKeepsId(time: Times)
    ensures KeepsId(RECORDS, Folder(time), RECORDS.id)
  {
  }

  /** One effective record per id, in order of first appearance. */
  lemma FoldIsOnePerId(time: Times, recs: seq<Record>)
    ensures RecordIds(FoldRecords(time, recs)) == Ids(RECORDS, recs)
    ensures Distinct(RecordIds(FoldRecords(time, recs)))
  {
    FoldedKeepsId(time);
    GroupsAreOnePerId(RECORDS, Folder(time), RECORDS.id, recs);
  }

  /** Folding only the wanted ids' records is folding everything and keeping the wanted ids. */
  lemma FoldOfWanted(time: Times, wanted: string -> bool, recs: seq<Record>)
    ensures FoldRecords(time, OfWanted(RECORDS.id, wanted, recs)) == OfWanted(RECORDS.id, wanted, FoldRecords(time, recs))
  {
    FoldedKeepsId(time);
    GroupsOfWanted(RECORDS, Folder(time), RECORDS.id, wanted, recs);
  }

  /** Every annotation names its kind, as `debt recluster` writes it. */
  ghost predicate KindsNamed(recs: seq<Record>) {
    forall r :: r in recs && r.feedback.Some? ==> r.feedback.value.kind != ""
  }

  /** A summary without its annotation kind. */
  function Plain(s: Summary): Summary { s.(feedbackKind := "") }

  lemma FoldedSummaryAgrees(time: Times, group: seq<Record>)
    requires group != []
    ensures Plain(FoldedSummary(time, Map(SummaryOf, group))) == Plain(SummaryOf(Folded(time, group)))
    ensures KindsNamed(group) ==> FoldedSummary(time, Map(SummaryOf, group)) == SummaryOf(Folded(time, group))
  {
    PickOfProjection(Valid(time), RECORDS, SUMMARIES, SummaryOf, group);
    if KindsNamed(group) {
      LatestOfProjection(Valid(time), SummaryOf, EntryOf, (r: Record) => r.feedback.Some?,
                         EntryOfSummary, (s: Summary) => s.feedbackKind != "", group);
      var i := NewestFeedback(time, group);
      assert NewestKind(time, Map(SummaryOf, group)) == i;
      if i.None? { FeedbackIsFound(time, group, FoldIndex(Valid(time), RECORDS, group)); }
    }
  }

  /**
   Folding summaries is summarizing the fold: always up to the annotation kind, and
   entirely when every annotation names its kind.
   */
  lemma SummariesFoldAlike(time: Times, recs: seq<Record>)
    ensures var sums, folded := FoldSummaries(time, Map(SummaryOf, recs)), FoldRecords(time, recs);
            && Map(Plain, sums) == Map(Plain, Map(SummaryOf, folded))
            && (KindsNamed(recs) ==> sums == Map(SummaryOf, folded))
  {
    var ids := Ids(RECORDS, recs);
    IdsOfProjection(RECORDS, SUMMARIES, SummaryOf, recs);
    forall i | 0 <= i < |ids|
      ensures var a, b := FoldedSummary(time, GroupOf(SUMMARIES, Map(SummaryOf, recs), ids[i])), SummaryOf(Folded(time, GroupOf(RECORDS, recs, ids[i])));
              Plain(a) == Plain(b) && (KindsNamed(recs) ==> a == b)
    {
      GroupMembers(RECORDS, recs, ids[i]);
      GroupOfProjection(RECORDS, SUMMARIES, SummaryOf, recs, ids[i]);
      FoldedSummaryAgrees(time, GroupOf(RECORDS, recs, ids[i]));
    }
  }

  // ------------------------------------------------------- the fold, imperatively

  method FindCarrier(group: seq<Record>) returns (carrier: Option<Record>)
    ensures carrier == Carrier(group)
  {
    carrier := None;
    for i := 0 to |group|
      invariant carrier == Carrier(group[..i])
    {
      assert group[..i + 1][..i] == group[..i];
      var x := group[i];
      if x.occurrences != 0 {
        if carrier.None? {
          carrier := Some(x);
        } else if x.occurrences > carrier.value.occurrences ||
                  (x.occurrences == carrier.value.occurrences && StringLess(carrier.value.timestamp, x.timestamp)) {
          carrier := Some(x);
        }
      }
    }
    assert group[..|group|] == group;
  }

  method CountSightings(carried: int, boundary: string, group: seq<Record>) returns (count: nat, counted: string)
    ensures count == FreshCount(carried, boundary, group) && counted == CountedThrough(boundary, group)
  {
    count, counted := 0, boundary;
    for i := 0 to |group|
      invariant count == FreshCount(carried, boundary, group[..i]) && counted == CountedThrough(boundary, group[..i])
    {
      assert group[..i + 1] == group[..i] + [group[i]] && group[..i + 1][..i] == group[..i];
      FilterSnoc((x: Record) => IsFresh(carried, boundary, x), group[..i], group[i]);
      var x := group[i];
      if IsSighting(x) {
        if x.occurrences == 0 && (carried == 0 || StringLess(boundary, x.timestamp)) {
          count := count + 1;
        }
        if StringLess(counted, x.timestamp) {
          counted := x.timestamp;
        }
      }
    }
    assert group[..|group|] == group;
  }

  method FindFirstSeen(time: Times, group: seq<Record>) returns (first: string)
    ensures first == FirstSeen(time, group)
  {
    first := "";
    for i := 0 to |group|
      invariant first == FirstSeen(time, group[..i])
    {
      assert group[..i + 1][..i] == group[..i];
      var seen := SeenAt(group[i]);
      if seen != "" {
        first := if first == "" then seen else EarlierTimestamp(time, first, seen);
      }
    }
    assert group[..|group|] == group;
  }

  /** `aggregateCounters`; the source's one counting loop is written as its two sums. */
  method AggregateCounters(time: Times, eff: Record, group: seq<Record>) returns (r: Record)
    ensures r == WithCounters(time, eff, group)
  {
    var carrier := FindCarrier(group);
    var carried := if carrier.None? then 0 else carrier.value.occurrences;
    var boundary := Boundary(carrier);
    var count, counted := CountSightings(carried, boundary, group);
    var first := FindFirstSeen(time, group);
    var occ := carried + count;
    if occ < 1 {
      occ := 1;
    }
    return eff.(occurrences := occ, firstSeen := first, countedThrough := counted);
  }

  method FoldGroup(time: Times, group: seq<Record>) returns (eff: Record)
    requires group != []
    ensures eff == Folded(time, group)
  {
    var kept := ScanWhere(Valid(time), RECORDS.entry, (r: Record) => Suppresses(RECORDS, r), group);
    if kept.None? {
      kept := ScanWhere(Valid(time), RECORDS.entry, (r: Record) => true, group);
    }
    eff := AggregateCounters(time, group[kept.value], group);
    var noted := ScanWhere(Valid(time), EntryOf, (r: Record) => r.feedback.Some?, group);
    if noted.Some? {
      eff := eff.(feedback := group[noted.value].feedback);
    }
  }

  lemma FoldRecordsAt(time: Times, recs: seq<Record>, i: nat)
    requires i < |Ids(RECORDS, recs)|
    ensures i < |FoldRecords(time, recs)| == |Ids(RECORDS, recs)|
    ensures FoldRecords(time, recs)[i] == Folded(time, GroupOf(RECORDS, recs, Ids(RECORDS, recs)[i]))
    ensures GroupOf(RECORDS, recs, Ids(RECORDS, recs)[i]) != []
  {
    GroupMembers(RECORDS, recs, Ids(RECORDS, recs)[i]);
  }

  /** `goal` lists the fold of each id's group. */
  ghost predicate Folds(time: Times, order: seq<string>, byID: map<string, seq<Record>>, goal: seq<Record>) {
    && |goal| == |order|
    && forall i :: 0 <= i < |order| ==> order[i] in byID && byID[order[i]] != [] && goal[i] == Folded(time, byID[order[i]])
  }

  method FoldNext(time: Times, order: seq<string>, byID: map<string, seq<Record>>, i: nat, folded: seq<Record>, ghost goal: seq<Record>)
    returns (folded': seq<Record>)
    requires Folds(time, order, byID, goal) && i < |order| && folded == goal[..i]
    ensures folded' == goal[..i + 1]
  {
    var eff := FoldGroup(time, byID[order[i]]);
    return folded + [eff];
  }

  /** The second loop of the fold: each id's group in turn. */
  method FoldEach(time: Times, order: seq<string>, byID: map<string, seq<Record>>, ghost goal: seq<Record>) returns (folded: seq<Record>)
    requires Folds(time, order, byID, goal)
    ensures folded == goal
  {
    folded := [];
    for i := 0 to |order|
      invariant folded == goal[..i]
    {
      folded := FoldNext(time, order, byID, i, folded, goal);
    }
  }

  method FoldStore(time: Times, recs: seq<Record>) returns (folded: seq<Record>)
    ensures folded == FoldRecords(time, recs)
  {
    var order, byID := Grouping(RECORDS, recs);
    assert Folds(time, order, byID, FoldRecords(time, recs)) by {
      forall i | 0 <= i < |order|
        ensures order[i] in byID && byID[order[i]] != [] && FoldRecords(time, recs)[i] == Folded(time, byID[order[i]])
      {
        assert order[i] in ToSet(order);
        FoldRecordsAt(time, recs, i);
      }
    }
    folded := FoldEach(time, order, byID, FoldRecords(time, recs));
  }
}
