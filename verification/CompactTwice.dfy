/**
 Compaction settles at the second pass: what it retains then is retained unchanged by every
 later pass. The first pass does not settle, because the order in which it writes can hand
 the attributed close the rationale's place.
 */
module CompactTwice {
  import opened Basics
  import opened Orders
  import opened DebtFold
  import opened DebtRecord
  import opened DebtCompact
  import opened CompactLimits

  // ------------------------------------------------- the plan reads four fields

  ghost predicate AllTwins(a: seq<Record>, b: seq<Record>) {
    |a| == |b| && forall i :: 0 <= i < |a| ==> Twins(a[i], b[i])
  }

  lemma {:induction false} ScanOfTwins(time: Times, p: Record -> bool, a: seq<Record>, b: seq<Record>)
    requires AllTwins(a, b) && forall r: Record, s: Record :: EntryOf(r) == EntryOf(s) ==> p(r) == p(s)
    ensures LatestWhere(Valid(time), EntryOf, p, a) == LatestWhere(Valid(time), EntryOf, p, b)
  {
    if a != [] { ScanOfTwins(time, p, a[..|a| - 1], b[..|b| - 1]); }
  }

  lemma {:induction false} TrailOfTwins(a: seq<Record>, b: seq<Record>, e: nat, n: nat)
    requires AllTwins(a, b) && e < |a| && n <= |a|
    ensures BestTrail(a, e, n) == BestTrail(b, e, n)
  {
    if n > 0 { TrailOfTwins(a, b, e, n - 1); }
  }

  lemma {:induction false} DonorOfTwins(a: seq<Record>, b: seq<Record>, n: nat)
    requires AllTwins(a, b) && n <= |a|
    ensures Donor(a, n) == Donor(b, n)
  {
    if n > 0 { DonorOfTwins(a, b, n - 1); }
  }

  lemma EffIndexOfTwins(time: Times, a: seq<Record>, b: seq<Record>)
    requires AllTwins(a, b) && a != []
    ensures EffIndex(time, a) == EffIndex(time, b)
  {
    SuppressionIsOfEntry();
    ScanOfTwins(time, SuppressesRecord(), a, b);
    ScanOfTwins(time, AnyRecord(), a, b);
    FoldIndexArms(time, a);
    FoldIndexArms(time, b);
  }

  lemma PlanOfTwins(time: Times, a: seq<Record>, b: seq<Record>)
    requires AllTwins(a, b) && a != []
    ensures EffIndex(time, a) == EffIndex(time, b) && PlanOf(time, a) == PlanOf(time, b)
  {
    EffIndexOfTwins(time, a, b);
    TrailOfTwins(a, b, EffIndex(time, a), |a|);
    DonorOfTwins(a, b, |a|);
    ScanOfTwins(time, Closes(), a, b);
    ArrangeTwins(a, b, EffIndex(time, a), BestTrail(a, EffIndex(time, a), |a|), Donor(a, |a|), LatestClosed(time, a));
  }

  lemma ArrangeTwins(a: seq<Record>, b: seq<Record>, e: nat, trail: Option<nat>, carrier: Option<nat>, closed: Option<nat>)
    requires AllTwins(a, b) && e < |a|
    ensures Arrange(a, e, trail, carrier, closed) == Arrange(b, e, trail, carrier, closed)
  {
  }

  // ------------------------------------------------- what is kept, as it stood

  /** The retained records before anything is rewritten. */
  function Sub(time: Times, group: seq<Record>): seq<Record>
    requires group != []
  {
    PlanIsGood(time, group);
    Superseded(group, PlanOf(time, group).Kept()) + [group[EffIndex(time, group)]]
  }

  lemma RetainedTwinsSub(time: Times, group: seq<Record>)
    requires group != []
    ensures AllTwins(Retained(time, group), Sub(time, group)) && Retained(time, group) != []
  {
    RetainedSplits(time, group);
    FoldedIsSame(time, group);
    TwinsOf(group, EffIndex(time, group), PlanOf(time, group).Kept(), Folded(time, group));
  }

  lemma TwinsOf(group: seq<Record>, e: nat, kept: seq<nat>, eff: Record)
    requires GoodKept(group, e, kept) && e < |group| && SameFinding(eff, group[e])
    ensures AllTwins(StrippedAll(eff, group, kept) + [eff], Superseded(group, kept) + [group[e]])
  {
  }

  /** What is kept of twins is twins. */
  lemma SubOfTwins(time: Times, a: seq<Record>, b: seq<Record>)
    requires AllTwins(a, b) && a != []
    ensures AllTwins(Sub(time, a), Sub(time, b))
  {
    PlanOfTwins(time, a, b);
    PlanIsGood(time, a);
    SupersededTwins(a, b, PlanOf(time, a).Kept(), EffIndex(time, a));
  }

  lemma SupersededTwins(a: seq<Record>, b: seq<Record>, kept: seq<nat>, e: nat)
    requires AllTwins(a, b) && e < |a| && forall i :: 0 <= i < |kept| ==> kept[i] < |a|
    ensures AllTwins(Superseded(a, kept) + [a[e]], Superseded(b, kept) + [b[e]])
  {
    var x, y := Superseded(a, kept), Superseded(b, kept);
    forall i | 0 <= i < |kept| ensures Twins(x[i], y[i]) { assert Twins(a[kept[i]], b[kept[i]]); }
    assert Twins(a[e], b[e]);
  }

  lemma SubIs(time: Times, h: seq<Record>, kept: seq<nat>, sub: seq<Record>)
    requires h != [] && PlanOf(time, h).Kept() == kept && |sub| == |kept| + 1
    requires forall i :: 0 <= i < |kept| ==> kept[i] < |h| && sub[i] == h[kept[i]]
    requires sub[|kept|] == h[EffIndex(time, h)]
    ensures Sub(time, h) == sub
  {
    SubOf(h, EffIndex(time, h), kept, sub);
  }

  lemma SubOf(h: seq<Record>, e: nat, kept: seq<nat>, sub: seq<Record>)
    requires e < |h| && |sub| == |kept| + 1 && sub[|kept|] == h[e]
    requires forall i :: 0 <= i < |kept| ==> kept[i] < |h| && sub[i] == h[kept[i]]
    ensures Superseded(h, kept) + [h[e]] == sub
  {
  }

  lemma SubIsWellTimed(time: Times, group: seq<Record>)
    requires group != [] && WellTimed(time, group)
    ensures WellTimed(time, Sub(time, group)) && Sub(time, group) != []
    ensures EffIndex(time, Sub(time, group)) == |Sub(time, group)| - 1
  {
    var e, kept := EffIndex(time, group), PlanOf(time, group).Kept();
    PlanIsGood(time, group);
    EffectiveStays(time, group, kept, group[e]);
    var after := StrippedAll(group[e], group, kept) + [group[e]];
    TwinsOf(group, e, kept, group[e]);
    EffIndexOfTwins(time, after, Sub(time, group));
    SupersededTimes(time, group, kept, e);
  }

  lemma SupersededTimes(time: Times, group: seq<Record>, kept: seq<nat>, e: nat)
    requires WellTimed(time, group) && e < |group| && forall i :: 0 <= i < |kept| ==> kept[i] < |group|
    ensures WellTimed(time, Superseded(group, kept) + [group[e]])
  {
  }

  /** Compaction keeps every record, in order. */
  ghost predicate Stands(time: Times, group: seq<Record>)
    requires group != []
  {
    EffIndex(time, group) == |group| - 1 && PlanOf(time, group).Kept() == seq(|group| - 1, (i: nat) => i)
  }

  // ------------------------------------------------------------- how records compare

  /** `r` is a rationale the effective record `e` does not carry itself. */
  predicate Trailing(r: Record, e: Record) {
    BearsRationale(r.status) && !(BearsRationale(e.status) && r.justification == e.justification)
  }

  predicate AtLeast(a: Record, b: Record) {
    ClosedRank(a.status) > ClosedRank(b.status) ||
    (ClosedRank(a.status) == ClosedRank(b.status) && !StringLess(a.timestamp, b.timestamp))
  }

  /** The trail rule cannot tell them apart but by position. */
  predicate TiesRank(a: Record, b: Record) { ClosedRank(a.status) == ClosedRank(b.status) && a.timestamp == b.timestamp }

  predicate NotOlder(a: Record, b: Record) { !StringLess(a.timestamp, b.timestamp) }

  predicate GaveUp(r: Record) { r.status == Marked(AttemptsExhausted) }

  // -------------------------------------------------- plans of the shapes that arise

  lemma PlanOfAlone(time: Times, e: Record)
    requires EffIndex(time, [e]) == 0
    ensures Stands(time, [e])
  {
    var h := [e];
    assert BestTrail(h, 0, 0) == None && BestTrail(h, 0, 1) == None;
    assert Donor(h, 0) == None;
  }

  lemma PlanOfTrail(time: Times, t: Record, e: Record)
    requires EffIndex(time, [t, e]) == 1 && Trailing(t, e)
    ensures Stands(time, [t, e])
  {
    var h := [t, e];
    assert BestTrail(h, 1, 1) == Some(0) && BestTrail(h, 1, 2) == Some(0);
    var closed := LatestClosed(time, h);
    LatestFinds(Valid(time), EntryOf, Closes(), h);
    assert Closes()(h[0]);
  }

  lemma PlanOfDonor(time: Times, d: Record, e: Record)
    requires EffIndex(time, [d, e]) == 1 && !Trailing(d, e) && CarriesModel(d) && (CarriesModel(e) ==> NotOlder(d, e))
    ensures PlanOf(time, [d, e]).Kept() == if CarriesModel(e) && d.timestamp == e.timestamp then [] else [0]
  {
    var h := [d, e];
    assert BestTrail(h, 1, 1) == None && BestTrail(h, 1, 2) == None;
    assert Donor(h, 1) == Some(0);
    StringLessTotal(d.timestamp, e.timestamp);
    StringLessIrreflexive(d.timestamp);
    LatestFinds(Valid(time), EntryOf, Closes(), h);
    assert Closes()(h[0]);
  }

  /** A rationale and a newer or equal attributed close. */
  ghost predicate TrailThenDonor(t: Record, d: Record, e: Record) {
    && Trailing(t, e) && (Trailing(d, e) ==> AtLeast(t, d))
    && CarriesModel(d) && (CarriesModel(t) ==> NotOlder(d, t)) && (CarriesModel(e) ==> NotOlder(d, e))
  }

  lemma TrailOfTD(t: Record, d: Record, e: Record)
    requires TrailThenDonor(t, d, e)
    ensures BestTrail([t, d, e], 2, 3) == Some(if Trailing(d, e) && TiesRank(t, d) then 1 else 0)
  {
    var h := [t, d, e];
    StringLessTotal(t.timestamp, d.timestamp);
    StringLessIrreflexive(t.timestamp);
    assert BestTrail(h, 2, 1) == Some(0);
    assert BestTrail(h, 2, 2) == Some(if Trailing(d, e) && TiesRank(t, d) then 1 else 0);
  }

  lemma DonorOfTD(t: Record, d: Record, e: Record)
    requires TrailThenDonor(t, d, e)
    ensures Donor([t, d, e], 3) == Some(if CarriesModel(e) && d.timestamp == e.timestamp then 2 else 1)
  {
    var h := [t, d, e];
    StringLessTotal(d.timestamp, e.timestamp);
    StringLessIrreflexive(d.timestamp);
    assert Donor(h, 1) == if CarriesModel(t) then Some(0) else None;
    assert Donor(h, 2) == Some(1);
  }

  /** The scan for the latest close, over two closes and an open record. */
  lemma LatestOfTwo(time: Times, a: Record, b: Record, e: Record)
    requires IsClosed(a.status) && IsClosed(b.status) && !IsClosed(e.status)
    ensures LatestClosed(time, [a, b, e]) == Some(if Displaces(Valid(time), EntryOf(b), EntryOf(a)) then 1 else 0)
  {
    assert [a, b, e][..2] == [a, b] && [a, b][..1] == [a] && [a][..0] == [];
    assert LatestWhere(Valid(time), EntryOf, Closes(), [a]) == Some(0);
    assert LatestWhere(Valid(time), EntryOf, Closes(), [a, b]) == Some(if Displaces(Valid(time), EntryOf(b), EntryOf(a)) then 1 else 0);
  }

  lemma TiedDisplaces(time: Times, a: Record, b: Record)
    requires IsClosed(a.status) && IsClosed(b.status) && TiesRank(a, b)
    ensures a.status == b.status && Displaces(Valid(time), EntryOf(b), EntryOf(a))
  {
  }

  lemma PlanOfTD(time: Times, t: Record, d: Record, e: Record)
    requires EffIndex(time, [t, d, e]) == 2 && TrailThenDonor(t, d, e)
    ensures PlanOf(time, [t, d, e]).Kept() ==
            if Trailing(d, e) && TiesRank(t, d) then [1]
            else if CarriesModel(e) && d.timestamp == e.timestamp then [0]
            else [0, 1]
  {
    TrailOfTD(t, d, e);
    DonorOfTD(t, d, e);
    if !IsClosed(e.status) { LatestOfTwo(time, t, d, e); }
    if TiesRank(t, d) { TiedDisplaces(time, t, d); }
    ArrangeTD(time, t, d, e, BestTrail([t, d, e], 2, 3), Donor([t, d, e], 3), LatestClosed(time, [t, d, e]));
  }

  lemma ArrangeTD(time: Times, t: Record, d: Record, e: Record, trail: Option<nat>, carrier: Option<nat>, closed: Option<nat>)
    requires trail == Some(0) || trail == Some(1)
    requires carrier == Some(1) || (carrier == Some(2) && IsClosed(e.status))
    requires !IsClosed(e.status) ==> closed == Some(0) || closed == Some(1)
    requires !IsClosed(e.status) && trail == Some(1) ==> closed == Some(1)
    ensures Arrange([t, d, e], 2, trail, carrier, closed).Kept() ==
            if trail == Some(1) then [1] else if carrier == Some(2) then [0] else [0, 1]
  {
  }

  /** A rationale and the latest close of an open finding that someone gave up on. */
  ghost predicate TrailThenLatest(t: Record, l: Record, e: Record) {
    && !IsClosed(e.status) && Trailing(t, e) && IsClosed(l.status)
    && (Trailing(l, e) ==> AtLeast(t, l) && !TiesRank(t, l))
    && !Ahead(EntryOf(t), EntryOf(l))
    && (CarriesModel(l) ==> CarriesModel(t) && NotOlder(t, l))
    && (GaveUp(t) || GaveUp(l))
  }

  lemma LaterDisplaces(time: Times, a: Record, b: Record)
    requires !Ahead(EntryOf(a), EntryOf(b))
    ensures Displaces(Valid(time), EntryOf(b), EntryOf(a))
  {
    StringLessTotal(a.timestamp, b.timestamp);
  }

  lemma TrailOfTL(t: Record, l: Record, e: Record)
    requires TrailThenLatest(t, l, e)
    ensures BestTrail([t, l, e], 2, 3) == Some(0)
  {
    var h := [t, l, e];
    StringLessTotal(t.timestamp, l.timestamp);
    assert BestTrail(h, 2, 1) == Some(0);
    assert BestTrail(h, 2, 2) == Some(0);
  }

  lemma DonorOfTL(t: Record, l: Record, e: Record)
    requires TrailThenLatest(t, l, e)
    ensures Donor([t, l, e], 3) in {None, Some(0), Some(1)}
  {
    var h := [t, l, e];
    assert Donor(h, 1) in {None, Some(0)};
    assert Donor(h, 2) in {None, Some(0), Some(1)};
  }

  lemma PlanOfTL(time: Times, t: Record, l: Record, e: Record)
    requires EffIndex(time, [t, l, e]) == 2 && TrailThenLatest(t, l, e)
    ensures PlanOf(time, [t, l, e]).Kept() == [0, 1]
  {
    TrailOfTL(t, l, e);
    DonorOfTL(t, l, e);
    LatestOfTwo(time, t, l, e);
    LaterDisplaces(time, t, l);
    ArrangeTL(t, l, e, Donor([t, l, e], 3));
  }

  lemma ArrangeTL(t: Record, l: Record, e: Record, carrier: Option<nat>)
    requires !IsClosed(e.status) && (GaveUp(t) || GaveUp(l)) && (carrier == None || carrier == Some(0) || carrier == Some(1))
    ensures Arrange([t, l, e], 2, Some(0), carrier, Some(1)).Kept() == [0, 1]
  {
  }

  /** All four places are taken. */
  ghost predicate AllFour(t: Record, l: Record, d: Record, e: Record) {
    && !IsClosed(e.status) && Trailing(t, e) && IsClosed(l.status) && CarriesModel(d)
    && (Trailing(l, e) ==> AtLeast(t, l) && !TiesRank(t, l)) && (Trailing(d, e) ==> AtLeast(t, d))
    && !Ahead(EntryOf(t), EntryOf(l)) && !Ahead(EntryOf(d), EntryOf(l))
    && (CarriesModel(t) ==> NotOlder(d, t)) && (CarriesModel(l) ==> NotOlder(d, l))
    && (GaveUp(t) || GaveUp(l) || GaveUp(d))
  }

  lemma TrailOfFour(t: Record, l: Record, d: Record, e: Record)
    requires AllFour(t, l, d, e)
    ensures BestTrail([t, l, d, e], 3, 4) == Some(if Trailing(d, e) && TiesRank(t, d) then 2 else 0)
  {
    var h := [t, l, d, e];
    StringLessTotal(t.timestamp, l.timestamp);
    StringLessTotal(t.timestamp, d.timestamp);
    StringLessIrreflexive(t.timestamp);
    assert BestTrail(h, 3, 1) == Some(0);
    assert BestTrail(h, 3, 2) == Some(0);
    assert BestTrail(h, 3, 3) == Some(if Trailing(d, e) && TiesRank(t, d) then 2 else 0);
  }

  lemma DonorOfFour(t: Record, l: Record, d: Record, e: Record)
    requires AllFour(t, l, d, e)
    ensures Donor([t, l, d, e], 4) == Some(2)
  {
    var h := [t, l, d, e];
    assert Donor(h, 1) in {None, Some(0)};
    assert Donor(h, 2) in {None, Some(0), Some(1)};
    assert Donor(h, 3) == Some(2);
  }

  lemma LatestOfFour(time: Times, t: Record, l: Record, d: Record, e: Record)
    requires AllFour(t, l, d, e) && WellTimed(time, [t, l, d, e])
    ensures LatestClosed(time, [t, l, d, e]) == Some(if EntryOf(l) == EntryOf(d) then 2 else 1)
  {
    var h, valid := [t, l, d, e], Valid(time);
    assert h[..3] == [t, l, d] && [t, l, d][..2] == [t, l] && [t, l][..1] == [t] && [t][..0] == [];
    LaterDisplaces(time, t, l);
    assert valid(h[1].timestamp) && valid(h[2].timestamp);
    DisplacesIsNotBehind(valid, EntryOf(d), EntryOf(l));
    SameEntryIff(l, d);
    assert LatestWhere(valid, EntryOf, Closes(), [t]) == Some(0);
    assert LatestWhere(valid, EntryOf, Closes(), [t, l]) == Some(1);
    assert LatestWhere(valid, EntryOf, Closes(), [t, l, d]) == Some(if EntryOf(l) == EntryOf(d) then 2 else 1);
  }

  /** Of two closes neither is ahead exactly when they have one status and one time. */
  lemma SameEntryIff(a: Record, b: Record)
    requires IsClosed(a.status) && IsClosed(b.status)
    ensures EntryOf(a) == EntryOf(b) <==> !Ahead(EntryOf(a), EntryOf(b)) && !Ahead(EntryOf(b), EntryOf(a))
  {
    StringLessTotal(a.timestamp, b.timestamp);
    StringLessIrreflexive(a.timestamp);
  }

  lemma PlanOfFour(time: Times, t: Record, l: Record, d: Record, e: Record)
    requires EffIndex(time, [t, l, d, e]) == 3 && AllFour(t, l, d, e) && WellTimed(time, [t, l, d, e])
    ensures PlanOf(time, [t, l, d, e]).Kept() ==
            if Trailing(d, e) && TiesRank(t, d) then [2, 1] else if EntryOf(l) == EntryOf(d) then [0, 2] else [0, 1, 2]
  {
    TrailOfFour(t, l, d, e);
    DonorOfFour(t, l, d, e);
    LatestOfFour(time, t, l, d, e);
    if TiesRank(t, d) { TiedDisplaces(time, t, d); }
    ArrangeFour(t, l, d, e, Trailing(d, e) && TiesRank(t, d), EntryOf(l) == EntryOf(d));
  }

  lemma ArrangeFour(t: Record, l: Record, d: Record, e: Record, tied: bool, same: bool)
    requires !IsClosed(e.status) && (GaveUp(t) || GaveUp(l) || GaveUp(d)) && (tied ==> t.status == d.status && !same)
    ensures Arrange([t, l, d, e], 3, Some(if tied then 2 else 0), Some(2), Some(if same then 2 else 1)).Kept() ==
            if tied then [2, 1] else if same then [0, 2] else [0, 1, 2]
  {
  }

  // -------------------------------------------------- what the first pass leaves

  lemma {:induction false} TrailBeats(group: seq<Record>, e: nat, n: nat, i: nat)
    requires e < |group| && i < n <= |group| && IsTrail(group, e, i)
    ensures BestTrail(group, e, n).Some?
    ensures var b := BestTrail(group, e, n).value; AtLeast(group[b], group[i]) && (TiesRank(group[b], group[i]) ==> i <= b)
  {
    StringLessIrreflexive(group[i].timestamp);
    if i < n - 1 {
      TrailBeats(group, e, n - 1, i);
      var best := BestTrail(group, e, n - 1).value;
      AtLeastStep(group[n - 1], group[best], group[i]);
    } else if BestTrail(group, e, n - 1).Some? {
      StringLessWeak(group[i].timestamp, group[BestTrail(group, e, n - 1).value].timestamp, group[i].timestamp);
    }
  }

  lemma AtLeastStep(x: Record, best: Record, y: Record)
    requires AtLeast(best, y)
    ensures AtLeast(x, best) ==> AtLeast(x, y)
  {
    StringLessWeak(x.timestamp, best.timestamp, y.timestamp);
  }

  /** Any superseded rationale stands behind the retained one. */
  lemma BehindTrail(time: Times, group: seq<Record>, x: nat)
    requires group != [] && x < |group| && x != EffIndex(time, group) && Trailing(group[x], group[EffIndex(time, group)])
    ensures PlanOf(time, group).trail.Some? && AtLeast(group[PlanOf(time, group).trail.value], group[x])
  {
    TrailBeats(group, EffIndex(time, group), |group|, x);
  }

  /** Any attributed close is no newer than the donor, or than the rationale that doubles as donor. */
  lemma BehindDonor(time: Times, group: seq<Record>, x: nat)
    requires group != [] && x < |group| && CarriesModel(group[x])
    ensures var plan := PlanOf(time, group);
            && (plan.donor.Some? ==> CarriesModel(group[plan.donor.value]) && NotOlder(group[plan.donor.value], group[x]))
            && (plan.donor.None? && !IsClosed(group[EffIndex(time, group)].status) ==>
                  plan.trail.Some? && CarriesModel(group[plan.trail.value]) && NotOlder(group[plan.trail.value], group[x]))
  {
    DonorOutlasts(group, |group|, x);
  }

  lemma BehindLatest(time: Times, group: seq<Record>, x: nat)
    requires group != [] && WellTimed(time, group) && PlanOf(time, group).latest.Some? && x < |group| && IsClosed(group[x].status)
    ensures var l := PlanOf(time, group).latest.value;
            IsClosed(group[l].status) && !Ahead(EntryOf(group[x]), EntryOf(group[l])) && (x > l ==> Ahead(EntryOf(group[l]), EntryOf(group[x])))
  {
    assert ValidStamps(Valid(time), EntryOf, group);
    LatestIsLastMaximum(Valid(time), EntryOf, Closes(), group);
    assert LatestClosed(time, group) == PlanOf(time, group).latest;
    assert Closes()(group[x]);
  }

  /** The latest close is kept beside a rationale, never one it ties with, because someone gave up. */
  lemma LatestIsApart(time: Times, group: seq<Record>)
    requires group != [] && WellTimed(time, group) && PlanOf(time, group).latest.Some?
    ensures var plan, e := PlanOf(time, group), EffIndex(time, group);
            && !IsClosed(group[e].status) && plan.trail.Some?
            && (GaveUp(group[plan.trail.value]) || GaveUp(group[plan.latest.value]) || (plan.donor.Some? && GaveUp(group[plan.donor.value])))
            && !TiesRank(group[plan.trail.value], group[plan.latest.value])
  {
    var plan, e := PlanOf(time, group), EffIndex(time, group);
    var l := plan.latest.value;
    BehindLatest(time, group, l);
    if plan.trail.None? {
      var x := if GaveUp(group[l]) then l else plan.donor.value;
      assert GaveUp(group[x]) && IsTrail(group, e, x);
      TrailBeats(group, e, |group|, x);
    }
    var t := plan.trail.value;
    BehindLatest(time, group, t);
    if TiesRank(group[t], group[l]) {
      TiedDisplaces(time, group[t], group[l]);
      AheadIsWeak(EntryOf(group[t]), EntryOf(group[l]), EntryOf(group[t]));
      TrailBeats(group, e, |group|, l);
    }
  }

  /** What one pass keeps, by how many records it is. */
  ghost predicate Shaped(h: seq<Record>) {
    || |h| == 1
    || (|h| == 2 && (Trailing(h[0], h[1]) || (CarriesModel(h[0]) && (CarriesModel(h[1]) ==> NotOlder(h[0], h[1])))))
    || (|h| == 3 && (TrailThenDonor(h[0], h[1], h[2]) || TrailThenLatest(h[0], h[1], h[2])))
    || (|h| == 4 && AllFour(h[0], h[1], h[2], h[3]))
  }

  lemma ShapedTwo(x: Record, e: Record)
    requires Trailing(x, e) || (CarriesModel(x) && (CarriesModel(e) ==> NotOlder(x, e)))
    ensures Shaped([x, e])
  {
  }

  lemma ShapedThree(x: Record, y: Record, e: Record)
    requires TrailThenDonor(x, y, e) || TrailThenLatest(x, y, e)
    ensures Shaped([x, y, e])
  {
  }

  lemma ShapedFour(t: Record, l: Record, d: Record, e: Record)
    requires AllFour(t, l, d, e)
    ensures Shaped([t, l, d, e])
  {
  }

  lemma ShapeWithLatest(time: Times, group: seq<Record>)
    requires group != [] && WellTimed(time, group) && PlanOf(time, group).latest.Some?
    ensures Shaped(Sub(time, group))
  {
    var plan, e := PlanOf(time, group), EffIndex(time, group);
    LatestIsApart(time, group);
    PlanIsGood(time, group);
    var t, l := plan.trail.value, plan.latest.value;
    BehindLatest(time, group, t);
    if Trailing(group[l], group[e]) { BehindTrail(time, group, l); }
    if CarriesModel(group[l]) { BehindDonor(time, group, l); }
    if plan.donor.Some? {
      var d := plan.donor.value;
      BehindLatest(time, group, d);
      if Trailing(group[d], group[e]) { BehindTrail(time, group, d); }
      if CarriesModel(group[t]) { BehindDonor(time, group, t); }
      assert plan.Kept() == [t, l, d];
      ShapedFour(group[t], group[l], group[d], group[e]);
      SubIs(time, group, [t, l, d], [group[t], group[l], group[d], group[e]]);
    } else {
      assert plan.Kept() == [t, l];
      ShapedThree(group[t], group[l], group[e]);
      SubIs(time, group, [t, l], [group[t], group[l], group[e]]);
    }
  }

  lemma ShapeWithoutLatest(time: Times, group: seq<Record>)
    requires group != [] && PlanOf(time, group).latest.None?
    ensures Shaped(Sub(time, group))
  {
    match PlanOf(time, group)
    case Plan(Some(t), _, Some(d)) => ShapeOfBoth(time, group, t, d);
    case Plan(None, _, Some(d)) => ShapeOfDonor(time, group, d);
    case Plan(Some(t), _, None) => ShapeOfTrail(time, group, t);
    case Plan(None, _, None) => SubIs(time, group, [], [group[EffIndex(time, group)]]);
  }

  lemma ShapeOfDonor(time: Times, group: seq<Record>, d: nat)
    requires group != [] && PlanOf(time, group) == Plan(None, None, Some(d))
    ensures Shaped(Sub(time, group))
  {
    var e := EffIndex(time, group);
    if CarriesModel(group[e]) { BehindDonor(time, group, e); }
    ShapedTwo(group[d], group[e]);
    SubIs(time, group, [d], [group[d], group[e]]);
  }

  lemma ShapeOfTrail(time: Times, group: seq<Record>, t: nat)
    requires group != [] && PlanOf(time, group) == Plan(Some(t), None, None)
    ensures Shaped(Sub(time, group))
  {
    var e := EffIndex(time, group);
    ShapedTwo(group[t], group[e]);
    SubIs(time, group, [t], [group[t], group[e]]);
  }

  lemma ShapeOfBoth(time: Times, group: seq<Record>, t: nat, d: nat)
    requires group != [] && PlanOf(time, group) == Plan(Some(t), None, Some(d))
    ensures Shaped(Sub(time, group))
  {
    var e := EffIndex(time, group);
    if CarriesModel(group[e]) { BehindDonor(time, group, e); }
    if Trailing(group[d], group[e]) { BehindTrail(time, group, d); }
    if CarriesModel(group[t]) { BehindDonor(time, group, t); }
    ShapedThree(group[t], group[d], group[e]);
    SubIs(time, group, [t, d], [group[t], group[d], group[e]]);
  }

  // ---------------------------------------------------------- the earliest timestamp

  /** All but the effective record. */
  function Heads(h: seq<Record>): seq<Record>
    requires h != []
  {
    h[..|h| - 1]
  }

  /** Dropping records from `h` to `k` moves the earliest timestamp only to a later instant. */
  ghost predicate Steady(time: Times, h: seq<Record>, k: seq<Record>)
    requires h != [] && k != []
  {
    |k| == 1 ||
    (|h| > 1 &&
     var a, b := EarliestStamp(time, Heads(h)), EarliestStamp(time, Heads(k));
     a == b || (time(a).Some? && time(b).Some? && time(a).value < time(b).value))
  }

  function Earlier2(time: Times, x: Record, y: Record): string { EarlierTimestamp(time, x.timestamp, y.timestamp) }

  lemma EarliestOfOne(time: Times, x: Record)
    ensures EarliestStamp(time, [x]) == x.timestamp
  {
    assert Map(Bare, [x]) == [Bare(x)] && [Bare(x)][..0] == [];
    assert FirstSeen(time, []) == "";
  }

  lemma EarliestSnoc(time: Times, rs: seq<Record>, x: Record)
    requires EarliestStamp(time, rs) != "" && x.timestamp != ""
    ensures EarliestStamp(time, rs + [x]) == EarlierTimestamp(time, EarliestStamp(time, rs), x.timestamp)
  {
    assert Map(Bare, rs + [x]) == Map(Bare, rs) + [Bare(x)];
    assert (Map(Bare, rs) + [Bare(x)])[..|rs|] == Map(Bare, rs);
  }

  lemma EarliestOfTwo(time: Times, x: Record, y: Record)
    requires x.timestamp != "" && y.timestamp != ""
    ensures EarliestStamp(time, [x, y]) == Earlier2(time, x, y)
  {
    EarliestOfOne(time, x);
    assert [x] + [y] == [x, y];
    EarliestSnoc(time, [x], y);
  }

  lemma EarliestOfThree(time: Times, x: Record, y: Record, z: Record)
    requires x.timestamp != "" && y.timestamp != "" && z.timestamp != ""
    ensures EarliestStamp(time, [x, y, z]) == EarlierTimestamp(time, Earlier2(time, x, y), z.timestamp)
  {
    EarliestOfTwo(time, x, y);
    assert [x, y] + [z] == [x, y, z];
    EarliestSnoc(time, [x, y], z);
  }

  /** Of a rationale and an attributed close, either one alone is as early as both or later. */
  lemma SteadyOfTwo(time: Times, t: Record, d: Record, e: Record, x: Record)
    requires WellTimed(time, [t, d, e]) && (x == t || (x == d && t.timestamp == d.timestamp))
    ensures Steady(time, [t, d, e], [x, e])
  {
    assert time([t, d, e][0].timestamp).Some? && time([t, d, e][1].timestamp).Some?;
    assert Heads([t, d, e]) == [t, d] && Heads([x, e]) == [x];
    EarliestOfTwo(time, t, d);
    EarliestOfOne(time, x);
  }

  lemma SteadyOfThree(time: Times, t: Record, l: Record, d: Record, e: Record, x: Record, y: Record)
    requires WellTimed(time, [t, l, d, e])
    requires (x == d && y == l && t.timestamp == d.timestamp) || (x == t && y == d && l.timestamp == d.timestamp)
    ensures Steady(time, [t, l, d, e], [x, y, e])
  {
    var h := [t, l, d, e];
    assert time(h[0].timestamp).Some? && time(h[1].timestamp).Some? && time(h[2].timestamp).Some?;
    assert Heads(h) == [t, l, d] && Heads([x, y, e]) == [x, y];
    EarliestOfThree(time, t, l, d);
    EarliestOfTwo(time, x, y);
  }

  // ------------------------------------------------------- the second pass settles

  /** What stands before a pass stands after it. */
  lemma StandsStays(time: Times, h: seq<Record>)
    requires h != [] && Stands(time, h)
    ensures Sub(time, h) == h && Steady(time, h, h)
  {
    SubIs(time, h, PlanOf(time, h).Kept(), h);
  }

  lemma SettlesToAlone(time: Times, x: Record, e: Record)
    requires WellTimed(time, [x, e]) && EffIndex(time, [x, e]) == 1 && PlanOf(time, [x, e]).Kept() == []
    ensures Stands(time, Sub(time, [x, e])) && Steady(time, [x, e], Sub(time, [x, e]))
  {
    SubIsWellTimed(time, [x, e]);
    SubIs(time, [x, e], [], [e]);
    PlanOfAlone(time, e);
  }

  lemma SettlesTwo(time: Times, x: Record, e: Record)
    requires WellTimed(time, [x, e]) && EffIndex(time, [x, e]) == 1
    requires Trailing(x, e) || (CarriesModel(x) && (CarriesModel(e) ==> NotOlder(x, e)))
    ensures Stands(time, Sub(time, [x, e])) && Steady(time, [x, e], Sub(time, [x, e]))
  {
    if Trailing(x, e) {
      PlanOfTrail(time, x, e);
      StandsStays(time, [x, e]);
    } else {
      PlanOfDonor(time, x, e);
      if CarriesModel(e) && x.timestamp == e.timestamp { SettlesToAlone(time, x, e); } else { StandsStays(time, [x, e]); }
    }
  }

  lemma SettlesToOne(time: Times, h: seq<Record>, k: nat)
    requires h != [] && WellTimed(time, h) && k < |h| - 1 && EffIndex(time, h) == |h| - 1
    requires PlanOf(time, h).Kept() == [k] && Trailing(h[k], h[|h| - 1])
    ensures Sub(time, h) == [h[k], h[|h| - 1]] && Stands(time, Sub(time, h))
  {
    SubIsWellTimed(time, h);
    SubIs(time, h, [k], [h[k], h[|h| - 1]]);
    PlanOfTrail(time, h[k], h[|h| - 1]);
  }

  lemma SettlesTD(time: Times, t: Record, d: Record, e: Record)
    requires WellTimed(time, [t, d, e]) && TrailThenDonor(t, d, e) && EffIndex(time, [t, d, e]) == 2
    ensures Stands(time, Sub(time, [t, d, e])) && Steady(time, [t, d, e], Sub(time, [t, d, e]))
  {
    var h := [t, d, e];
    PlanOfTD(time, t, d, e);
    if Trailing(d, e) && TiesRank(t, d) {
      SettlesToOne(time, h, 1);
      SteadyOfTwo(time, t, d, e, d);
    } else if CarriesModel(e) && d.timestamp == e.timestamp {
      SettlesToOne(time, h, 0);
      SteadyOfTwo(time, t, d, e, t);
    } else {
      StandsStays(time, h);
    }
  }

  lemma SettlesTL(time: Times, t: Record, l: Record, e: Record)
    requires TrailThenLatest(t, l, e) && EffIndex(time, [t, l, e]) == 2
    ensures Stands(time, Sub(time, [t, l, e])) && Steady(time, [t, l, e], Sub(time, [t, l, e]))
  {
    PlanOfTL(time, t, l, e);
    StandsStays(time, [t, l, e]);
  }

  /** The attributed close takes the rationale's place, in front of the latest close. */
  lemma SettlesToDL(time: Times, t: Record, l: Record, d: Record, e: Record)
    requires WellTimed(time, [t, l, d, e]) && AllFour(t, l, d, e) && EffIndex(time, [t, l, d, e]) == 3
    requires Trailing(d, e) && TiesRank(t, d) && PlanOf(time, [t, l, d, e]).Kept() == [2, 1]
    ensures Stands(time, Sub(time, [t, l, d, e])) && Steady(time, [t, l, d, e], Sub(time, [t, l, d, e]))
  {
    var h := [t, l, d, e];
    SubIsWellTimed(time, h);
    SubIs(time, h, [2, 1], [d, l, e]);
    DonorBeforeLatest(time, t, l, d, e);
    SteadyOfThree(time, t, l, d, e, d, l);
    PlanOfTL(time, d, l, e);
  }

  lemma DonorBeforeLatest(time: Times, t: Record, l: Record, d: Record, e: Record)
    requires AllFour(t, l, d, e) && Trailing(d, e) && TiesRank(t, d)
    ensures TrailThenLatest(d, l, e)
  {
    TiedDisplaces(time, t, d);
  }

  /** The latest close gives way to the attributed close it equals. */
  lemma SettlesToTD(time: Times, t: Record, l: Record, d: Record, e: Record)
    requires WellTimed(time, [t, l, d, e]) && AllFour(t, l, d, e) && EffIndex(time, [t, l, d, e]) == 3
    requires !(Trailing(d, e) && TiesRank(t, d)) && EntryOf(l) == EntryOf(d) && PlanOf(time, [t, l, d, e]).Kept() == [0, 2]
    ensures Stands(time, Sub(time, [t, l, d, e])) && Steady(time, [t, l, d, e], Sub(time, [t, l, d, e]))
  {
    var h := [t, l, d, e];
    SubIsWellTimed(time, h);
    SubIs(time, h, [0, 2], [t, d, e]);
    SteadyOfThree(time, t, l, d, e, t, d);
    PlanOfTD(time, t, d, e);
  }

  lemma SettlesFour(time: Times, t: Record, l: Record, d: Record, e: Record)
    requires WellTimed(time, [t, l, d, e]) && AllFour(t, l, d, e) && EffIndex(time, [t, l, d, e]) == 3
    ensures Stands(time, Sub(time, [t, l, d, e])) && Steady(time, [t, l, d, e], Sub(time, [t, l, d, e]))
  {
    PlanOfFour(time, t, l, d, e);
    if Trailing(d, e) && TiesRank(t, d) {
      SettlesToDL(time, t, l, d, e);
    } else if EntryOf(l) == EntryOf(d) {
      SettlesToTD(time, t, l, d, e);
    } else {
      StandsStays(time, [t, l, d, e]);
    }
  }

  lemma ShapedSettles(time: Times, h: seq<Record>)
    requires h != [] && WellTimed(time, h) && Shaped(h) && EffIndex(time, h) == |h| - 1
    ensures Stands(time, Sub(time, h)) && Steady(time, h, Sub(time, h))
  {
    if |h| == 1 {
      assert h == [h[0]];
      PlanOfAlone(time, h[0]);
      StandsStays(time, h);
    } else if |h| == 2 {
      assert h == [h[0], h[1]];
      SettlesTwo(time, h[0], h[1]);
    } else if |h| == 3 {
      assert h == [h[0], h[1], h[2]];
      if TrailThenDonor(h[0], h[1], h[2]) { SettlesTD(time, h[0], h[1], h[2]); } else { SettlesTL(time, h[0], h[1], h[2]); }
    } else {
      assert h == [h[0], h[1], h[2], h[3]];
      SettlesFour(time, h[0], h[1], h[2], h[3]);
    }
  }

  /** After a second pass nothing more is dropped or moved. */
  lemma SecondPassStands(time: Times, group: seq<Record>)
    requires group != [] && WellTimed(time, group)
    ensures var h := Sub(time, group); h != [] && Stands(time, Sub(time, h)) && Steady(time, h, Sub(time, h))
  {
    var h := Sub(time, group);
    SubIsWellTimed(time, group);
    if PlanOf(time, group).latest.Some? { ShapeWithLatest(time, group); } else { ShapeWithoutLatest(time, group); }
    ShapedSettles(time, h);
  }

  // ---------------------------------------------------------------- the fixed point

  lemma FirstSeenOfRetained(time: Times, group: seq<Record>)
    requires group != [] && WellTimed(time, group) && time(FirstSeen(time, group)).Some?
    ensures var first, h := FirstSeen(time, group), Sub(time, group);
            FirstSeen(time, Retained(time, group)) ==
              if |h| == 1 then first else EarlierTimestamp(time, EarliestStamp(time, Heads(h)), first)
  {
    var eff, kept := Folded(time, group), PlanOf(time, group).Kept();
    RetainedSplits(time, group);
    FoldedFields(time, group);
    PlanIsGood(time, group);
    FirstSeenOfKept(time, group, EffIndex(time, group), kept, eff, FirstSeen(time, group));
    assert Heads(Sub(time, group)) == Superseded(group, kept);
  }

  lemma EarliestParses(time: Times, rs: seq<Record>)
    requires rs != [] && WellTimed(time, rs)
    ensures time(EarliestStamp(time, rs)).Some?
  {
    var bare := Map(Bare, rs);
    forall i | 0 <= i < |bare| ensures time(SeenAt(bare[i])).Some? { assert SeenAt(bare[i]) == rs[i].timestamp; }
    FirstSeenIsEarliest(time, bare);
  }

  lemma FirstSeenSnoc(time: Times, rest: seq<Record>, eff: Record)
    requires eff.firstSeen != ""
    ensures FirstSeen(time, rest + [eff]) ==
            if FirstSeen(time, rest) == "" then eff.firstSeen else EarlierTimestamp(time, FirstSeen(time, rest), eff.firstSeen)
  {
    assert (rest + [eff])[..|rest|] == rest;
  }

  lemma FirstSeenOfStripped(time: Times, group: seq<Record>, kept: seq<nat>, eff: Record)
    requires forall i :: 0 <= i < |kept| ==> kept[i] < |group|
    ensures FirstSeen(time, StrippedAll(eff, group, kept)) == EarliestStamp(time, Superseded(group, kept))
  {
    FirstSeenOfStamps(time, StrippedAll(eff, group, kept), Map(Bare, Superseded(group, kept)));
  }

  lemma FirstSeenOfKept(time: Times, group: seq<Record>, e: nat, kept: seq<nat>, eff: Record, first: string)
    requires WellTimed(time, group) && GoodKept(group, e, kept) && eff.firstSeen == first && time(first).Some?
    ensures FirstSeen(time, StrippedAll(eff, group, kept) + [eff]) ==
            if kept == [] then first else EarlierTimestamp(time, EarliestStamp(time, Superseded(group, kept)), first)
  {
    FirstSeenSnoc(time, StrippedAll(eff, group, kept), eff);
    FirstSeenOfStripped(time, group, kept, eff);
    if kept != [] { EarliestParses(time, Superseded(group, kept)); }
  }

  lemma EarliestOfTwins(time: Times, a: seq<Record>, b: seq<Record>)
    requires AllTwins(a, b)
    ensures EarliestStamp(time, a) == EarliestStamp(time, b)
  {
    FirstSeenOfStamps(time, Map(Bare, a), Map(Bare, b));
  }

  /** From the second pass on the first sighting keeps its very text. */
  lemma FirstSeenSettles(time: Times, first: string, a: string, b: string)
    requires time(first).Some? && time(a).Some? && time(b).Some? && (a == b || time(a).value < time(b).value)
    ensures EarlierTimestamp(time, b, EarlierTimestamp(time, a, first)) == EarlierTimestamp(time, a, first)
  {
  }

  /** Texts parse, first sightings included. */
  ghost predicate Parses(time: Times, group: seq<Record>) { WellTimed(time, group) && AllSeen(time, group) }

  lemma RetainedParses(time: Times, group: seq<Record>)
    requires group != [] && Parses(time, group)
    ensures Retained(time, group) != [] && Parses(time, Retained(time, group))
    ensures time(FirstSeen(time, group)).Some?
  {
    FirstSeenIsEarliest(time, group);
    RetainedSplits(time, group);
    FoldedFields(time, group);
    PlanIsGood(time, group);
    ParsesOf(time, group, EffIndex(time, group), PlanOf(time, group).Kept(), Folded(time, group));
  }

  lemma ParsesOf(time: Times, group: seq<Record>, e: nat, kept: seq<nat>, eff: Record)
    requires Parses(time, group) && GoodKept(group, e, kept) && e < |group|
    requires eff.timestamp == group[e].timestamp && time(eff.firstSeen).Some?
    ensures Parses(time, StrippedAll(eff, group, kept) + [eff])
  {
    var after := StrippedAll(eff, group, kept) + [eff];
    forall i | 0 <= i < |after| ensures time(after[i].timestamp).Some? && time(SeenAt(after[i])).Some? {
      if i < |kept| { assert SeenAt(after[i]) == group[kept[i]].timestamp; } else { assert after[i] == eff; }
    }
  }

  /** The earliest timestamps kept by the first and by the second pass. */
  lemma EarliestOfPasses(time: Times, s: seq<Record>, k: seq<Record>)
    requires s != [] && k != [] && WellTimed(time, s) && WellTimed(time, k) && Steady(time, s, k) && |k| > 1
    ensures |s| > 1
    ensures var a, b := EarliestStamp(time, Heads(s)), EarliestStamp(time, Heads(k));
            time(a).Some? && time(b).Some? && (a == b || time(a).value < time(b).value)
  {
    EarliestParses(time, Heads(s));
    EarliestParses(time, Heads(k));
  }

  lemma HeadsOfTwins(time: Times, a: seq<Record>, b: seq<Record>)
    requires AllTwins(a, b) && a != []
    ensures EarliestStamp(time, Heads(a)) == EarliestStamp(time, Heads(b))
  {
    EarliestOfTwins(time, Heads(a), Heads(b));
  }

  lemma FirstSeenIsKept(time: Times, group: seq<Record>)
    requires group != [] && Parses(time, group)
    ensures var h := Retained(time, group); FirstSeen(time, Retained(time, h)) == FirstSeen(time, h)
  {
    var h, s := Retained(time, group), Sub(time, group);
    RetainedParses(time, group);
    RetainedParses(time, h);
    FirstSeenOfRetained(time, group);
    FirstSeenOfRetained(time, h);
    SecondPassTwins(time, group);
    var k := Sub(time, s);
    if |k| > 1 {
      HeadsOfTwins(time, Sub(time, h), k);
      EarliestOfPasses(time, s, k);
      FirstSeenSettles(time, FirstSeen(time, group), EarliestStamp(time, Heads(s)), EarliestStamp(time, Heads(k)));
    }
  }

  /** What the second pass keeps, read off the first pass's records as they stood. */
  lemma SecondPassTwins(time: Times, group: seq<Record>)
    requires group != [] && WellTimed(time, group)
    ensures var h, s := Retained(time, group), Sub(time, group);
            && h != [] && s != [] && Sub(time, s) != [] && AllTwins(Sub(time, h), Sub(time, s))
            && WellTimed(time, s) && WellTimed(time, Sub(time, s)) && Steady(time, s, Sub(time, s)) && Stands(time, Sub(time, s))
  {
    RetainedTwinsSub(time, group);
    SubOfTwins(time, Retained(time, group), Sub(time, group));
    SecondPassStands(time, group);
    SubIsWellTimed(time, group);
    SubIsWellTimed(time, Sub(time, group));
  }

  /** The effective record is the same from the second pass on. */
  lemma EffectiveSettles(time: Times, group: seq<Record>)
    requires group != [] && Parses(time, group)
    ensures var h := Retained(time, group); Folded(time, Retained(time, h)) == Folded(time, h)
  {
    var h := Retained(time, group);
    RetainedParses(time, group);
    FirstSeenIsKept(time, group);
    RefoldsTo(time, group);
    RefoldsTo(time, h);
    FoldedFields(time, h);
    FoldedFields(time, group);
    assert time(group[EffIndex(time, group)].timestamp).Some?;
  }

  lemma RefoldsTo(time: Times, group: seq<Record>)
    requires group != [] && WellTimed(time, group)
    ensures Folded(time, Retained(time, group)) == Settled(Folded(time, group)).(firstSeen := FirstSeen(time, Retained(time, group)))
  {
    var kept := PlanOf(time, group).Kept();
    PlanIsGood(time, group);
    RetainedSplits(time, group);
    FoldedIsSame(time, group);
    EffectiveStays(time, group, kept, Folded(time, group));
    EffectiveStaysIff(time, group, kept, Folded(time, group));
    GroupFoldsAlikeIff(time, group, kept);
  }

  /** A group that stands and already bears its own fold is retained as it is. */
  lemma StandingIsFixed(time: Times, before: seq<Record>, kept: seq<nat>, e: nat, k: seq<Record>, eff: Record)
    requires GoodKept(before, e, kept) && k == StrippedAll(eff, before, kept) + [eff]
    requires Stands(time, k) && Folded(time, k) == eff
    ensures Retained(time, k) == k
  {
    RetainedSplits(time, k);
    StripsToItself(before, kept, k, eff, PlanOf(time, k).Kept());
  }

  lemma StripsToItself(before: seq<Record>, kept: seq<nat>, k: seq<Record>, eff: Record, all: seq<nat>)
    requires (forall i :: 0 <= i < |kept| ==> kept[i] < |before|) && k == StrippedAll(eff, before, kept) + [eff]
    requires |all| == |kept| && forall i :: 0 <= i < |all| ==> all[i] == i
    ensures StrippedAll(eff, k, all) + [eff] == k
  {
    var again := StrippedAll(eff, k, all);
    forall i | 0 <= i < |kept| ensures again[i] == k[i] { assert k[i] == Stripped(eff, before[kept[i]]); }
  }

  /**
   Convergence at the second pass: compacting a compacted finding's compaction changes
   nothing, for every history whose texts parse.
   */
  lemma RetainedSettles(time: Times, group: seq<Record>)
    requires group != [] && Parses(time, group)
    ensures var twice := Retained(time, Retained(time, group)); Retained(time, twice) == twice
  {
    var h := Retained(time, group);
    var k := Retained(time, h);
    RetainedParses(time, group);
    RetainedParses(time, h);
    RetainedTwinsSub(time, h);
    SecondPassTwins(time, group);
    var s := Sub(time, Sub(time, group));
    TwinsTwice(k, Sub(time, h), s);
    PlanOfTwins(time, k, s);
    EffectiveSettles(time, group);
    RetainedSplits(time, h);
    PlanIsGood(time, h);
    StandingIsFixed(time, h, PlanOf(time, h).Kept(), EffIndex(time, h), k, Folded(time, h));
  }

  lemma TwinsTwice(a: seq<Record>, b: seq<Record>, c: seq<Record>)
    requires AllTwins(a, b) && AllTwins(b, c)
    ensures AllTwins(a, c)
  {
    forall i | 0 <= i < |a| ensures Twins(a[i], c[i]) { assert Twins(a[i], b[i]) && Twins(b[i], c[i]); }
  }

  // -------------------------------------------------------------- the whole store

  ghost predicate StoreParses(time: Times, recs: seq<Record>) {
    forall id :: id in Ids(RECORDS, recs) ==> Parses(time, GroupOf(RECORDS, recs, id))
  }

  lemma {:induction false} RetainSame(time: Times, a: seq<Record>, b: seq<Record>, ids: seq<string>)
    requires forall id :: id in ids ==> Retained(time, GroupOf(RECORDS, a, id)) == Retained(time, GroupOf(RECORDS, b, id))
    ensures RetainIds(time, a, ids) == RetainIds(time, b, ids)
  {
    if ids != [] { RetainSame(time, a, b, ids[..|ids| - 1]); }
  }

  lemma GroupAfter(time: Times, recs: seq<Record>, id: string)
    ensures Ids(RECORDS, Retain(time, recs)) == Ids(RECORDS, recs)
    ensures id in Ids(RECORDS, recs) ==> GroupOf(RECORDS, Retain(time, recs), id) == Retained(time, GroupOf(RECORDS, recs, id))
  {
    IdsFacts(RECORDS, recs);
    RetainedGroups(time, recs, Ids(RECORDS, recs), id);
  }

  lemma ThirdPassIsSecond(time: Times, recs: seq<Record>)
    requires StoreParses(time, recs)
    ensures var once := Retain(time, recs); Retain(time, Retain(time, once)) == Retain(time, once)
  {
    var once, ids := Retain(time, recs), Ids(RECORDS, recs);
    var twice := Retain(time, once);
    GroupAfter(time, recs, "");
    GroupAfter(time, once, "");
    forall id | id in ids ensures Retained(time, GroupOf(RECORDS, twice, id)) == Retained(time, GroupOf(RECORDS, once, id)) {
      GroupAfter(time, recs, id);
      GroupAfter(time, once, id);
      GroupMembers(RECORDS, recs, id);
      RetainedSettles(time, GroupOf(RECORDS, recs, id));
    }
    RetainSame(time, twice, once, ids);
  }

  /** However often it is compacted after the second time, the store stays as it is. */
  lemma {:induction false} CompactionConverges(time: Times, recs: seq<Record>, n: nat)
    requires StoreParses(time, recs) && n >= 2
    ensures Compacted(time, recs, n) == Compacted(time, recs, 2)
  {
    if n > 2 {
      CompactionConverges(time, recs, n - 1);
      assert Compacted(time, recs, 0) == recs && Compacted(time, recs, 1) == Retain(time, recs);
      ThirdPassIsSecond(time, recs);
    }
  }

  // --------------------------------------------------- the first pass does not settle

  lemma TwinFixesPlan(time: Times, d: Record, t: Record, e: Record)
    requires d.status == t.status == Marked(Resolved) && d.timestamp == t.timestamp && d.model != "" && t.model == ""
    requires e.status == Unset && EffIndex(time, [d, t, e]) == 2
    ensures Sub(time, [d, t, e]) == [t, d, e]
  {
    var group := [d, t, e];
    StringLessIrreflexive(d.timestamp);
    assert BestTrail(group, 2, 1) == Some(0) && BestTrail(group, 2, 2) == Some(1) && BestTrail(group, 2, 3) == Some(1);
    assert Donor(group, 1) == Some(0) && Donor(group, 2) == Some(0) && Donor(group, 3) == Some(0);
    LatestOfTwo(time, d, t, e);
    SubIs(time, group, [1, 0], [t, d, e]);
  }

  lemma TwinFixesShrink(time: Times, group: seq<Record>, t: Record, d: Record, e: Record)
    requires group != [] && WellTimed(time, group) && Sub(time, group) == [t, d, e]
    requires TrailThenDonor(t, d, e) && Trailing(d, e) && TiesRank(t, d)
    ensures |Retained(time, group)| == 3 && |Retained(time, Retained(time, group))| == 2
  {
    SubIsWellTimed(time, group);
    PlanOfTD(time, t, d, e);
    RetainedTwinsSub(time, group);
    PlanOfTwins(time, Retained(time, group), [t, d, e]);
    RetainedSplits(time, Retained(time, group));
  }

  /**
   A fix by a model, then the same second the same outcome with no model, then a new
   sighting: the first pass keeps both closes, the second only one.
   */
  lemma SecondPassShrinks(time: Times, a: string, b: string, m: string)
    requires Earlier(time, a, b) && time("").None? && m != ""
    ensures var group := [Note(Marked(Resolved), a, m), Note(Marked(Resolved), a, ""), Note(Unset, b, "")];
            |Retained(time, group)| == 3 && |Retained(time, Retained(time, group))| == 2
  {
    var d, t, e := Note(Marked(Resolved), a, m), Note(Marked(Resolved), a, ""), Note(Unset, b, "");
    assert [d, t, e] == [d, t] + [e];
    LastWins(time, [d, t], e);
    TwinFixesPlan(time, d, t, e);
    StringLessIrreflexive(a);
    TwinFixesShrink(time, [d, t, e], t, d, e);
  }
}
