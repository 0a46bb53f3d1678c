/**
 Compaction writes what it retains into month shards, so the next read may meet a finding's
 records in another order. Records of one timestamp keep theirs, and that is all the fold
 and the next compaction depend on.
 */
module CompactFiling {
  import opened Basics
  import opened Orders
  import opened DebtFold
  import opened DebtRecord
  import opened DebtCompact
  import opened CompactTwice

  // ------------------------------------------------------------------ filing

  function StampIs(t: string): Record -> bool { (r: Record) => r.timestamp == t }

  /** The same records, those of one timestamp in the same order. */
  ghost predicate Refiled(a: seq<Record>, b: seq<Record>) {
    forall t: string :: Filter(StampIs(t), a) == Filter(StampIs(t), b)
  }

  lemma RefiledMultiset(a: seq<Record>, b: seq<Record>)
    requires Refiled(a, b)
    ensures multiset(a) == multiset(b)
  {
    forall x ensures multiset(a)[x] == multiset(b)[x] {
      FilterMultiset(StampIs(x.timestamp), a, x);
      FilterMultiset(StampIs(x.timestamp), b, x);
      assert Filter(StampIs(x.timestamp), a) == Filter(StampIs(x.timestamp), b);
    }
  }

  lemma RefiledMembers(a: seq<Record>, b: seq<Record>)
    requires Refiled(a, b)
    ensures |a| == |b| && forall x :: x in a <==> x in b
  {
    RefiledMultiset(a, b);
    assert |multiset(a)| == |multiset(b)|;
    forall x ensures x in a <==> x in b { assert x in multiset(a) <==> x in multiset(b); }
  }

  /** Picking out some records of one timestamp gives the same list. */
  lemma PicksAlike(a: seq<Record>, b: seq<Record>, t: string, sel: Record -> bool)
    requires Refiled(a, b) && forall r: Record :: sel(r) ==> r.timestamp == t
    ensures Filter(sel, a) == Filter(sel, b)
  {
    FilterTwice(sel, StampIs(t), sel, a);
    FilterTwice(sel, StampIs(t), sel, b);
    assert Filter(StampIs(t), a) == Filter(StampIs(t), b);
  }

  /** `i` is the last position whose record is selected. */
  ghost predicate LastWith(sel: Record -> bool, s: seq<Record>, i: nat) {
    i < |s| && sel(s[i]) && forall j :: i < j < |s| ==> !sel(s[j])
  }

  lemma {:induction false} LastIsLastPick(sel: Record -> bool, s: seq<Record>, i: nat)
    requires LastWith(sel, s, i)
    ensures Filter(sel, s) != [] && Filter(sel, s)[|Filter(sel, s)| - 1] == s[i]
  {
    var n := |s| - 1;
    assert s == s[..n] + [s[n]];
    FilterSnoc(sel, s[..n], s[n]);
    if i < n { LastIsLastPick(sel, s[..n], i); }
  }

  /** The last selected record is the same, whatever the filing. */
  lemma SameLast(a: seq<Record>, b: seq<Record>, t: string, sel: Record -> bool, i: nat, j: nat)
    requires Refiled(a, b) && (forall r: Record :: sel(r) ==> r.timestamp == t) && LastWith(sel, a, i) && LastWith(sel, b, j)
    ensures a[i] == b[j]
  {
    PicksAlike(a, b, t, sel);
    LastIsLastPick(sel, a, i);
    LastIsLastPick(sel, b, j);
  }

  /** A selection of records of one timestamp. */
  datatype Pick = Pick(stamp: string, sel: Record -> bool) {
    ghost predicate Sound() { forall r: Record :: sel(r) ==> r.timestamp == stamp }
  }

  ghost predicate EndsAt(p: Pick, s: seq<Record>, i: nat) { p.Sound() && LastWith(p.sel, s, i) }

  lemma SameEnd(a: seq<Record>, b: seq<Record>, p: Pick, i: nat, j: nat)
    requires Refiled(a, b) && EndsAt(p, a, i) && EndsAt(p, b, j)
    ensures a[i] == b[j]
  {
    SameLast(a, b, p.stamp, p.sel, i, j);
  }

  /** Two selections end at one position in `a` exactly when they do in `b`. */
  lemma SamePosition(a: seq<Record>, b: seq<Record>, p: Pick, q: Pick, i: nat, j: nat, i': nat, j': nat)
    requires Refiled(a, b) && EndsAt(p, a, i) && EndsAt(q, a, j) && EndsAt(p, b, i') && EndsAt(q, b, j')
    ensures i == j <==> i' == j'
  {
    SameEnd(a, b, p, i, i');
    SameEnd(a, b, q, j, j');
    if i == j { assert q.sel(b[i']) && p.sel(b[j']); }
    if i' == j' { assert q.sel(a[i]) && p.sel(a[j]); }
  }

  // ------------------------------------------------------------- what the scans find

  /** The records that tie with `e` in the scan over those satisfying `p`. */
  function Tied(p: Record -> bool, e: Entry): Pick {
    Pick(e.stamp, (r: Record) => p(r) && r.timestamp == e.stamp && Precedence(r.status) == Precedence(e.status))
  }

  lemma ScanEndsAt(time: Times, p: Record -> bool, s: seq<Record>, i: nat)
    requires WellTimed(time, s) && LatestWhere(Valid(time), EntryOf, p, s) == Some(i)
    ensures EndsAt(Tied(p, EntryOf(s[i])), s, i)
  {
    assert ValidStamps(Valid(time), EntryOf, s);
    LatestIsLastMaximum(Valid(time), EntryOf, p, s);
    StringLessIrreflexive(s[i].timestamp);
  }

  /** Neither of two entries is ahead: same time, same precedence. */
  lemma NeitherAhead(x: Entry, y: Entry)
    requires !Ahead(x, y) && !Ahead(y, x)
    ensures x.stamp == y.stamp && Precedence(x.status) == Precedence(y.status)
  {
    StringLessTotal(x.stamp, y.stamp);
  }

  lemma RefiledTimes(time: Times, a: seq<Record>, b: seq<Record>)
    requires Refiled(a, b) && WellTimed(time, a)
    ensures WellTimed(time, b) && |a| == |b|
  {
    RefiledMembers(a, b);
    forall i | 0 <= i < |b| ensures time(b[i].timestamp).Some? {
      assert b[i] in a;
    }
  }

  /** A scan finds the same record in any filing. */
  lemma SameScan(time: Times, p: Record -> bool, a: seq<Record>, b: seq<Record>)
    requires Refiled(a, b) && WellTimed(time, a)
    ensures var i, j := LatestWhere(Valid(time), EntryOf, p, a), LatestWhere(Valid(time), EntryOf, p, b);
            && (i.Some? <==> j.Some?)
            && (i.Some? ==> a[i.value] == b[j.value])
            && (i.Some? ==> EndsAt(Tied(p, EntryOf(a[i.value])), a, i.value) && EndsAt(Tied(p, EntryOf(a[i.value])), b, j.value))
  {
    var i, j := LatestWhere(Valid(time), EntryOf, p, a), LatestWhere(Valid(time), EntryOf, p, b);
    RefiledMembers(a, b);
    RefiledTimes(time, a, b);
    LatestFinds(Valid(time), EntryOf, p, a);
    LatestFinds(Valid(time), EntryOf, p, b);
    if i.Some? { assert a[i.value] in b; }
    if j.Some? { assert b[j.value] in a; }
    if i.Some? && j.Some? {
      ScanEndsAt(time, p, a, i.value);
      ScanEndsAt(time, p, b, j.value);
      WinnersTie(time, p, a, b, i.value, j.value);
      assert Tied(p, EntryOf(a[i.value])).stamp == Tied(p, EntryOf(b[j.value])).stamp;
      SameTied(p, EntryOf(a[i.value]), EntryOf(b[j.value]), b, j.value);
      SameEnd(a, b, Tied(p, EntryOf(a[i.value])), i.value, j.value);
    }
  }

  lemma SameTied(p: Record -> bool, x: Entry, y: Entry, s: seq<Record>, i: nat)
    requires x.stamp == y.stamp && Precedence(x.status) == Precedence(y.status) && EndsAt(Tied(p, y), s, i)
    ensures EndsAt(Tied(p, x), s, i)
  {
    forall j | i < j < |s| ensures !Tied(p, x).sel(s[j]) { assert !Tied(p, y).sel(s[j]); }
  }

  lemma WinnersTie(time: Times, p: Record -> bool, a: seq<Record>, b: seq<Record>, i: nat, j: nat)
    requires Refiled(a, b) && WellTimed(time, a) && WellTimed(time, b)
    requires LatestWhere(Valid(time), EntryOf, p, a) == Some(i) && LatestWhere(Valid(time), EntryOf, p, b) == Some(j)
    ensures a[i].timestamp == b[j].timestamp && Precedence(a[i].status) == Precedence(b[j].status)
  {
    RefiledMembers(a, b);
    assert ValidStamps(Valid(time), EntryOf, a) && ValidStamps(Valid(time), EntryOf, b);
    LatestIsLastMaximum(Valid(time), EntryOf, p, a);
    LatestIsLastMaximum(Valid(time), EntryOf, p, b);
    assert a[i] in b && b[j] in a;
    var i' :| 0 <= i' < |b| && b[i'] == a[i];
    var j' :| 0 <= j' < |a| && a[j'] == b[j];
    NeitherAhead(EntryOf(a[i]), EntryOf(b[j]));
  }

  /** The effective record, and the selection it ends. */
  lemma SameEffective(time: Times, a: seq<Record>, b: seq<Record>)
    requires Refiled(a, b) && WellTimed(time, a) && a != []
    ensures b != [] && a[EffIndex(time, a)] == b[EffIndex(time, b)]
    ensures var eff := EntryOf(a[EffIndex(time, a)]);
            EndsAt(Tied(Rivals(eff), eff), a, EffIndex(time, a)) && EndsAt(Tied(Rivals(eff), eff), b, EffIndex(time, b))
  {
    RefiledMembers(a, b);
    FoldIndexArms(time, a);
    FoldIndexArms(time, b);
    SameScan(time, SuppressesRecord(), a, b);
    SameScan(time, AnyRecord(), a, b);
    NotSuppressed(time, a);
  }

  lemma NotSuppressed(time: Times, a: seq<Record>)
    requires a != []
    ensures LatestWhere(Valid(time), EntryOf, SuppressesRecord(), a).Some? <==> IsSuppressing(a[EffIndex(time, a)].status)
  {
    FoldIndexArms(time, a);
    LatestFinds(Valid(time), EntryOf, SuppressesRecord(), a);
    assert SuppressesRecord()(a[EffIndex(time, a)]) <==> IsSuppressing(a[EffIndex(time, a)].status);
  }

  // ----------------------------------------------------------------- trail and donor

  lemma TrailingIsTrail(group: seq<Record>, e: nat, i: nat)
    requires e < |group| && i < |group|
    ensures IsTrail(group, e, i) <==> Trailing(group[i], group[e])
  {
  }

  function TopTrail(eff: Record, best: Record): Pick {
    Pick(best.timestamp, (r: Record) => Trailing(r, eff) && TiesRank(r, best))
  }

  lemma TrailEndsAt(group: seq<Record>, e: nat)
    requires e < |group| && BestTrail(group, e, |group|).Some?
    ensures var b := BestTrail(group, e, |group|).value; EndsAt(TopTrail(group[e], group[b]), group, b)
  {
    var b := BestTrail(group, e, |group|).value;
    TrailingIsTrail(group, e, b);
    forall j | b < j < |group| ensures !TopTrail(group[e], group[b]).sel(group[j]) {
      if TopTrail(group[e], group[b]).sel(group[j]) {
        TrailingIsTrail(group, e, j);
        TrailBeats(group, e, |group|, j);
      }
    }
  }

  lemma AtLeastBoth(x: Record, y: Record)
    requires AtLeast(x, y) && AtLeast(y, x)
    ensures TiesRank(x, y)
  {
    StringLessTotal(x.timestamp, y.timestamp);
  }

  lemma SomeTrail(group: seq<Record>, e: nat, x: Record)
    requires e < |group| && x in group && Trailing(x, group[e])
    ensures BestTrail(group, e, |group|).Some? && AtLeast(group[BestTrail(group, e, |group|).value], x)
  {
    var i :| 0 <= i < |group| && group[i] == x;
    TrailingIsTrail(group, e, i);
    TrailBeats(group, e, |group|, i);
  }

  lemma SameTrail(a: seq<Record>, b: seq<Record>, e: nat, e': nat)
    requires Refiled(a, b) && e < |a| && e' < |b| && a[e] == b[e']
    ensures var i, j := BestTrail(a, e, |a|), BestTrail(b, e', |b|);
            && (i.Some? <==> j.Some?)
            && (i.Some? ==> a[i.value] == b[j.value] && EndsAt(TopTrail(a[e], a[i.value]), a, i.value) && EndsAt(TopTrail(a[e], a[i.value]), b, j.value))
  {
    var i, j := BestTrail(a, e, |a|), BestTrail(b, e', |b|);
    RefiledMembers(a, b);
    if i.Some? {
      TrailingIsTrail(a, e, i.value);
      assert a[i.value] in b;
      SomeTrail(b, e', a[i.value]);
    }
    if j.Some? {
      TrailingIsTrail(b, e', j.value);
      assert b[j.value] in a;
      SomeTrail(a, e, b[j.value]);
    }
    if i.Some? && j.Some? {
      AtLeastBoth(a[i.value], b[j.value]);
      TrailEndsAt(a, e);
      TrailEndsAt(b, e');
      SameTop(a[e], a[i.value], b[j.value], b, j.value);
      SameEnd(a, b, TopTrail(a[e], a[i.value]), i.value, j.value);
    }
  }

  lemma SameTop(eff: Record, x: Record, y: Record, s: seq<Record>, i: nat)
    requires TiesRank(x, y) && EndsAt(TopTrail(eff, y), s, i)
    ensures EndsAt(TopTrail(eff, x), s, i)
  {
    forall j | i < j < |s| ensures !TopTrail(eff, x).sel(s[j]) { assert !TopTrail(eff, y).sel(s[j]); }
  }

  function Carriers(t: string): Pick { Pick(t, (r: Record) => CarriesModel(r) && r.timestamp == t) }

  lemma DonorEndsAt(group: seq<Record>)
    requires Donor(group, |group|).Some?
    ensures var d := Donor(group, |group|).value; EndsAt(Carriers(group[d].timestamp), group, d)
  {
    var d := Donor(group, |group|).value;
    StringLessIrreflexive(group[d].timestamp);
    forall j | d < j < |group| ensures !Carriers(group[d].timestamp).sel(group[j]) {
      if CarriesModel(group[j]) { DonorOutlasts(group, |group|, j); }
    }
  }

  lemma SomeDonor(group: seq<Record>, x: Record)
    requires x in group && CarriesModel(x)
    ensures Donor(group, |group|).Some? && NotOlder(group[Donor(group, |group|).value], x)
  {
    var i :| 0 <= i < |group| && group[i] == x;
    DonorOutlasts(group, |group|, i);
  }

  lemma SameDonor(a: seq<Record>, b: seq<Record>)
    requires Refiled(a, b)
    ensures var i, j := Donor(a, |a|), Donor(b, |b|);
            && (i.Some? <==> j.Some?)
            && (i.Some? ==> a[i.value] == b[j.value] && EndsAt(Carriers(a[i.value].timestamp), a, i.value) && EndsAt(Carriers(a[i.value].timestamp), b, j.value))
  {
    var i, j := Donor(a, |a|), Donor(b, |b|);
    RefiledMembers(a, b);
    if i.Some? {
      assert a[i.value] in b;
      SomeDonor(b, a[i.value]);
    }
    if j.Some? {
      assert b[j.value] in a;
      SomeDonor(a, b[j.value]);
    }
    if i.Some? && j.Some? {
      StringLessTotal(a[i.value].timestamp, b[j.value].timestamp);
      DonorEndsAt(a);
      DonorEndsAt(b);
      SameEnd(a, b, Carriers(a[i.value].timestamp), i.value, j.value);
    }
  }

  // ------------------------------------------------------------- the same plan

  ghost predicate SameRecord(a: seq<Record>, b: seq<Record>, i: Option<nat>, j: Option<nat>) {
    && (i.Some? <==> j.Some?)
    && (i.Some? ==> i.value < |a| && j.value < |b| && a[i.value] == b[j.value])
  }

  lemma ArrangeAlike(a: seq<Record>, b: seq<Record>, e: nat, e': nat, t: Option<nat>, t': Option<nat>, c: Option<nat>, c': Option<nat>, l: Option<nat>, l': Option<nat>)
    requires e < |a| && e' < |b| && a[e] == b[e'] && SameRecord(a, b, t, t') && SameRecord(a, b, c, c') && SameRecord(a, b, l, l')
    requires (t == c <==> t' == c') && (c == Some(e) <==> c' == Some(e')) && (l == t <==> l' == t') && (l == c <==> l' == c')
    ensures var x, y := Arrange(a, e, t, c, l), Arrange(b, e', t', c', l');
            SameRecord(a, b, x.trail, y.trail) && SameRecord(a, b, x.latest, y.latest) && SameRecord(a, b, x.donor, y.donor)
  {
  }

  /** Both selections end somewhere, and on one position in `a` iff in `b`. */
  lemma SamePositions(a: seq<Record>, b: seq<Record>, p: Pick, q: Pick, i: Option<nat>, j: Option<nat>, i': Option<nat>, j': Option<nat>)
    requires Refiled(a, b) && (i.Some? <==> i'.Some?) && (j.Some? <==> j'.Some?)
    requires i.Some? ==> EndsAt(p, a, i.value) && EndsAt(p, b, i'.value)
    requires j.Some? ==> EndsAt(q, a, j.value) && EndsAt(q, b, j'.value)
    ensures i == j <==> i' == j'
  {
    if i.Some? && j.Some? { SamePosition(a, b, p, q, i.value, j.value, i'.value, j'.value); }
  }

  lemma SamePlan(time: Times, a: seq<Record>, b: seq<Record>)
    requires Refiled(a, b) && WellTimed(time, a) && a != []
    ensures b != []
    ensures var x, y := PlanOf(time, a), PlanOf(time, b);
            SameRecord(a, b, x.trail, y.trail) && SameRecord(a, b, x.latest, y.latest) && SameRecord(a, b, x.donor, y.donor)
  {
    SameEffective(time, a, b);
    var e, e' := EffIndex(time, a), EffIndex(time, b);
    var eff := EntryOf(a[e]);
    var t, t', c, c' := BestTrail(a, e, |a|), BestTrail(b, e', |b|), Donor(a, |a|), Donor(b, |b|);
    var l, l' := LatestClosed(time, a), LatestClosed(time, b);
    SameTrail(a, b, e, e');
    SameDonor(a, b);
    SameScan(time, Closes(), a, b);
    var trail := TopTrail(a[e], if t.Some? then a[t.value] else a[e]);
    var donor := Carriers(if c.Some? then a[c.value].timestamp else "");
    var latest := Tied(Closes(), if l.Some? then EntryOf(a[l.value]) else eff);
    SamePositions(a, b, trail, donor, t, c, t', c');
    SamePositions(a, b, donor, Tied(Rivals(eff), eff), c, Some(e), c', Some(e'));
    SamePositions(a, b, latest, trail, l, t, l', t');
    SamePositions(a, b, latest, donor, l, c, l', c');
    ArrangeAlike(a, b, e, e', t, t', c, c', l, l');
  }

  lemma SupersededOf(a: seq<Record>, b: seq<Record>, x: Plan, y: Plan)
    requires SameRecord(a, b, x.trail, y.trail) && SameRecord(a, b, x.latest, y.latest) && SameRecord(a, b, x.donor, y.donor)
    ensures |x.Kept()| == |y.Kept()|
    ensures forall i :: 0 <= i < |x.Kept()| ==> x.Kept()[i] < |a| && y.Kept()[i] < |b| && a[x.Kept()[i]] == b[y.Kept()[i]]
  {
  }

  lemma SameSuperseded(a: seq<Record>, b: seq<Record>, k: seq<nat>, k': seq<nat>)
    requires |k| == |k'| && forall i :: 0 <= i < |k| ==> k[i] < |a| && k'[i] < |b| && a[k[i]] == b[k'[i]]
    ensures Superseded(a, k) == Superseded(b, k')
  {
  }

  /** Whatever the filing, compaction retains the same records in the same order. */
  lemma SubIgnoresFiling(time: Times, a: seq<Record>, b: seq<Record>)
    requires Refiled(a, b) && WellTimed(time, a) && a != []
    ensures b != [] && Sub(time, a) == Sub(time, b)
  {
    SamePlan(time, a, b);
    SameEffective(time, a, b);
    var x, y := PlanOf(time, a), PlanOf(time, b);
    SupersededOf(a, b, x, y);
    SameSuperseded(a, b, x.Kept(), y.Kept());
  }

  // ------------------------------------------------------------------ the counters

  ghost predicate FirstWith(sel: Record -> bool, s: seq<Record>, i: nat) {
    i < |s| && sel(s[i]) && forall j :: 0 <= j < i ==> !sel(s[j])
  }

  lemma {:induction false} FirstIsFirstPick(sel: Record -> bool, s: seq<Record>, i: nat)
    requires FirstWith(sel, s, i)
    ensures Filter(sel, s) != [] && Filter(sel, s)[0] == s[i]
  {
    if i > 0 { FirstIsFirstPick(sel, s[1..], i - 1); }
  }

  /** `c` carries at least as much as `r`, and is not older if as much. */
  predicate Outweighs(c: Record, r: Record) {
    c.occurrences > r.occurrences || (c.occurrences == r.occurrences && NotOlder(c, r))
  }

  function Carrying(c: Record): Pick {
    Pick(c.timestamp, (r: Record) => r.occurrences == c.occurrences && r.timestamp == c.timestamp)
  }

  lemma OutweighsStep(x: Record, c: Record, r: Record)
    requires Outweighs(c, r) && !Outweighs(c, x)
    ensures Outweighs(x, r)
  {
    StringLessWeak(c.timestamp, x.timestamp, r.timestamp);
    StringLessWeak(x.timestamp, c.timestamp, x.timestamp);
    if StringLess(c.timestamp, x.timestamp) && StringLess(x.timestamp, r.timestamp) { StringLessTransitive(c.timestamp, x.timestamp, r.timestamp); }
  }

  lemma NotTiedBelow(x: Record, c: Record, r: Record)
    requires Outweighs(c, r) && !Outweighs(c, x)
    ensures !Carrying(x).sel(r)
  {
  }

  /** The first of the newest among the records that carry most. */
  ghost predicate TopCarrier(s: seq<Record>, i: nat) {
    && i < |s| && s[i].occurrences != 0 && FirstWith(Carrying(s[i]).sel, s, i)
    && forall k :: 0 <= k < |s| && s[k].occurrences != 0 ==> Outweighs(s[i], s[k])
  }

  lemma TopCarrierTakes(pre: seq<Record>, x: Record, i: nat)
    requires TopCarrier(pre, i) && x.occurrences != 0 && !Outweighs(pre[i], x)
    ensures TopCarrier(pre + [x], |pre|)
  {
    var s := pre + [x];
    StringLessIrreflexive(x.timestamp);
    forall k | 0 <= k < |pre| ensures !Carrying(x).sel(s[k]) && (s[k].occurrences != 0 ==> Outweighs(x, s[k])) {
      if pre[k].occurrences != 0 {
        OutweighsStep(x, pre[i], pre[k]);
        NotTiedBelow(x, pre[i], pre[k]);
      }
    }
  }

  lemma TopCarrierStays(pre: seq<Record>, x: Record, i: nat)
    requires TopCarrier(pre, i) && (x.occurrences == 0 || Outweighs(pre[i], x))
    ensures TopCarrier(pre + [x], i)
  {
    var s := pre + [x];
    assert forall k :: 0 <= k < |pre| ==> s[k] == pre[k];
  }

  lemma TopCarrierAlone(pre: seq<Record>, x: Record)
    requires x.occurrences != 0 && forall k :: 0 <= k < |pre| ==> pre[k].occurrences == 0
    ensures TopCarrier(pre + [x], |pre|)
  {
    StringLessIrreflexive(x.timestamp);
  }

  lemma {:induction false} CarrierIsFirst(s: seq<Record>) returns (i: nat)
    requires exists k :: 0 <= k < |s| && s[k].occurrences != 0
    ensures TopCarrier(s, i) && Carrier(s) == Some(s[i])
  {
    var n := |s| - 1;
    var pre := s[..n];
    assert s == pre + [s[n]];
    if exists k :: 0 <= k < n && pre[k].occurrences != 0 {
      i := CarrierIsFirst(pre);
      if s[n].occurrences != 0 && !Outweighs(s[i], s[n]) {
        TopCarrierTakes(pre, s[n], i);
        i := n;
      } else {
        TopCarrierStays(pre, s[n], i);
      }
    } else {
      NoCarrier(pre);
      TopCarrierAlone(pre, s[n]);
      i := n;
    }
  }

  lemma SameCarrier(a: seq<Record>, b: seq<Record>)
    requires Refiled(a, b)
    ensures Carrier(a) == Carrier(b)
  {
    RefiledMembers(a, b);
    if k :| 0 <= k < |a| && a[k].occurrences != 0 {
      assert a[k] in b;
      var k' :| 0 <= k' < |b| && b[k'] == a[k];
      var i := CarrierIsFirst(a);
      var j := CarrierIsFirst(b);
      assert a[i] in b && b[j] in a;
      var i' :| 0 <= i' < |b| && b[i'] == a[i];
      var j' :| 0 <= j' < |a| && a[j'] == b[j];
      StringLessTotal(a[i].timestamp, b[j].timestamp);
      assert Outweighs(a[i], a[j']) && Outweighs(b[j], b[i']);
      FirstIsFirstPick(Carrying(a[i]).sel, a, i);
      FirstIsFirstPick(Carrying(b[j]).sel, b, j);
      PicksAlike(a, b, a[i].timestamp, Carrying(a[i]).sel);
      FilterSame(Carrying(a[i]).sel, Carrying(b[j]).sel, b);
    } else {
      NoCarrier(a);
      forall k | 0 <= k < |b| ensures b[k].occurrences == 0 {
        assert b[k] in a;
      }
      NoCarrier(b);
    }
  }

  lemma SameCount(p: Record -> bool, a: seq<Record>, b: seq<Record>)
    requires multiset(a) == multiset(b)
    ensures |Filter(p, a)| == |Filter(p, b)|
  {
    forall x ensures multiset(Filter(p, a))[x] == multiset(Filter(p, b))[x] {
      FilterMultiset(p, a, x);
      FilterMultiset(p, b, x);
    }
    assert multiset(Filter(p, a)) == multiset(Filter(p, b));
    assert |Filter(p, a)| == |multiset(Filter(p, a))| == |multiset(Filter(p, b))| == |Filter(p, b)|;
  }

  /** The counted boundary is the old one or the time of a sighting, and not before the old one. */
  lemma {:induction false} CountedIsOne(boundary: string, group: seq<Record>)
    ensures var c := CountedThrough(boundary, group);
            && !StringLess(c, boundary)
            && (c == boundary || exists i :: 0 <= i < |group| && IsSighting(group[i]) && group[i].timestamp == c)
  {
    StringLessIrreflexive(boundary);
    if group != [] {
      var n := |group| - 1;
      CountedIsOne(boundary, group[..n]);
      var before, c := CountedThrough(boundary, group[..n]), CountedThrough(boundary, group);
      if c == before {
        if c != boundary {
          var i :| 0 <= i < n && IsSighting(group[..n][i]) && group[..n][i].timestamp == c;
          assert group[i] == group[..n][i];
        }
      } else {
        StringLessWeak(before, c, boundary);
        if StringLess(c, boundary) { StringLessTransitive(before, c, boundary); }
      }
    }
  }

  lemma NotCountedPast(boundary: string, a: seq<Record>, b: seq<Record>)
    requires Refiled(a, b)
    ensures !StringLess(CountedThrough(boundary, a), CountedThrough(boundary, b))
  {
    var c := CountedThrough(boundary, b);
    CountedIsOne(boundary, a);
    CountedIsOne(boundary, b);
    RefiledMembers(a, b);
    if c != boundary {
      var i :| 0 <= i < |b| && IsSighting(b[i]) && b[i].timestamp == c;
      assert b[i] in a;
      var j :| 0 <= j < |a| && a[j] == b[i];
      CountedCovers(boundary, a, j);
    }
  }

  lemma SameCounted(boundary: string, a: seq<Record>, b: seq<Record>)
    requires Refiled(a, b)
    ensures CountedThrough(boundary, a) == CountedThrough(boundary, b)
  {
    NotCountedPast(boundary, a, b);
    NotCountedPast(boundary, b, a);
    StringLessTotal(CountedThrough(boundary, a), CountedThrough(boundary, b));
  }

  // --------------------------------------------------------------- the fold

  /** Whatever the filing, the fold is the same record up to how it spells its first sighting. */
  lemma FoldIgnoresFiling(time: Times, a: seq<Record>, b: seq<Record>)
    requires Refiled(a, b) && WellTimed(time, a) && a != []
    ensures Folded(time, b) == Folded(time, a).(firstSeen := FirstSeen(time, b))
  {
    SameEffective(time, a, b);
    RefiledMultiset(a, b);
    SameCarrier(a, b);
    SameOccurrences(a, b);
    SameCounted(Boundary(Carrier(a)), a, b);
    SameScan(time, Annotated(), a, b);
    FeedbackScan(time, a);
    FeedbackScan(time, b);
    FoldedFields(time, a);
    FoldedFields(time, b);
  }

  function Annotated(): Record -> bool { (r: Record) => r.feedback.Some? }

  lemma FeedbackScan(time: Times, s: seq<Record>)
    ensures NewestFeedback(time, s) == LatestWhere(Valid(time), EntryOf, Annotated(), s)
  {
    LatestOfProjection(Valid(time), (r: Record) => r, EntryOf, Annotated(), EntryOf, (r: Record) => r.feedback.Some?, s);
    assert Map((r: Record) => r, s) == s;
  }

  lemma SameOccurrences(a: seq<Record>, b: seq<Record>)
    requires Refiled(a, b) && Carrier(a) == Carrier(b)
    ensures Occurrences(a) == Occurrences(b)
  {
    RefiledMultiset(a, b);
    SameCount((r: Record) => IsFresh(Carried(a), Boundary(Carrier(a)), r), a, b);
  }

  // ------------------------------------------------------------- first sightings

  ghost predicate Spelled(s: seq<Record>, t: string) {
    exists i :: 0 <= i < |s| && (SeenAt(s[i]) == t || s[i].timestamp == t)
  }

  /** Every instant has one spelling among these records' timestamps and first sightings. */
  ghost predicate OneSpelling(time: Times, s: seq<Record>) {
    forall t, u :: Spelled(s, t) && Spelled(s, u) && time(t) == time(u) ==> t == u
  }

  lemma {:induction false} FirstSeenIsSpelled(time: Times, s: seq<Record>)
    requires s != [] && AllSeen(time, s)
    ensures exists i :: 0 <= i < |s| && SeenAt(s[i]) == FirstSeen(time, s)
  {
    var n := |s| - 1;
    var pre := s[..n];
    assert forall k :: 0 <= k < n ==> pre[k] == s[k];
    if n > 0 {
      FirstSeenIsSpelled(time, pre);
      var i :| 0 <= i < n && SeenAt(pre[i]) == FirstSeen(time, pre);
      assert SeenAt(s[i]) == FirstSeen(time, pre);
      assert SeenAt(s[n]) == SeenAt(s[n]);
    } else {
      assert FirstSeen(time, pre) == "";
    }
  }

  lemma RefiledParses(time: Times, a: seq<Record>, b: seq<Record>)
    requires Refiled(a, b) && Parses(time, a)
    ensures Parses(time, b) && |a| == |b|
  {
    RefiledTimes(time, a, b);
    RefiledMembers(a, b);
    forall i | 0 <= i < |b| ensures time(SeenAt(b[i])).Some? {
      assert b[i] in a;
    }
  }

  lemma NotLater(time: Times, a: seq<Record>, b: seq<Record>)
    requires Refiled(a, b) && Parses(time, a) && Parses(time, b) && a != [] && b != []
    ensures time(FirstSeen(time, a)).Some? && time(FirstSeen(time, b)).Some?
    ensures time(FirstSeen(time, a)).value <= time(FirstSeen(time, b)).value
  {
    FirstSeenIsEarliest(time, a);
    FirstSeenIsEarliest(time, b);
    RefiledMembers(a, b);
    var i :| 0 <= i < |b| && time(SeenAt(b[i])) == time(FirstSeen(time, b));
    assert b[i] in a;
  }

  /** The first sighting names one instant in any filing, and one text where instants have one spelling. */
  lemma SameFirstSeen(time: Times, a: seq<Record>, b: seq<Record>)
    requires Refiled(a, b) && Parses(time, a) && a != []
    ensures time(FirstSeen(time, a)) == time(FirstSeen(time, b))
    ensures OneSpelling(time, a) ==> FirstSeen(time, a) == FirstSeen(time, b)
  {
    RefiledParses(time, a, b);
    RefiledMembers(a, b);
    NotLater(time, a, b);
    NotLater(time, b, a);
    FirstSeenIsSpelled(time, a);
    FirstSeenIsSpelled(time, b);
    var j :| 0 <= j < |b| && SeenAt(b[j]) == FirstSeen(time, b);
    assert b[j] in a;
    assert Spelled(a, FirstSeen(time, b)) && Spelled(a, FirstSeen(time, a));
  }

  // ------------------------------------------------------------- compaction

  lemma RetainedFromSub(time: Times, group: seq<Record>)
    requires group != []
    ensures var h, eff := Sub(time, group), Folded(time, group);
            |Retained(time, group)| == |h| && Retained(time, group)[|h| - 1] == eff &&
            forall i :: 0 <= i < |h| - 1 ==> Retained(time, group)[i] == Stripped(eff, h[i])
  {
    RetainedSplits(time, group);
  }

  lemma FromSameSub(x: seq<Record>, y: seq<Record>, h: seq<Record>, eff: Record)
    requires |x| == |y| == |h| > 0 && x[|h| - 1] == y[|h| - 1] == eff
    requires forall i :: 0 <= i < |h| - 1 ==> x[i] == Stripped(eff, h[i]) && y[i] == Stripped(eff, h[i])
    ensures x == y
  {
  }

  /** Compaction does not depend on how the store was filed. */
  lemma RetainedIgnoresFiling(time: Times, a: seq<Record>, b: seq<Record>)
    requires Refiled(a, b) && Parses(time, a) && OneSpelling(time, a)
    ensures Retained(time, a) == Retained(time, b)
  {
    RefiledMembers(a, b);
    if a != [] {
      SubIgnoresFiling(time, a, b);
      SameFold(time, a, b);
      RetainedFromSub(time, a);
      RetainedFromSub(time, b);
      FromSameSub(Retained(time, a), Retained(time, b), Sub(time, a), Folded(time, a));
    }
  }

  lemma SameFold(time: Times, a: seq<Record>, b: seq<Record>)
    requires Refiled(a, b) && Parses(time, a) && OneSpelling(time, a) && a != []
    ensures Folded(time, a) == Folded(time, b)
  {
    FoldIgnoresFiling(time, a, b);
    SameFirstSeen(time, a, b);
    FoldedFields(time, a);
  }

  lemma RetainedSpelling(time: Times, group: seq<Record>)
    requires group != [] && Parses(time, group) && OneSpelling(time, group)
    ensures OneSpelling(time, Retained(time, group))
  {
    var h := Retained(time, group);
    RetainedSplits(time, group);
    FoldedFields(time, group);
    FirstSeenIsSpelled(time, group);
    forall t | Spelled(h, t) ensures Spelled(group, t) {
      SpelledBefore(group, EffIndex(time, group), PlanOf(time, group).Kept(), Folded(time, group), t);
    }
  }

  lemma SpelledBefore(group: seq<Record>, e: nat, kept: seq<nat>, eff: Record, t: string)
    requires GoodKept(group, e, kept) && e < |group| && eff.timestamp == group[e].timestamp
    requires exists i :: 0 <= i < |group| && SeenAt(group[i]) == eff.firstSeen
    requires Spelled(StrippedAll(eff, group, kept) + [eff], t)
    ensures Spelled(group, t)
  {
    var after := StrippedAll(eff, group, kept) + [eff];
    var i :| 0 <= i < |after| && (SeenAt(after[i]) == t || after[i].timestamp == t);
    if i < |kept| {
      assert after[i] == Stripped(eff, group[kept[i]]) && group[kept[i]].timestamp == t;
    } else {
      var k :| 0 <= k < |group| && SeenAt(group[k]) == eff.firstSeen;
      assert group[e].timestamp == t || SeenAt(group[k]) == t;
    }
  }

  /** A history whose texts parse and spell each instant in one way. */
  ghost predicate Readable(time: Times, group: seq<Record>) {
    group != [] && Parses(time, group) && OneSpelling(time, group)
  }

  lemma RetainedIsReadable(time: Times, group: seq<Record>)
    requires Readable(time, group)
    ensures Readable(time, Retained(time, group))
  {
    RetainedParses(time, group);
    RetainedSpelling(time, group);
  }

  /** Some way of filing a finding's records. */
  type Filing = seq<Record> -> seq<Record>

  function RetainedBy(time: Times): seq<Record> -> seq<Record> { (g: seq<Record>) => Retained(time, g) }

  function Iterate<T>(f: T -> T, x: T, n: nat): T {
    if n == 0 then x else f(Iterate(f, x, n - 1))
  }

  lemma {:induction false} IterateSettles<T>(f: T -> T, x: T, n: nat)
    requires f(f(f(x))) == f(f(x)) && n >= 2
    ensures Iterate(f, x, n) == f(f(x))
  {
    if n > 2 {
      IterateSettles(f, x, n - 1);
    } else {
      assert Iterate(f, x, 0) == x && Iterate(f, x, 1) == f(x);
    }
  }

  /** One compaction per filing, each reading what the previous one wrote as it was filed. */
  function FiledPasses(pass: Filing, group: seq<Record>, filings: seq<Filing>): seq<Record> {
    if filings == [] then group
    else pass(filings[|filings| - 1](FiledPasses(pass, group, filings[..|filings| - 1])))
  }

  /** Each filing keeps the order of records of one timestamp. */
  ghost predicate KeepTies(pass: Filing, group: seq<Record>, filings: seq<Filing>) {
    filings != [] ==>
      var n := |filings| - 1;
      var h := FiledPasses(pass, group, filings[..n]);
      KeepTies(pass, group, filings[..n]) && Refiled(h, filings[n](h))
  }

  lemma {:induction false} FilingsDoNotMatter(time: Times, group: seq<Record>, filings: seq<Filing>)
    requires Readable(time, group) && KeepTies(RetainedBy(time), group, filings)
    ensures FiledPasses(RetainedBy(time), group, filings) == Iterate(RetainedBy(time), group, |filings|)
    ensures Readable(time, FiledPasses(RetainedBy(time), group, filings))
  {
    if filings != [] {
      var n := |filings| - 1;
      FilingsDoNotMatter(time, group, filings[..n]);
      OneFiledPass(time, FiledPasses(RetainedBy(time), group, filings[..n]), filings[n]);
    }
  }

  lemma OneFiledPass(time: Times, h: seq<Record>, f: Filing)
    requires Readable(time, h) && Refiled(h, f(h))
    ensures RetainedBy(time)(f(h)) == RetainedBy(time)(h) && Readable(time, RetainedBy(time)(f(h)))
  {
    RetainedIgnoresFiling(time, h, f(h));
    RetainedIsReadable(time, h);
  }

  /**
   From the second pass on compaction writes the same records, however its output was
   filed between the passes, as long as records of one timestamp stay in order.
   */
  lemma FiledCompactionConverges(time: Times, group: seq<Record>, filings: seq<Filing>)
    requires Readable(time, group) && |filings| >= 2 && KeepTies(RetainedBy(time), group, filings)
    ensures FiledPasses(RetainedBy(time), group, filings) == Retained(time, Retained(time, group))
  {
    FilingsDoNotMatter(time, group, filings);
    RetainedSettles(time, group);
    IterateSettles(RetainedBy(time), group, |filings|);
  }

  // ----------------------------------------------------------------- month shards

  function ByMonth(month: Record -> int): (Record, Record) -> bool { (x: Record, y: Record) => month(x) < month(y) }

  /** Shards are read in month order; each keeps the order it was written in. */
  function Filed(month: Record -> int, s: seq<Record>): seq<Record> { StableSort(ByMonth(month), s) }

  /** Filing by month keeps ties as long as records of one timestamp belong to one month. */
  lemma FilingByMonthKeepsTies(month: Record -> int, s: seq<Record>)
    requires forall x, y :: x in s && y in s && x.timestamp == y.timestamp ==> month(x) == month(y)
    ensures Refiled(s, Filed(month, s))
  {
    SortPermutes(ByMonth(month), s);
    MemberOfPermutation(Filed(month, s), s);
    forall t: string ensures Filter(StampIs(t), s) == Filter(StampIs(t), Filed(month, s)) {
      if v :| v in s && v.timestamp == t {
        OneMonthKeepsOrder(month, s, v);
      } else {
        FilterNone(StampIs(t), s);
        FilterNone(StampIs(t), Filed(month, s));
      }
    }
  }

  lemma OneMonthKeepsOrder(month: Record -> int, s: seq<Record>, v: Record)
    requires v in s && forall x :: x in s && x.timestamp == v.timestamp ==> month(x) == month(v)
    ensures Filter(StampIs(v.timestamp), s) == Filter(StampIs(v.timestamp), Filed(month, s))
  {
    var less, p := ByMonth(month), StampIs(v.timestamp);
    var tied := TiedWith(less, v);
    SortPermutes(less, s);
    MemberOfPermutation(Filed(month, s), s);
    forall x, y, z ensures WeakAt(less, x, y, z) { }
    SortKeepsTies(less, s, v);
    FilterTwice(p, tied, p, s);
    FilterTwice(p, tied, p, Filed(month, s));
  }
}
