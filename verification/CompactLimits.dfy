/**
 Where compaction shows: histories on which it closes a live finding, moves the credit for
 a fix, or moves the first sighting. Each holds for any clock and any texts it parses in
 the stated order.
 */
module CompactLimits {
  import opened Basics
  import opened Orders
  import opened DebtFold
  import opened DebtRecord
  import opened DebtCompact

  /** Two texts that parse, the first one earlier. */
  ghost predicate Earlier(time: Times, a: string, b: string) {
    time(a).Some? && time(b).Some? && time(a).value < time(b).value && StringLess(a, b)
  }

  function Note(status: Status, timestamp: string, model: string): Record {
    BLANK_RECORD.(id := "f", status := status, timestamp := timestamp, model := model)
  }

  /** With nothing suppressed, a last record that displaces every other is the effective one. */
  lemma LastWins(time: Times, rest: seq<Record>, last: Record)
    requires !IsSuppressing(last.status)
    requires forall i :: 0 <= i < |rest| ==> !IsSuppressing(rest[i].status) && Displaces(Valid(time), EntryOf(last), EntryOf(rest[i]))
    ensures EffIndex(time, rest + [last]) == |rest|
  {
    var group := rest + [last];
    FoldIndexArms(time, group);
    LatestFinds(Valid(time), EntryOf, SuppressesRecord(), group);
    assert forall i :: 0 <= i < |group| ==> !SuppressesRecord()(group[i]);
    ScanEndsOnLast(time, AnyRecord(), rest, last);
  }

  lemma ScanOfTwo(time: Times, a: Record, b: Record)
    requires !IsSuppressing(a.status) && !IsSuppressing(b.status)
    ensures LatestWhere(Valid(time), EntryOf, AnyRecord(), [a, b]) ==
            Some(if Displaces(Valid(time), EntryOf(b), EntryOf(a)) then 1 else 0)
    ensures EffIndex(time, [a, b]) == if Displaces(Valid(time), EntryOf(b), EntryOf(a)) then 1 else 0
  {
    assert [a, b][..1] == [a] && [a][..0] == [];
    assert LatestWhere(Valid(time), EntryOf, AnyRecord(), [a]) == Some(0);
    FoldIndexArms(time, [a, b]);
  }

  lemma ScanOfThree(time: Times, a: Record, b: Record, c: Record)
    requires !IsSuppressing(a.status) && !IsSuppressing(b.status) && !IsSuppressing(c.status)
    requires Displaces(Valid(time), EntryOf(b), EntryOf(a)) && Displaces(Valid(time), EntryOf(c), EntryOf(b))
    ensures EffIndex(time, [a, b, c]) == 2
  {
    assert [a, b, c][..2] == [a, b];
    ScanOfTwo(time, a, b);
    FoldIndexArms(time, [a, b, c]);
  }

  // -------------------------------------------------- a timestamp that does not parse

  /** The only close is an unattributed fix: it is kept as the rationale, and nothing else is. */
  lemma PlanOfOneFix(time: Times, fix: Record, x: Record, y: Record)
    requires fix.status == Marked(Resolved) && fix.model == "" && x.status == Unset && y.status == Unset
    requires EffIndex(time, [fix, x, y]) == 2
    ensures PlanOf(time, [fix, x, y]).Kept() == [0]
  {
    var group := [fix, x, y];
    assert BestTrail(group, 2, 1) == Some(0) && BestTrail(group, 2, 2) == Some(0) && BestTrail(group, 2, 3) == Some(0);
    assert Donor(group, 1) == Donor(group, 2) == Donor(group, 3) == None;
    var latest := LatestClosed(time, group);
    assert IsClosed(group[0].status);
  }

  /** A retained record the effective one does not displace wins the compacted group. */
  lemma RefoldOfTwo(time: Times, group: seq<Record>, eff: Record)
    requires group != [] && !IsSuppressing(group[0].status) && !IsSuppressing(eff.status)
    requires !Displaces(Valid(time), EntryOf(eff), EntryOf(group[0]))
    ensures Folded(time, StrippedAll(eff, group, [0]) + [eff]).status == group[0].status
  {
    var first := Stripped(eff, group[0]);
    assert StrippedAll(eff, group, [0]) + [eff] == [first, eff];
    ScanOfTwo(time, first, eff);
    FoldedIsSame(time, [first, eff]);
  }

  lemma AheadOfOne(time: Times, group: seq<Record>, kept: seq<nat>, eff: Entry)
    requires group != [] && kept == [0] && !IsSuppressing(group[0].status) && !IsSuppressing(eff.status)
    ensures StaysAhead(time, Superseded(group, kept), eff) <==> Displaces(Valid(time), eff, EntryOf(group[0]))
  {
    assert Superseded(group, kept) == [group[0]] && [group[0]][..0] == [];
  }

  lemma StaysIffDisplaces(time: Times, group: seq<Record>)
    requires group != [] && PlanOf(time, group).Kept() == [0] && !IsSuppressing(group[0].status)
    requires !IsSuppressing(group[EffIndex(time, group)].status)
    ensures StaysEffective(time, group) <==> Displaces(Valid(time), EntryOf(group[EffIndex(time, group)]), EntryOf(group[0]))
  {
    AheadOfOne(time, group, PlanOf(time, group).Kept(), EntryOf(group[EffIndex(time, group)]));
  }

  /** The shape of the failure, for any timestamps: each record displaces the one before it, but not the first. */
  lemma MovesAnyFold(time: Times, first: Record, odd: Record, last: Record)
    requires !IsSuppressing(first.status) && !IsSuppressing(odd.status) && !IsSuppressing(last.status)
    requires Displaces(Valid(time), EntryOf(odd), EntryOf(first)) && Displaces(Valid(time), EntryOf(last), EntryOf(odd))
    requires !Displaces(Valid(time), EntryOf(last), EntryOf(first)) && PlanOf(time, [first, odd, last]).Kept() == [0]
    ensures Folded(time, [first, odd, last]).status == last.status
    ensures Folded(time, Retained(time, [first, odd, last])).status == first.status
  {
    var group := [first, odd, last];
    ScanOfThree(time, first, odd, last);
    FoldedIsSame(time, group);
    RetainedSplits(time, group);
    RefoldOfTwo(time, group, Folded(time, group));
  }

  /**
   With one timestamp that does not parse, compaction can close a live finding: the fold
   of the history is open, the fold of what compaction retains is resolved.
   */
  lemma MalformedTimestampMovesTheFold(time: Times, a: string, b: string, x: string)
    requires Earlier(time, a, b) && time(x).None?
    ensures var group := [Note(Marked(Resolved), b, ""), Note(Unset, x, ""), Note(Unset, a, "")];
            && Folded(time, group).status == Unset
            && Folded(time, Retained(time, group)).status == Marked(Resolved)
            && !StaysEffective(time, group)
  {
    var fix, odd, last := Note(Marked(Resolved), b, ""), Note(Unset, x, ""), Note(Unset, a, "");
    StringLessWeak(a, b, a);
    ScanOfThree(time, fix, odd, last);
    PlanOfOneFix(time, fix, odd, last);
    MovesAnyFold(time, fix, odd, last);
    StaysIffDisplaces(time, [fix, odd, last]);
  }

  // ------------------------------------------------------ a first sighting in the future

  lemma PlanOfFixThenOpen(time: Times, fix: Record, last: Record)
    requires fix.status == Marked(Resolved) && fix.model == "" && last.status == Unset && EffIndex(time, [fix, last]) == 1
    ensures PlanOf(time, [fix, last]).Kept() == [0]
  {
    var group := [fix, last];
    assert BestTrail(group, 1, 1) == Some(0) && BestTrail(group, 1, 2) == Some(0);
    assert Donor(group, 1) == Donor(group, 2) == None;
    assert IsClosed(group[0].status);
  }

  lemma FirstSeenOfTwo(time: Times, x: Record, y: Record)
    requires time(SeenAt(x)).Some? && time(SeenAt(y)).Some? && time("").None?
    ensures FirstSeen(time, [x, y]) == if time(SeenAt(y)).value < time(SeenAt(x)).value then SeenAt(y) else SeenAt(x)
  {
    assert [x, y][..1] == [x] && [x][..0] == [];
    assert FirstSeen(time, [x]) == SeenAt(x);
  }

  /**
   A fix whose recorded first sighting lies after its own timestamp: every reader saw the
   finding first at `b`; after compaction it was first seen at `a`.
   */
  lemma FutureFirstSeenMoves(time: Times, a: string, b: string)
    requires Earlier(time, a, b) && time("").None?
    ensures var group := [Note(Marked(Resolved), a, "").(firstSeen := b), Note(Unset, b, "")];
            && Folded(time, group).firstSeen == b && Folded(time, Retained(time, group)).firstSeen == a
            && StaysEffective(time, group) && !KeepsFirstSeen(time, group)
  {
    var fix, last := Note(Marked(Resolved), a, "").(firstSeen := b), Note(Unset, b, "");
    var group := [fix, last];
    ScanOfTwo(time, fix, last);
    PlanOfFixThenOpen(time, fix, last);
    FirstSeenOfTwo(time, fix, last);
    FoldedFields(time, group);
    RetainedSplits(time, group);
    var eff := Folded(time, group);
    var first := Stripped(eff, fix);
    assert StrippedAll(eff, group, [0]) + [eff] == [first, eff];
    FirstSeenOfTwo(time, first, eff);
    FoldedFields(time, [first, eff]);
    StaysIffDisplaces(time, group);
    RetainedReadsAlikeIff(time, group);
  }

  // ------------------------------------------------------------- two closes of one second

  /**
   Two closes of one second that name different models: the later one is credited before
   compaction, the earlier one after it.
   */
  lemma TiedModelsMoveTheCredit(time: Times, a: string, b: string, m: string, n: string)
    requires Earlier(time, a, b) && m != "" && n != ""
    ensures var group := [Note(Marked(Resolved), a, m), Note(Marked(AttemptsExhausted), a, n), Note(Unset, b, "")];
            && RecoveredModel(group) == Some(n)
            && RecoveredModel(Retained(time, group)) == Some(m)
  {
    var fix, tried, last := Note(Marked(Resolved), a, m), Note(Marked(AttemptsExhausted), a, n), Note(Unset, b, "");
    var group := [fix, tried, last];
    assert group == [fix, tried] + [last];
    LastWins(time, [fix, tried], last);
    TiedPlan(time, fix, tried, last);
    FoldedIsSame(time, group);
    RetainedSplits(time, group);
    CreditOfThree(fix, tried, last);
    TiedCredit(group, Folded(time, group));
  }

  lemma CreditOfThree(a: Record, b: Record, c: Record)
    requires CarriesModel(a) && CarriesModel(b) && !CarriesModel(c) && a.timestamp == b.timestamp
    ensures RecoveredModel([a, b, c]) == Some(b.model)
  {
    StringLessIrreflexive(a.timestamp);
    var g := [a, b, c];
    assert Donor(g, 1) == Some(0) && Donor(g, 2) == Some(1) && Donor(g, 3) == Some(1);
  }

  lemma TiedCredit(group: seq<Record>, eff: Record)
    requires |group| == 3 && CarriesModel(group[0]) && CarriesModel(group[1]) && !CarriesModel(eff)
    requires group[0].timestamp == group[1].timestamp
    ensures RecoveredModel(StrippedAll(eff, group, [1, 0]) + [eff]) == Some(group[0].model)
  {
    assert StrippedAll(eff, group, [1, 0]) + [eff] == [Stripped(eff, group[1]), Stripped(eff, group[0]), eff];
    CreditOfThree(Stripped(eff, group[1]), Stripped(eff, group[0]), eff);
  }

  lemma TiedLatest(time: Times, fix: Record, tried: Record, last: Record)
    requires fix.status == Marked(Resolved) && tried.status == Marked(AttemptsExhausted) && last.status == Unset
    requires fix.timestamp == tried.timestamp && time(fix.timestamp).Some?
    ensures LatestClosed(time, [fix, tried, last]) == Some(0)
  {
    var valid, closed := Valid(time), Closes();
    StringLessIrreflexive(fix.timestamp);
    assert [fix, tried, last][..2] == [fix, tried] && [fix, tried][..1] == [fix] && [fix][..0] == [];
    assert LatestWhere(valid, EntryOf, closed, [fix]) == Some(0);
    assert LatestWhere(valid, EntryOf, closed, [fix, tried]) == Some(0);
  }

  lemma TiedTrail(group: seq<Record>)
    requires |group| == 3 && group[0].status == Marked(Resolved) && group[1].status == Marked(AttemptsExhausted) && group[2].status == Unset
    ensures BestTrail(group, 2, 3) == Some(1)
  {
    assert BestTrail(group, 2, 1) == Some(0);
    assert BestTrail(group, 2, 2) == Some(1);
  }

  lemma TiedPlan(time: Times, fix: Record, tried: Record, last: Record)
    requires fix.status == Marked(Resolved) && tried.status == Marked(AttemptsExhausted) && last.status == Unset
    requires fix.timestamp == tried.timestamp && time(fix.timestamp).Some? && CarriesModel(fix) && CarriesModel(tried)
    requires EffIndex(time, [fix, tried, last]) == 2
    ensures PlanOf(time, [fix, tried, last]).Kept() == [1, 0]
  {
    var group := [fix, tried, last];
    TiedTrail(group);
    TiedLatest(time, fix, tried, last);
    StringLessIrreflexive(fix.timestamp);
    assert Donor(group, 1) == Some(0) && Donor(group, 2) == Some(1) && Donor(group, 3) == Some(1);
  }
}
