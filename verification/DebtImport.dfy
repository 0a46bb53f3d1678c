/**
 `atcr debt import`: a README table becomes store records. Every row is imported, merged
 into another row of its finding, or rejected; a rerun appends only what is missing.
 */
module DebtImport {
  import opened Basics
  import opened Orders
  import opened DebtFold
  import opened DebtRecord
  import opened DebtCompact
  import opened CompactLimits
  import opened AppendRun

  /** A parsed table row: its line, and the record it imports as unless it is rejected. */
  datatype Item = Item(line: int, record: Option<Record>)

  // ----------------------------------------------------------------- the plan

  predicate Rejected(it: Item) { it.record.None? }

  type ValidItem = it: Item | it.record.Some? witness Item(0, Some(BLANK_RECORD))

  function IdOf(v: ValidItem): string { v.record.value.id }

  function TimeOf(v: ValidItem): string { v.record.value.timestamp }

  /** Row `i` is the one its finding keeps: the newest, the later in the table on a tie. */
  ghost predicate IsKept(valid: seq<ValidItem>, i: nat) {
    && i < |valid|
    && forall j :: 0 <= j < |valid| && IdOf(valid[j]) == IdOf(valid[i]) ==> Leads(valid, i, j)
  }

  /** The kept row of each id among the first `n` valid rows. */
  function KeptIndex(valid: seq<ValidItem>, n: nat, id: string): (r: Option<nat>)
    requires n <= |valid|
    ensures r.Some? ==> r.value < n && IdOf(valid[r.value]) == id
  {
    if n == 0 then None
    else
      var best := KeptIndex(valid, n - 1, id);
      if IdOf(valid[n - 1]) == id && (best.None? || !StringLess(TimeOf(valid[n - 1]), TimeOf(valid[best.value]))) then Some(n - 1)
      else best
  }

  /** `a` is no older than `b`, and newer if `b` stands later in the table. */
  predicate Leads(valid: seq<ValidItem>, a: nat, b: nat)
    requires a < |valid| && b < |valid|
  {
    !StringLess(TimeOf(valid[a]), TimeOf(valid[b])) && (b > a ==> StringLess(TimeOf(valid[b]), TimeOf(valid[a])))
  }

  lemma LeadsStep(valid: seq<ValidItem>, last: nat, best: nat, j: nat)
    requires last < |valid| && j <= last && best < last
    requires j < last ==> Leads(valid, best, j)
    ensures if StringLess(TimeOf(valid[last]), TimeOf(valid[best])) then Leads(valid, best, j) else Leads(valid, last, j)
  {
    StringLessIrreflexive(TimeOf(valid[last]));
    StringLessWeak(TimeOf(valid[last]), TimeOf(valid[best]), TimeOf(valid[j]));
    StringLessWeak(TimeOf(valid[best]), TimeOf(valid[last]), TimeOf(valid[best]));
  }

  lemma {:induction false} KeptIsNewest(valid: seq<ValidItem>, n: nat, id: string, j: nat)
    requires j < n <= |valid| && IdOf(valid[j]) == id
    ensures KeptIndex(valid, n, id).Some? && Leads(valid, KeptIndex(valid, n, id).value, j)
  {
    StringLessIrreflexive(TimeOf(valid[j]));
    if j < n - 1 { KeptIsNewest(valid, n - 1, id, j); }
    var best := KeptIndex(valid, n - 1, id);
    if best.Some? && IdOf(valid[n - 1]) == id { LeadsStep(valid, n - 1, best.value, j); }
  }

  /** A row is kept exactly when the scan settles on it. */
  lemma KeptIsKept(valid: seq<ValidItem>, i: nat)
    requires i < |valid|
    ensures KeptIndex(valid, |valid|, IdOf(valid[i])) == Some(i) <==> IsKept(valid, i)
  {
    var id := IdOf(valid[i]);
    KeptIsNewest(valid, |valid|, id, i);
    var k := KeptIndex(valid, |valid|, id).value;
    if k == i {
      forall j | 0 <= j < |valid| && IdOf(valid[j]) == id ensures Leads(valid, i, j) { KeptIsNewest(valid, |valid|, id, j); }
    }
    assert IsKept(valid, i) ==> Leads(valid, i, k);
  }

  function ValidItems(items: seq<Item>): seq<ValidItem> {
    if items == [] then []
    else
      var before, it := ValidItems(items[..|items| - 1]), items[|items| - 1];
      if it.record.Some? then before + [it] else before
  }

  /** The valid rows that are kept, or the ones that are not, in table order. */
  function Sift(valid: seq<ValidItem>, n: nat, kept: bool): seq<ValidItem>
    requires n <= |valid|
  {
    if n == 0 then []
    else
      var before, v := Sift(valid, n - 1, kept), valid[n - 1];
      if (KeptIndex(valid, |valid|, IdOf(v)) == Some(n - 1)) == kept then before + [v] else before
  }

  function Imported(items: seq<Item>): seq<ValidItem> { Sift(ValidItems(items), |ValidItems(items)|, true) }

  function Merged(items: seq<Item>): seq<ValidItem> { Sift(ValidItems(items), |ValidItems(items)|, false) }

  function RejectedOf(items: seq<Item>): seq<Item> { Filter(Rejected, items) }

  lemma {:induction false} SiftSplits(valid: seq<ValidItem>, n: nat)
    requires n <= |valid|
    ensures multiset(Sift(valid, n, true)) + multiset(Sift(valid, n, false)) == multiset(valid[..n])
  {
    if n > 0 {
      SiftSplits(valid, n - 1);
      assert valid[..n] == valid[..n - 1] + [valid[n - 1]];
    }
  }

  lemma {:induction false} ValidOrRejected(items: seq<Item>)
    ensures multiset(ValidItems(items)) + multiset(Filter(Rejected, items)) == multiset(items)
  {
    if items != [] {
      var n := |items| - 1;
      ValidOrRejected(items[..n]);
      assert items == items[..n] + [items[n]];
      FilterSnoc(Rejected, items[..n], items[n]);
    }
  }

  /** Every row of the table lands in exactly one of the three lists. */
  lemma ImportPartitions(items: seq<Item>)
    ensures multiset(Imported(items)) + multiset(Merged(items)) + multiset(RejectedOf(items)) == multiset(items)
  {
    var valid := ValidItems(items);
    SiftSplits(valid, |valid|);
    assert valid[..|valid|] == valid;
    ValidOrRejected(items);
  }

  ghost predicate KeptRow(valid: seq<ValidItem>, v: ValidItem) {
    exists i :: 0 <= i < |valid| && v == valid[i] && IsKept(valid, i)
  }

  lemma {:induction false} SiftedIsKept(valid: seq<ValidItem>, n: nat, a: nat) returns (i: nat)
    requires n <= |valid| && a < |Sift(valid, n, true)|
    ensures i < n && Sift(valid, n, true)[a] == valid[i] && KeptIndex(valid, |valid|, IdOf(valid[i])) == Some(i)
  {
    if a < |Sift(valid, n - 1, true)| { i := SiftedIsKept(valid, n - 1, a); } else { i := n - 1; }
  }

  lemma {:induction false} SiftedOnce(valid: seq<ValidItem>, n: nat, a: nat, b: nat)
    requires n <= |valid| && a < b < |Sift(valid, n, true)|
    ensures IdOf(Sift(valid, n, true)[a]) != IdOf(Sift(valid, n, true)[b])
  {
    if b < |Sift(valid, n - 1, true)| { SiftedOnce(valid, n - 1, a, b); } else { var i := SiftedIsKept(valid, n - 1, a); }
  }

  lemma {:induction false} KeptIsSifted(valid: seq<ValidItem>, n: nat, i: nat) returns (a: nat)
    requires i < n <= |valid| && KeptIndex(valid, |valid|, IdOf(valid[i])) == Some(i)
    ensures a < |Sift(valid, n, true)| && Sift(valid, n, true)[a] == valid[i]
  {
    if i < n - 1 { a := KeptIsSifted(valid, n - 1, i); } else { a := |Sift(valid, n - 1, true)|; }
  }

  ghost predicate HasImport(out: seq<ValidItem>, id: string) {
    exists a :: 0 <= a < |out| && IdOf(out[a]) == id
  }

  /** One imported row per finding: the last of its newest rows; every other valid row merges into one. */
  lemma ImportedIsNewestPerId(items: seq<Item>)
    ensures var valid, out := ValidItems(items), Imported(items);
            && (forall a, b :: 0 <= a < b < |out| ==> IdOf(out[a]) != IdOf(out[b]))
            && (forall a :: 0 <= a < |out| ==> KeptRow(valid, out[a]))
            && (forall j :: 0 <= j < |valid| ==> HasImport(out, IdOf(valid[j])))
  {
    var valid, out := ValidItems(items), Imported(items);
    forall a, b | 0 <= a < b < |out| ensures IdOf(out[a]) != IdOf(out[b]) { SiftedOnce(valid, |valid|, a, b); }
    forall a | 0 <= a < |out| ensures KeptRow(valid, out[a]) {
      var i := SiftedIsKept(valid, |valid|, a);
      KeptIsKept(valid, i);
    }
    forall j | 0 <= j < |valid| ensures HasImport(out, IdOf(valid[j])) {
      KeptIsNewest(valid, |valid|, IdOf(valid[j]), j);
      var k := KeptIndex(valid, |valid|, IdOf(valid[j])).value;
      var a := KeptIsSifted(valid, |valid|, k);
      assert IdOf(out[a]) == IdOf(valid[j]);
    }
  }

  // ------------------------------------------------------------------ the run

  /** `importKey`: the record without the counters a fold or compaction stamps. */
  function ImportKey(r: Record): Record { r.(occurrences := 0, countedThrough := "", firstSeen := "") }

  predicate Holds(store: seq<Record>, r: Record) {
    exists i :: 0 <= i < |store| && ImportKey(store[i]) == ImportKey(r)
  }

  function Planned(rows: seq<ValidItem>, id: string): (r: Option<Record>)
    ensures r.Some? ==> r.value.id == id
  {
    if rows == [] then None
    else if IdOf(rows[|rows| - 1]) == id then rows[|rows| - 1].record
    else Planned(rows[..|rows| - 1], id)
  }

  function PlannedIds(rows: seq<ValidItem>): (ids: seq<string>)
    ensures |ids| == |rows| && forall i :: 0 <= i < |rows| ==> ids[i] == IdOf(rows[i])
  {
    Map((v: ValidItem) => IdOf(v), rows)
  }

  /** Append the planned record unless the store holds it already. */
  function Missing(rows: seq<ValidItem>, store: seq<Record>): Decider {
    (id: string) =>
      var r := Planned(rows, id);
      if r.Some? && !Holds(store, r.value) then r else None
  }

  /** `runDebtImport`'s append loop. */
  function Import(items: seq<Item>, breaks: string -> bool, store: seq<Record>): AppendState {
    AppendIds(Missing(Imported(items), store), breaks, store, PlannedIds(Imported(items)))
  }

  /** What is missing after a run that got through `done`. */
  lemma MissingAfter(rows: seq<ValidItem>, start: seq<Record>, done: seq<string>, id: string)
    ensures var first := Missing(rows, start);
            var second := Missing(rows, start + Written(first, done));
            if id in done then second(id).None? else second(id) == first(id)
  {
    var first := Missing(rows, start);
    var after := start + Written(first, done);
    var r := Planned(rows, id);
    if r.Some? {
      HoldsAfter(rows, start, done, r.value);
    }
  }

  /** The store then holds what it held, and the decided records of `done`. */
  lemma {:induction false} HoldsAfter(rows: seq<ValidItem>, start: seq<Record>, done: seq<string>, r: Record)
    requires Planned(rows, r.id) == Some(r)
    ensures var first := Missing(rows, start);
            Holds(start + Written(first, done), r) <==> Holds(start, r) || r.id in done
  {
    var first := Missing(rows, start);
    if done == [] {
      assert start + Written(first, done) == start;
    } else {
      var n := |done| - 1;
      HoldsAfter(rows, start, done[..n], r);
      assert done == done[..n] + [done[n]];
      var before := start + Written(first, done[..n]);
      if first(done[n]).Some? {
        assert start + Written(first, done) == before + [first(done[n]).value];
        HoldsSnoc(before, first(done[n]).value, r);
      } else {
        assert start + Written(first, done) == before;
      }
    }
  }

  lemma HoldsSnoc(store: seq<Record>, x: Record, r: Record)
    ensures Holds(store + [x], r) <==> Holds(store, r) || ImportKey(x) == ImportKey(r)
  {
    var all := store + [x];
    assert all[|store|] == x && forall i :: 0 <= i < |store| ==> all[i] == store[i];
  }

  lemma PlannedIdsDistinct(items: seq<Item>)
    ensures Distinct(PlannedIds(Imported(items)))
  {
    ImportedIsNewestPerId(items);
  }

  /** Stopping after any prefix and rerunning writes exactly the missing records; a further rerun writes none. */
  lemma ImportConverges(items: seq<Item>, breaks: string -> bool, start: seq<Record>)
    ensures var smooth := (id: string) => false;
            var partial := Import(items, breaks, start).store;
            var whole := Import(items, smooth, start).store;
            && Import(items, smooth, partial).store == whole
            && Import(items, smooth, whole).store == whole
  {
    var smooth := (id: string) => false;
    var rows := Imported(items);
    var ids, first := PlannedIds(rows), Missing(rows, start);
    PlannedIdsDistinct(items);
    var n := RunIsPrefix(first, smooth, start, ids);
    var k := RunIsPrefix(first, breaks, start, ids);
    assert ids[..n] == ids;
    CompletesFrom(items, smooth, start, k);
    CompletesFrom(items, smooth, start, n);
  }

  lemma CompletesFrom(items: seq<Item>, smooth: string -> bool, start: seq<Record>, k: nat)
    requires (forall id :: !smooth(id)) && k <= |PlannedIds(Imported(items))|
    ensures var ids, first := PlannedIds(Imported(items)), Missing(Imported(items), start);
            Import(items, smooth, start + Written(first, ids[..k])).store == start + Written(first, ids)
  {
    var rows := Imported(items);
    var ids, first := PlannedIds(rows), Missing(rows, start);
    var partial := start + Written(first, ids[..k]);
    var again := Missing(rows, partial);
    PlannedIdsDistinct(items);
    var m := RunIsPrefix(again, smooth, partial, ids);
    assert ids[..m] == ids;
    forall id ensures (id in ids[..k] ==> again(id).None?) && (id !in ids[..k] ==> again(id) == first(id)) {
      MissingAfter(rows, start, ids[..k], id);
    }
    RerunCompletes(first, again, start, ids, k);
  }

  lemma TwinKeys(a: Record, b: Record)
    requires ImportKey(a) == ImportKey(b)
    ensures EntryOf(a) == EntryOf(b) && a.model == b.model && a.justification == b.justification && a.feedback == b.feedback
  {
  }

  /** The effective record's key is among these exactly when its own annotation is the one the fold shows. */
  lemma HeldAmong(hist: seq<Record>, e: nat, kept: seq<nat>, eff: Record)
    requires e < |hist| && GoodKept(hist, e, kept) && (forall i :: 0 <= i < |kept| ==> !Twins(hist[kept[i]], hist[e]))
    requires ImportKey(eff) == ImportKey(hist[e].(feedback := eff.feedback))
    ensures Holds(StrippedAll(eff, hist, kept) + [eff], hist[e]) <==> eff.feedback == hist[e].feedback
  {
    var after := StrippedAll(eff, hist, kept) + [eff];
    assert after[|kept|] == eff;
    if i :| 0 <= i < |after| && ImportKey(after[i]) == ImportKey(hist[e]) {
      TwinKeys(after[i], hist[e]);
    }
  }

  /**
   A rerun of the import recognizes the compacted copy of an effective imported record
   exactly when no annotation but the record's own shows on the finding.
   */
  lemma CompactedCopyIsHeldIff(time: Times, hist: seq<Record>)
    requires hist != []
    ensures Holds(Retained(time, hist), hist[EffIndex(time, hist)]) <==> Folded(time, hist).feedback == hist[EffIndex(time, hist)].feedback
  {
    FoldedFields(time, hist);
    RetainedSplits(time, hist);
    NoTwinIsKept(time, hist);
    HeldAmong(hist, EffIndex(time, hist), PlanOf(time, hist).Kept(), Folded(time, hist));
  }

  /** A superseded record with the annotation compaction gives it. */
  function Reannotated(r: Record, shown: Option<Feedback>): Record {
    r.(feedback := if r.feedback.Some? then shown else None)
  }

  ghost predicate KeyIsKept(hist: seq<Record>, kept: seq<nat>, shown: Option<Feedback>, x: Record) {
    exists i :: 0 <= i < |kept| && kept[i] < |hist| && ImportKey(Reannotated(hist[kept[i]], shown)) == ImportKey(x)
  }

  lemma KeysAmong(hist: seq<Record>, e: nat, kept: seq<nat>, eff: Record, x: Record)
    requires e < |hist| && GoodKept(hist, e, kept) && ImportKey(eff) == ImportKey(hist[e].(feedback := eff.feedback))
    ensures Holds(StrippedAll(eff, hist, kept) + [eff], x) <==>
            ImportKey(hist[e].(feedback := eff.feedback)) == ImportKey(x) || KeyIsKept(hist, kept, eff.feedback, x)
  {
    var rest := StrippedAll(eff, hist, kept);
    HoldsSnoc(rest, eff, x);
    forall i | 0 <= i < |kept| ensures ImportKey(rest[i]) == ImportKey(Reannotated(hist[kept[i]], eff.feedback)) { }
    if KeyIsKept(hist, kept, eff.feedback, x) {
      var i :| 0 <= i < |kept| && ImportKey(Reannotated(hist[kept[i]], eff.feedback)) == ImportKey(x);
      assert ImportKey(rest[i]) == ImportKey(x);
    }
    if i :| 0 <= i < |rest| && ImportKey(rest[i]) == ImportKey(x) {
      assert ImportKey(Reannotated(hist[kept[i]], eff.feedback)) == ImportKey(x);
    }
  }

  /**
   Any record: after compaction it still counts as held exactly when it is the effective
   record under the annotation the finding shows, or a retained position keeps its key.
   */
  lemma HeldAfterCompactionIff(time: Times, hist: seq<Record>, x: Record)
    requires hist != []
    ensures var shown := Folded(time, hist).feedback;
            Holds(Retained(time, hist), x) <==>
            ImportKey(hist[EffIndex(time, hist)].(feedback := shown)) == ImportKey(x) || KeyIsKept(hist, PlanOf(time, hist).Kept(), shown, x)
  {
    FoldedFields(time, hist);
    RetainedSplits(time, hist);
    KeysAmong(hist, EffIndex(time, hist), PlanOf(time, hist).Kept(), Folded(time, hist), x);
  }

  /** What is retained beside the effective record is closed, so an open row is held only as the effective record. */
  lemma OpenRowIsHeldIff(time: Times, hist: seq<Record>, x: Record)
    requires hist != [] && !IsClosed(x.status)
    ensures Holds(Retained(time, hist), x) <==> ImportKey(hist[EffIndex(time, hist)].(feedback := Folded(time, hist).feedback)) == ImportKey(x)
  {
    var kept, shown := PlanOf(time, hist).Kept(), Folded(time, hist).feedback;
    HeldAfterCompactionIff(time, hist, x);
    KeptAreClosed(time, hist);
    forall i | 0 <= i < |kept| ensures ImportKey(Reannotated(hist[kept[i]], shown)).status != ImportKey(x).status { }
  }

  lemma KeptAreClosed(time: Times, hist: seq<Record>)
    requires hist != []
    ensures var kept := PlanOf(time, hist).Kept(); forall i :: 0 <= i < |kept| ==> kept[i] < |hist| && IsClosed(hist[kept[i]].status)
  {
  }

  lemma ImportOfOne(r: Record, store: seq<Record>)
    ensures Import([Item(1, Some(r))], (id: string) => false, store).store == if Holds(store, r) then store else store + [r]
  {
    var it: ValidItem := Item(1, Some(r));
    var valid: seq<ValidItem> := [it];
    assert [it][..0] == [] && ValidItems([]) == [];
    assert ValidItems([it]) == valid;
    assert KeptIndex(valid, 0, r.id) == None && KeptIndex(valid, 1, r.id) == Some(0);
    assert Sift(valid, 0, true) == [] && Sift(valid, 1, true) == valid;
    assert PlannedIds(valid) == [r.id] && [r.id][..0] == [];
    assert Planned(valid, r.id) == Some(r);
    var smooth := (id: string) => false;
    assert AppendIds(Missing(valid, store), smooth, store, []) == AppendState(store, false);
  }

  /**
   An imported row superseded by a later sighting: a rerun skips it before compaction and
   appends it again afterwards.
   */
  lemma SupersededRowIsImportedAgain(time: Times, a: string, b: string)
    requires CompactLimits.Earlier(time, a, b)
    ensures var row := Note(Unset, a, "");
            var hist := [row, Note(Unset, b, "")];
            && Import([Item(1, Some(row))], (id: string) => false, hist).store == hist
            && Import([Item(1, Some(row))], (id: string) => false, Retained(time, hist)).store == Retained(time, hist) + [row]
  {
    var row, seen := Note(Unset, a, ""), Note(Unset, b, "");
    var hist := [row, seen];
    ImportOfOne(row, hist);
    ImportOfOne(row, Retained(time, hist));
    assert ImportKey(hist[0]) == ImportKey(row);
    ScanOfTwo(time, row, seen);
    StringLessIrreflexive(a);
    OpenRowIsHeldIff(time, hist, row);
  }

  // ------------------------------------------------------------- imperatively

  method SplitRejected(items: seq<Item>) returns (valid: seq<ValidItem>, rejected: seq<Item>)
    ensures valid == ValidItems(items) && rejected == RejectedOf(items)
  {
    valid, rejected := [], [];
    for i := 0 to |items|
      invariant valid == ValidItems(items[..i]) && rejected == Filter(Rejected, items[..i])
    {
      assert items[..i + 1] == items[..i] + [items[i]] && items[..i + 1][..i] == items[..i];
      FilterSnoc(Rejected, items[..i], items[i]);
      if items[i].record.None? {
        rejected := rejected + [items[i]];
      } else {
        valid := valid + [items[i]];
      }
    }
    assert items[..|items|] == items;
  }

  /** `planDebtImport`: reject, scan for the kept rows, then sort the valid rows. */
  method PlanDebtImport(items: seq<Item>) returns (imported: seq<ValidItem>, merged: seq<ValidItem>, rejected: seq<Item>)
    ensures imported == Imported(items) && merged == Merged(items) && rejected == RejectedOf(items)
  {
    var valid;
    valid, rejected := SplitRejected(items);
    var kept := ScanKept(valid);
    imported, merged := [], [];
    for i := 0 to |valid|
      invariant imported == Sift(valid, i, true) && merged == Sift(valid, i, false)
    {
      KeptIsNewest(valid, |valid|, IdOf(valid[i]), i);
      if kept[IdOf(valid[i])] == i {
        imported := imported + [valid[i]];
      } else {
        merged := merged + [valid[i]];
      }
    }
  }

  method ScanKept(valid: seq<ValidItem>) returns (kept: map<string, nat>)
    ensures forall id :: KeptIndex(valid, |valid|, id) == if id in kept then Some(kept[id]) else None
  {
    kept := map[];
    for i := 0 to |valid|
      invariant forall id :: KeptIndex(valid, i, id) == if id in kept then Some(kept[id]) else None
    {
      var id := IdOf(valid[i]);
      assert KeptIndex(valid, i, id) == if id in kept then Some(kept[id]) else None;
      if id !in kept {
        kept := kept[id := i];
      } else if !StringLess(TimeOf(valid[i]), TimeOf(valid[kept[id]])) {
        kept := kept[id := i];
      }
    }
  }

  /** Plan, then append every planned record the store lacks. */
  method RunDebtImport(items: seq<Item>, breaks: string -> bool, start: seq<Record>) returns (store: seq<Record>, stopped: bool)
    ensures AppendState(store, stopped) == Import(items, breaks, start)
  {
    var imported, merged, rejected := PlanDebtImport(items);
    store, stopped := AppendAll(Missing(imported, start), breaks, start, PlannedIds(imported));
  }
}
