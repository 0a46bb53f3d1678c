/**
 What `atcr debt import` appends, said of table rows: for each finding its newest row, the
 later one of one time, unless the store has that record but for its counters.
 */
module ImportedRows {
  import opened Basics
  import opened Orders
  import opened DebtFold
  import opened DebtRecord
  import opened AppendRun
  import opened DebtImport

  /** Row `i` imports: it is well formed, and no other row of its finding is newer, or as new and further down. */
  ghost predicate NewestRow(items: seq<Item>, i: nat) {
    && i < |items| && items[i].record.Some?
    && forall j :: 0 <= j < |items| && items[j].record.Some? && items[j].record.value.id == items[i].record.value.id ==> NoLater(items, i, j)
  }

  predicate NoLater(items: seq<Item>, i: nat, j: nat)
    requires i < |items| && j < |items| && items[i].record.Some? && items[j].record.Some?
  {
    var mine, its := items[i].record.value.timestamp, items[j].record.value.timestamp;
    StringLess(its, mine) || (its == mine && j <= i)
  }

  /** One record but for what a fold or a compaction writes into it. */
  predicate SameButCounters(a: Record, b: Record) {
    && a.id == b.id && a.status == b.status && a.timestamp == b.timestamp && a.severity == b.severity
    && a.file == b.file && a.line == b.line && a.category == b.category && a.estMinutes == b.estMinutes
    && a.origin == b.origin && a.confidence == b.confidence && a.justification == b.justification && a.model == b.model
    && a.reviewers == b.reviewers && a.resolvedAt == b.resolvedAt && a.feedback == b.feedback
  }

  predicate InStore(store: seq<Record>, r: Record) { exists i :: 0 <= i < |store| && SameButCounters(store[i], r) }

  /** What the first `n` rows owe the store, in table order. */
  ghost function OwedRows(items: seq<Item>, start: seq<Record>, n: nat): seq<Record>
    requires n <= |items|
  {
    if n == 0 then []
    else if NewestRow(items, n - 1) && !InStore(start, items[n - 1].record.value) then OwedRows(items, start, n - 1) + [items[n - 1].record.value]
    else OwedRows(items, start, n - 1)
  }

  lemma HoldsIff(store: seq<Record>, r: Record)
    ensures Holds(store, r) <==> InStore(store, r)
  {
    forall i | 0 <= i < |store| ensures ImportKey(store[i]) == ImportKey(r) <==> SameButCounters(store[i], r) { }
  }

  // ------------------------------------------------------- rows and valid rows

  /** Where a row stands among the well-formed ones. */
  function At(items: seq<Item>, n: nat): nat
    requires n <= |items|
  {
    |ValidItems(items[..n])|
  }

  lemma AtNext(items: seq<Item>, n: nat)
    requires n < |items|
    ensures At(items, n + 1) == At(items, n) + if items[n].record.Some? then 1 else 0
    ensures items[n].record.Some? ==> ValidItems(items[..n + 1]) == ValidItems(items[..n]) + [items[n]]
    ensures items[n].record.None? ==> ValidItems(items[..n + 1]) == ValidItems(items[..n])
  {
    assert items[..n + 1][..n] == items[..n];
  }

  lemma {:induction false} AtIsPrefix(items: seq<Item>, n: nat)
    requires n <= |items|
    ensures At(items, n) <= |ValidItems(items)| && ValidItems(items)[..At(items, n)] == ValidItems(items[..n])
    decreases |items| - n
  {
    if n == |items| {
      assert items[..n] == items;
    } else {
      AtNext(items, n);
      AtIsPrefix(items, n + 1);
    }
  }

  lemma RowIsValid(items: seq<Item>, i: nat)
    requires i < |items| && items[i].record.Some?
    ensures At(items, i) < |ValidItems(items)| && ValidItems(items)[At(items, i)] == items[i]
  {
    AtNext(items, i);
    AtIsPrefix(items, i + 1);
    assert ValidItems(items)[..At(items, i + 1)][At(items, i)] == items[i];
  }

  lemma {:induction false} AtGrows(items: seq<Item>, i: nat, j: nat)
    requires i <= j <= |items|
    ensures At(items, i) <= At(items, j)
    decreases j
  {
    if i < j {
      AtGrows(items, i, j - 1);
      AtNext(items, j - 1);
    }
  }

  lemma RowsKeepOrder(items: seq<Item>, i: nat, j: nat)
    requires i < |items| && j < |items| && items[i].record.Some? && items[j].record.Some?
    ensures i < j <==> At(items, i) < At(items, j)
  {
    AtNext(items, i);
    AtNext(items, j);
    if i < j { AtGrows(items, i + 1, j); } else { AtGrows(items, j, i); }
  }

  lemma {:induction false} ValidIsRow(items: seq<Item>, n: nat, a: nat) returns (i: nat)
    requires n <= |items| && a < At(items, n)
    ensures i < n && items[i].record.Some? && At(items, i) == a
  {
    AtNext(items, n - 1);
    if a < At(items, n - 1) { i := ValidIsRow(items, n - 1, a); } else { i := n - 1; }
  }

  lemma LeadsIs(items: seq<Item>, i: nat, j: nat)
    requires i < |items| && j < |items| && items[i].record.Some? && items[j].record.Some?
    ensures At(items, i) < |ValidItems(items)| && At(items, j) < |ValidItems(items)|
    ensures Leads(ValidItems(items), At(items, i), At(items, j)) <==> NoLater(items, i, j)
  {
    RowIsValid(items, i);
    RowIsValid(items, j);
    RowsKeepOrder(items, i, j);
    var mine, its := items[i].record.value.timestamp, items[j].record.value.timestamp;
    StringLessTotal(mine, its);
    StringLessWeak(mine, its, mine);
  }

  lemma NewestIsKept(items: seq<Item>, i: nat)
    requires i < |items| && items[i].record.Some?
    ensures NewestRow(items, i) <==> IsKept(ValidItems(items), At(items, i))
  {
    var valid, a := ValidItems(items), At(items, i);
    RowIsValid(items, i);
    if NewestRow(items, i) {
      forall b | 0 <= b < |valid| && IdOf(valid[b]) == IdOf(valid[a]) ensures Leads(valid, a, b) {
        assert items[..|items|] == items;
        var j := ValidIsRow(items, |items|, b);
        RowIsValid(items, j);
        LeadsIs(items, i, j);
      }
    }
    if IsKept(valid, a) {
      forall j | 0 <= j < |items| && items[j].record.Some? && items[j].record.value.id == items[i].record.value.id ensures NoLater(items, i, j) {
        RowIsValid(items, j);
        LeadsIs(items, i, j);
      }
    }
  }

  // -------------------------------------------------------------- what is written

  function Records(rows: seq<ValidItem>, start: seq<Record>): seq<Record> {
    if rows == [] then []
    else
      var before, r := Records(rows[..|rows| - 1], start), rows[|rows| - 1].record.value;
      if Holds(start, r) then before else before + [r]
  }

  lemma RecordsSnoc(rows: seq<ValidItem>, v: ValidItem, start: seq<Record>)
    ensures Records(rows + [v], start) == if Holds(start, v.record.value) then Records(rows, start) else Records(rows, start) + [v.record.value]
  {
    assert (rows + [v])[..|rows|] == rows;
  }

  lemma {:induction false} PlannedIsOwn(rows: seq<ValidItem>, i: nat)
    requires i < |rows| && Distinct(PlannedIds(rows))
    ensures Planned(rows, IdOf(rows[i])) == rows[i].record
  {
    var n := |rows| - 1;
    if i < n {
      assert PlannedIds(rows)[i] != PlannedIds(rows)[n];
      assert PlannedIds(rows[..n]) == PlannedIds(rows)[..n];
      PlannedIsOwn(rows[..n], i);
    }
  }

  lemma WrittenSnoc(decide: Decider, ids: seq<string>, id: string)
    ensures Written(decide, ids + [id]) == if decide(id).Some? then Written(decide, ids) + [decide(id).value] else Written(decide, ids)
  {
    assert (ids + [id])[..|ids|] == ids;
  }

  lemma BothGrow(decide: Decider, ids: seq<string>, id: string, head: seq<ValidItem>, v: ValidItem, start: seq<Record>)
    requires decide(id) == (if Holds(start, v.record.value) then None else v.record)
    requires Written(decide, ids) == Records(head, start)
    ensures Written(decide, ids + [id]) == Records(head + [v], start)
  {
    WrittenSnoc(decide, ids, id);
    RecordsSnoc(head, v, start);
  }

  lemma CutSnoc<T>(s: seq<T>, m: nat)
    requires m < |s|
    ensures s[..m + 1] == s[..m] + [s[m]]
  {
  }

  lemma WrittenNext(rows: seq<ValidItem>, start: seq<Record>, m: nat)
    requires m < |rows| && Distinct(PlannedIds(rows))
    requires Written(Missing(rows, start), PlannedIds(rows)[..m]) == Records(rows[..m], start)
    ensures Written(Missing(rows, start), PlannedIds(rows)[..m + 1]) == Records(rows[..m + 1], start)
  {
    PlannedIsOwn(rows, m);
    BothGrow(Missing(rows, start), PlannedIds(rows)[..m], IdOf(rows[m]), rows[..m], rows[m], start);
    CutSnoc(rows, m);
    CutSnoc(PlannedIds(rows), m);
  }

  lemma {:induction false} WrittenAreRecords(rows: seq<ValidItem>, start: seq<Record>, m: nat)
    requires m <= |rows| && Distinct(PlannedIds(rows))
    ensures Written(Missing(rows, start), PlannedIds(rows)[..m]) == Records(rows[..m], start)
  {
    if m > 0 {
      WrittenAreRecords(rows, start, m - 1);
      WrittenNext(rows, start, m - 1);
    }
  }

  /** One row further: what is sifted of the valid rows is what the table rows owe. */
  lemma OwedNext(items: seq<Item>, start: seq<Record>, n: nat)
    requires n < |items| && At(items, n) <= |ValidItems(items)| && At(items, n + 1) <= |ValidItems(items)|
    requires OwedRows(items, start, n) == Records(Sift(ValidItems(items), At(items, n), true), start)
    ensures OwedRows(items, start, n + 1) == Records(Sift(ValidItems(items), At(items, n + 1), true), start)
  {
    var valid, a := ValidItems(items), At(items, n);
    AtNext(items, n);
    if items[n].record.Some? {
      RowIsValid(items, n);
      NewestIsKept(items, n);
      KeptIsKept(valid, a);
      HoldsIff(start, items[n].record.value);
      RecordsSnoc(Sift(valid, a, true), valid[a], start);
    }
  }

  lemma {:induction false} OwedAreSifted(items: seq<Item>, start: seq<Record>, n: nat)
    requires n <= |items|
    ensures At(items, n) <= |ValidItems(items)| && OwedRows(items, start, n) == Records(Sift(ValidItems(items), At(items, n), true), start)
  {
    AtIsPrefix(items, n);
    if n > 0 {
      OwedAreSifted(items, start, n - 1);
      OwedNext(items, start, n - 1);
    }
  }

  lemma OwedIsWritten(items: seq<Item>, start: seq<Record>)
    ensures OwedRows(items, start, |items|) == Written(Missing(Imported(items), start), PlannedIds(Imported(items)))
  {
    var rows := Imported(items);
    PlannedIdsDistinct(items);
    WrittenAreRecords(rows, start, |rows|);
    assert PlannedIds(rows)[..|rows|] == PlannedIds(rows) && rows[..|rows|] == rows;
    OwedAreSifted(items, start, |items|);
    assert items[..|items|] == items;
  }

  lemma WrittenPrefix(decide: Decider, ids: seq<string>, k: nat)
    requires k <= |ids|
    ensures Written(decide, ids[..k]) <= Written(decide, ids)
  {
    WrittenConcat(decide, ids[..k], ids[k..]);
    assert ids[..k] + ids[k..] == ids;
  }

  /** The import appends what the rows owe the store, in table order; a run that breaks off appends a prefix of it. */
  lemma ImportAppendsOwed(items: seq<Item>, breaks: string -> bool, start: seq<Record>)
    ensures var owed, after := OwedRows(items, start, |items|), Import(items, breaks, start).store;
            && (exists done :: done <= owed && after == start + done)
            && ((forall id :: !breaks(id)) ==> after == start + owed)
  {
    var ids, decide := PlannedIds(Imported(items)), Missing(Imported(items), start);
    var k := RunIsPrefix(decide, breaks, start, ids);
    OwedIsWritten(items, start);
    WrittenPrefix(decide, ids, k);
    assert k == |ids| ==> ids[..k] == ids;
  }
}
