/**
 The append loop the store writers share: for each id in order, append the record decided
 for it, if any; a failing append ends the loop with everything before it on disk.
 */
module AppendRun {
  import opened Basics
  import opened Orders
  import opened DebtFold
  import opened DebtRecord

  /** The record to append for an id, if any. */
  type Decider = string -> Option<Record>

  datatype AppendState = AppendState(store: seq<Record>, stopped: bool)

  function AppendIds(decide: Decider, breaks: string -> bool, start: seq<Record>, ids: seq<string>): AppendState {
    if ids == [] then AppendState(start, false)
    else
      var st, id := AppendIds(decide, breaks, start, ids[..|ids| - 1]), ids[|ids| - 1];
      if st.stopped || decide(id).None? then st
      else if breaks(id) then AppendState(st.store, true)
      else AppendState(st.store + [decide(id).value], false)
  }

  function History(store: seq<Record>, id: string): seq<Record> { GroupOf(RECORDS, store, id) }

  /** Each decided record is about its own id. */
  ghost predicate OwnRecords(decide: Decider) {
    forall id :: decide(id).Some? ==> decide(id).value.id == id
  }

  /** The records decided for `ids`, in order. */
  function Written(decide: Decider, ids: seq<string>): seq<Record> {
    if ids == [] then []
    else
      var before, rec := Written(decide, ids[..|ids| - 1]), decide(ids[|ids| - 1]);
      if rec.Some? then before + [rec.value] else before
  }

  /** The loop as the source writes it. */
  method AppendAll(decide: Decider, breaks: string -> bool, start: seq<Record>, ids: seq<string>) returns (store: seq<Record>, stopped: bool)
    ensures AppendState(store, stopped) == AppendIds(decide, breaks, start, ids)
  {
    store, stopped := start, false;
    for i := 0 to |ids|
      invariant AppendIds(decide, breaks, start, ids[..i]) == AppendState(store, false) && !stopped
    {
      assert ids[..i + 1][..i] == ids[..i];
      var rec := decide(ids[i]);
      if rec.Some? {
        if breaks(ids[i]) {
          StoppedStays(decide, breaks, start, ids, i + 1);
          return store, true;
        }
        store := store + [rec.value];
      }
    }
    assert ids[..|ids|] == ids;
  }

  lemma {:induction false} StoppedStays(decide: Decider, breaks: string -> bool, start: seq<Record>, ids: seq<string>, i: nat)
    requires i <= |ids| && AppendIds(decide, breaks, start, ids[..i]).stopped
    ensures AppendIds(decide, breaks, start, ids) == AppendIds(decide, breaks, start, ids[..i])
    decreases |ids| - i
  {
    if i == |ids| {
      assert ids[..i] == ids;
    } else {
      assert ids[..i + 1][..i] == ids[..i];
      StoppedStays(decide, breaks, start, ids, i + 1);
    }
  }

  /** Wherever it ended, the loop wrote what was decided for a prefix of the ids. */
  lemma {:induction false} RunIsPrefix(decide: Decider, breaks: string -> bool, start: seq<Record>, ids: seq<string>) returns (k: nat)
    ensures k <= |ids|
    ensures AppendIds(decide, breaks, start, ids).store == start + Written(decide, ids[..k])
    ensures !AppendIds(decide, breaks, start, ids).stopped ==> k == |ids|
    ensures (forall id :: !breaks(id)) ==> !AppendIds(decide, breaks, start, ids).stopped
  {
    if ids == [] {
      k := 0;
    } else {
      var n := |ids| - 1;
      k := RunIsPrefix(decide, breaks, start, ids[..n]);
      assert ids[..n][..k] == ids[..k];
      if !AppendIds(decide, breaks, start, ids[..n]).stopped && (decide(ids[n]).None? || !breaks(ids[n])) {
        assert ids[..|ids|] == ids;
        k := |ids|;
      }
    }
  }

  lemma {:induction false} WrittenConcat(decide: Decider, a: seq<string>, b: seq<string>)
    ensures Written(decide, a + b) == Written(decide, a) + Written(decide, b)
  {
    if b == [] {
      assert a + b == a;
    } else {
      assert (a + b)[..|a + b| - 1] == a + b[..|b| - 1];
      WrittenConcat(decide, a, b[..|b| - 1]);
    }
  }

  lemma {:induction false} WrittenSame(f: Decider, g: Decider, ids: seq<string>)
    requires forall id :: id in ids ==> f(id) == g(id)
    ensures Written(f, ids) == Written(g, ids)
  {
    if ids != [] { WrittenSame(f, g, ids[..|ids| - 1]); }
  }

  lemma {:induction false} WrittenNone(decide: Decider, ids: seq<string>)
    requires forall id :: id in ids ==> decide(id).None?
    ensures Written(decide, ids) == []
  {
    if ids != [] { WrittenNone(decide, ids[..|ids| - 1]); }
  }

  /** After the loop each id has its old history and at most one more record. */
  lemma {:induction false} HistoryAfter(decide: Decider, start: seq<Record>, ids: seq<string>, id: string)
    requires Distinct(ids) && OwnRecords(decide)
    ensures History(start + Written(decide, ids), id) ==
            if id in ids && decide(id).Some? then History(start, id) + [decide(id).value] else History(start, id)
  {
    if ids == [] {
      assert start + Written(decide, ids) == start;
    } else {
      var n := |ids| - 1;
      var pre, k := ids[..n], ids[n];
      HistoryAfter(decide, start, pre, id);
      assert ids == pre + [k];
      var before := start + Written(decide, pre);
      if decide(k).Some? {
        assert start + Written(decide, ids) == before + [decide(k).value];
        GroupOfBlock(RECORDS, before, [decide(k).value], k, id);
      } else {
        assert start + Written(decide, ids) == before;
      }
    }
  }

  lemma HistoryConcat(a: seq<Record>, b: seq<Record>, id: string)
    ensures History(a + b, id) == History(a, id) + History(b, id)
  {
    GroupOfConcat(RECORDS, a, b, id);
  }

  lemma RerunWrites(first: Decider, again: Decider, done: seq<string>, rest: seq<string>)
    requires forall id :: id in done ==> again(id).None?
    requires forall id :: id in rest ==> again(id) == first(id)
    ensures Written(again, done + rest) == Written(first, rest)
    ensures Written(first, done + rest) == Written(first, done) + Written(first, rest)
  {
    WrittenConcat(first, done, rest);
    WrittenConcat(again, done, rest);
    WrittenNone(again, done);
    WrittenSame(first, again, rest);
  }

  /** Stopping after any prefix and rerunning writes exactly the missing records. */
  lemma {:induction false} RerunCompletes(first: Decider, again: Decider, start: seq<Record>, ids: seq<string>, k: nat)
    requires k <= |ids| && Distinct(ids)
    requires forall id :: id in ids[..k] ==> again(id).None?
    requires forall id :: id !in ids[..k] ==> again(id) == first(id)
    ensures (start + Written(first, ids[..k])) + Written(again, ids) == start + Written(first, ids)
    ensures Written(again, ids) == Written(first, ids[k..])
  {
    assert ids == ids[..k] + ids[k..];
    DistinctSplit(ids, k);
    RerunWrites(first, again, ids[..k], ids[k..]);
  }
}
