/**
 `atcr debt sync-outcomes`: outcomes marked in a README table are appended to the debt
 store as resolutions. The command must be safe to rerun after stopping anywhere and must
 never close a finding that came back on the strength of its old fix.
 */
module SyncOutcomes {
  import opened Basics
  import opened Orders
  import opened DebtFold
  import opened DebtRecord
  import opened DebtCompact
  import opened AppendRun

  // ------------------------------------------------------------ the resolution

  /** What a run cannot decide itself: the clock, which texts explain, sizes, and store failures. */
  datatype Env = Env(
    time: Times,
    now: string -> string,
    explains: string -> bool,
    fits: Record -> bool,
    breaks: string -> bool)

  /** First-seen union of the names on the unsettled records. */
  function Reviewers(hist: seq<Record>): seq<string> {
    if hist == [] then []
    else
      var before, r := Reviewers(hist[..|hist| - 1]), hist[|hist| - 1];
      if IsSettled(r.status) then before else Union(before, r.reviewers)
  }

  function Union(seen: seq<string>, more: seq<string>): seq<string> {
    if more == [] then seen
    else
      var before, x := Union(seen, more[..|more| - 1]), more[|more| - 1];
      if x in before then before else before + [x]
  }

  /** The last model an unsettled record names. */
  function LastModel(hist: seq<Record>): string {
    if hist == [] then ""
    else
      var r := hist[|hist| - 1];
      if !IsSettled(r.status) && r.model != "" then r.model else LastModel(hist[..|hist| - 1])
  }

  datatype Resolution = AlreadyClosed | Refused | Resolves(record: Record)

  /** A status other than `resolved` needs words: typed ones, or for `wontfix` recorded ones. */
  predicate Explained(env: Env, orig: Record, mark: Mark, reason: string) {
    mark == Resolved || env.explains(reason) || (mark == Wontfix && env.explains(orig.justification))
  }

  function Justified(orig: Record, mark: Mark, reason: string): string {
    if reason == "" then orig.justification
    else if mark == AttemptsExhausted && orig.status == Marked(AttemptsExhausted) && orig.justification != "" && orig.justification != reason
    then orig.justification + "\n\n" + reason
    else reason
  }

  /** The appended record: the effective one, closed now, credited to everyone who raised it, counting nothing. */
  function ResolutionOf(hist: seq<Record>, orig: Record, mark: Mark, reason: string, now: string): Record {
    var reviewers, model := Reviewers(hist), LastModel(hist);
    orig.(status := Marked(mark), timestamp := now, resolvedAt := Some(now),
          reviewers := if reviewers == [] then orig.reviewers else reviewers,
          model := if model == "" then orig.model else model,
          justification := Justified(orig, mark, reason),
          occurrences := 0, firstSeen := "", countedThrough := "")
  }

  /** `buildDebtResolution` on one id's history. */
  function BuildResolution(env: Env, hist: seq<Record>, mark: Mark, reason: string, now: string): Resolution {
    if hist == [] then Refused
    else
      var orig := Folded(env.time, hist);
      if IsSettled(orig.status) then AlreadyClosed
      else if orig.file == "" || !Explained(env, orig, mark, reason) then Refused
      else Resolves(ResolutionOf(hist, orig, mark, reason, now))
  }

  // --------------------------------------------------------------- the table

  datatype Marker = Ticked | Dashed | Blank | Slashed | Unknown

  datatype Row = Row(line: int, ids: seq<string>, malformed: bool, marker: Marker, problem: string)

  /** `TDMarkerStatus`: the outcome a terminal marker stands for. */
  function OutcomeOf(m: Marker): Option<Mark> {
    match m
    case Ticked => Some(Resolved)
    case Dashed => Some(Unreproducible)
    case _ => None
  }

  /** A row that records one outcome for one id. */
  predicate Counts(r: Row) { !r.malformed && |r.ids| == 1 && OutcomeOf(r.marker).Some? }

  datatype Want = Want(mark: Mark, first: Row, conflict: bool)

  function Order(rows: seq<Row>): seq<string> {
    if rows == [] then []
    else
      var before, r := Order(rows[..|rows| - 1]), rows[|rows| - 1];
      if Counts(r) && r.ids[0] !in before then before + [r.ids[0]] else before
  }

  predicate Names(r: Row, id: string) { Counts(r) && r.ids[0] == id }

  function WantOf(rows: seq<Row>, id: string): Option<Want> {
    if rows == [] then None
    else
      var before, r := WantOf(rows[..|rows| - 1], id), rows[|rows| - 1];
      if !Names(r, id) then before
      else if before.None? then Some(Want(OutcomeOf(r.marker).value, r, false))
      else if before.value.mark != OutcomeOf(r.marker).value then Some(before.value.(conflict := true))
      else before
  }

  /** An id is wanted when a row names it; it is in conflict exactly when two such rows disagree. */
  lemma {:induction false} WantIsTheRows(rows: seq<Row>, id: string)
    ensures WantOf(rows, id).Some? <==> id in Order(rows)
    ensures WantOf(rows, id).Some? <==> exists i :: 0 <= i < |rows| && Names(rows[i], id)
    ensures var w := WantOf(rows, id);
            w.Some? ==> (w.value.conflict <==>
              exists i, j :: 0 <= i < |rows| && 0 <= j < |rows| && Names(rows[i], id) && Names(rows[j], id) && rows[i].marker.Ticked? && rows[j].marker.Dashed?)
    ensures forall i :: 0 <= i < |rows| && Names(rows[i], id) && !WantOf(rows, id).value.conflict ==> OutcomeOf(rows[i].marker) == Some(WantOf(rows, id).value.mark)
    ensures var w := WantOf(rows, id);
            w.Some? ==> Names(w.value.first, id) && w.value.first in rows && OutcomeOf(w.value.first.marker) == Some(w.value.mark)
  {
    if rows != [] {
      var n := |rows| - 1;
      var pre := rows[..n];
      WantIsTheRows(pre, id);
      assert forall i :: 0 <= i < n ==> pre[i] == rows[i];
      if w :| WantOf(pre, id) == Some(w) {
        var f :| 0 <= f < n && pre[f] == w.first;
        assert rows[f] == w.first;
      }
    }
  }

  // ------------------------------------------------------------------ the run

  predicate RecordedAs(hist: seq<Record>, mark: Mark) {
    exists i :: 0 <= i < |hist| && hist[i].status == Marked(mark)
  }

  /** What a synced record says for itself; a fix explains itself. */
  function SyncReason(w: Want, wording: Row -> string): string {
    if w.mark == Resolved then "" else wording(w.first)
  }

  /** A record's size does not depend on its timestamps, which all have one width. */
  function Undated(r: Record): Record { r.(timestamp := "", resolvedAt := None) }

  /** The record a run appends for one id, if any. */
  function Decision(env: Env, wording: Row -> string, hist: seq<Record>, id: string, w: Want): Option<Record> {
    if w.conflict || hist == [] || RecordedAs(hist, w.mark) then None
    else
      var res := BuildResolution(env, hist, w.mark, SyncReason(w, wording), env.now(id));
      if res.Resolves? && env.fits(Undated(res.record)) then Some(res.record) else None
  }

  /** What the run decides for an id, from the histories it collected at its start. */
  function Deciding(env: Env, wording: Row -> string, rows: seq<Row>, start: seq<Record>): Decider {
    (id: string) =>
      var w := WantOf(rows, id);
      if w.None? then None else Decision(env, wording, History(start, id), id, w.value)
  }

  /** `syncDebtOutcomes`. */
  function Sync(env: Env, wording: Row -> string, rows: seq<Row>, start: seq<Record>): AppendState {
    AppendIds(Deciding(env, wording, rows, start), env.breaks, start, Order(rows))
  }

  // ------------------------------------------------------------- safe to rerun

  /** A decided record closes its own id with the wanted outcome, counting nothing. */
  lemma DecidedIsOwn(env: Env, wording: Row -> string, rows: seq<Row>, start: seq<Record>, id: string)
    requires Deciding(env, wording, rows, start)(id).Some?
    ensures var rec := Deciding(env, wording, rows, start)(id).value;
            && rec.id == id && id in Ids(RECORDS, start)
            && WantOf(rows, id).Some? && rec.status == Marked(WantOf(rows, id).value.mark) && rec.occurrences == 0
  {
    GroupMembers(RECORDS, start, id);
    FoldedIsSame(env.time, History(start, id));
  }

  lemma DecidesOwnRecords(env: Env, wording: Row -> string, rows: seq<Row>, start: seq<Record>)
    ensures OwnRecords(Deciding(env, wording, rows, start))
  {
    forall id | Deciding(env, wording, rows, start)(id).Some? ensures Deciding(env, wording, rows, start)(id).value.id == id {
      DecidedIsOwn(env, wording, rows, start, id);
    }
  }

  /** Two environments that differ only in their clock and in where the store fails. */
  ghost predicate SameJudgement(a: Env, b: Env) {
    a.time == b.time && a.explains == b.explains && a.fits == b.fits
  }

  function UndatedOption(r: Option<Record>): Option<Record> { if r.Some? then Some(Undated(r.value)) else None }

  lemma ResolutionIgnoresClock(hist: seq<Record>, orig: Record, mark: Mark, reason: string, a: string, b: string)
    ensures Undated(ResolutionOf(hist, orig, mark, reason, a)) == Undated(ResolutionOf(hist, orig, mark, reason, b))
  {
  }

  /** Two clocks decide alike, up to the time they write down. */
  lemma DecisionIgnoresClock(a: Env, b: Env, wording: Row -> string, hist: seq<Record>, id: string, w: Want)
    requires SameJudgement(a, b)
    ensures UndatedOption(Decision(a, wording, hist, id, w)) == UndatedOption(Decision(b, wording, hist, id, w))
  {
    if hist != [] {
      ResolutionIgnoresClock(hist, Folded(a.time, hist), w.mark, SyncReason(w, wording), a.now(id), b.now(id));
    }
  }

  /** What a rerun decides after a first run that got through `done`. */
  lemma RerunDecides(env: Env, again: Env, wording: Row -> string, rows: seq<Row>, start: seq<Record>, done: seq<string>, id: string)
    requires Distinct(done) && SameJudgement(env, again)
    ensures var first := Deciding(env, wording, rows, start);
            var second := Deciding(again, wording, rows, start + Written(first, done));
            && (id in done ==> second(id).None?)
            && (id !in done ==> second(id) == Deciding(again, wording, rows, start)(id))
            && (second(id).Some? ==> first(id).Some?)
  {
    var first := Deciding(env, wording, rows, start);
    var store := start + Written(first, done);
    DecidesOwnRecords(env, wording, rows, start);
    HistoryAfter(first, start, done, id);
    if WantOf(rows, id).Some? {
      DecisionIgnoresClock(env, again, wording, History(start, id), id, WantOf(rows, id).value);
      if id in done && first(id).Some? {
        DecidedIsOwn(env, wording, rows, start, id);
        assert History(store, id)[|History(start, id)|] == first(id).value;
      }
    }
  }

  lemma {:induction false} OrderIsDistinct(rows: seq<Row>)
    ensures Distinct(Order(rows))
  {
    if rows != [] {
      OrderIsDistinct(rows[..|rows| - 1]);
      if Counts(rows[|rows| - 1]) { DistinctSnoc(Order(rows[..|rows| - 1]), rows[|rows| - 1].ids[0]); }
    }
  }

  /** A rerun after a run that completed writes nothing, at any later time. */
  lemma SyncConverges(env: Env, again: Env, wording: Row -> string, rows: seq<Row>, start: seq<Record>)
    requires SameJudgement(env, again) && !Sync(env, wording, rows, start).stopped
    ensures var store := Sync(env, wording, rows, start).store;
            Sync(again, wording, rows, store).store == store
  {
    var ids, first := Order(rows), Deciding(env, wording, rows, start);
    OrderIsDistinct(rows);
    var k := RunIsPrefix(first, env.breaks, start, ids);
    assert ids[..k] == ids;
    var store := start + Written(first, ids);
    var second := Deciding(again, wording, rows, store);
    var m := RunIsPrefix(second, again.breaks, store, ids);
    forall id | id in ids[..m] ensures second(id).None? { RerunDecides(env, again, wording, rows, start, ids, id); }
    WrittenNone(second, ids[..m]);
    assert store + [] == store;
  }

  lemma {:induction false} WrittenUndated(f: Decider, g: Decider, ids: seq<string>)
    requires forall id :: id in ids ==> UndatedOption(f(id)) == UndatedOption(g(id))
    ensures Map(Undated, Written(f, ids)) == Map(Undated, Written(g, ids))
  {
    if ids != [] {
      var n := |ids| - 1;
      WrittenUndated(f, g, ids[..n]);
      if f(ids[n]).Some? {
        MapConcat(Undated, Written(f, ids[..n]), [f(ids[n]).value]);
        MapConcat(Undated, Written(g, ids[..n]), [g(ids[n]).value]);
      }
    }
  }

  lemma DecidersIgnoreClock(a: Env, b: Env, wording: Row -> string, rows: seq<Row>, start: seq<Record>, id: string)
    requires SameJudgement(a, b)
    ensures UndatedOption(Deciding(a, wording, rows, start)(id)) == UndatedOption(Deciding(b, wording, rows, start)(id))
  {
    if WantOf(rows, id).Some? { DecisionIgnoresClock(a, b, wording, History(start, id), id, WantOf(rows, id).value); }
  }

  /** What is decided by the stopped run for the ids it reached and by the rerun for the others. */
  function Mixed(first: Decider, later: Decider, done: seq<string>): Decider {
    (id: string) => if id in done then first(id) else later(id)
  }

  /** Stopped after `k` ids, then rerun: together the runs write what the mixed decider says. */
  lemma StoppedAtThenRerun(stopping: Env, again: Env, wording: Row -> string, rows: seq<Row>, start: seq<Record>, k: nat)
    requires SameJudgement(stopping, again) && k <= |Order(rows)| && forall id :: !again.breaks(id)
    ensures var ids, first := Order(rows), Deciding(stopping, wording, rows, start);
            Sync(again, wording, rows, start + Written(first, ids[..k])).store ==
              start + Written(Mixed(first, Deciding(again, wording, rows, start), ids[..k]), ids)
  {
    var ids, first, later := Order(rows), Deciding(stopping, wording, rows, start), Deciding(again, wording, rows, start);
    var mixed, partial := Mixed(first, later, ids[..k]), start + Written(first, ids[..k]);
    OrderIsDistinct(rows);
    var second := Deciding(again, wording, rows, partial);
    var m := RunIsPrefix(second, again.breaks, partial, ids);
    assert ids[..m] == ids;
    WrittenSame(first, mixed, ids[..k]);
    forall id ensures (id in ids[..k] ==> second(id).None?) && (id !in ids[..k] ==> second(id) == mixed(id)) {
      RerunDecides(stopping, again, wording, rows, start, ids[..k], id);
    }
    RerunCompletes(mixed, second, start, ids, k);
  }

  /**
   A run stopped anywhere and rerun to the end at any other time leaves the store one
   uninterrupted run leaves, except that each record bears the time of the run that wrote it.
   */
  lemma StoppedThenRerun(stopping: Env, again: Env, whole: Env, wording: Row -> string, rows: seq<Row>, start: seq<Record>)
    requires SameJudgement(stopping, again) && SameJudgement(stopping, whole)
    requires forall id :: !again.breaks(id) && !whole.breaks(id)
    ensures var partial := Sync(stopping, wording, rows, start).store;
            Map(Undated, Sync(again, wording, rows, partial).store) == Map(Undated, Sync(whole, wording, rows, start).store)
  {
    var ids, first, later := Order(rows), Deciding(stopping, wording, rows, start), Deciding(again, wording, rows, start);
    var sure := Deciding(whole, wording, rows, start);
    var k := RunIsPrefix(first, stopping.breaks, start, ids);
    var n := RunIsPrefix(sure, whole.breaks, start, ids);
    assert ids[..n] == ids;
    StoppedAtThenRerun(stopping, again, wording, rows, start, k);
    var mixed := Mixed(first, later, ids[..k]);
    forall id ensures UndatedOption(mixed(id)) == UndatedOption(sure(id)) {
      DecidersIgnoreClock(stopping, whole, wording, rows, start, id);
      DecidersIgnoreClock(again, whole, wording, rows, start, id);
    }
    WrittenUndated(mixed, sure, ids);
    MapConcat(Undated, start, Written(mixed, ids));
    MapConcat(Undated, start, Written(sure, ids));
  }

  /** Per run an id gains at most one record; a conflicted, absent or recorded one gains none. */
  lemma AtMostOncePerRun(env: Env, wording: Row -> string, rows: seq<Row>, start: seq<Record>, id: string)
    ensures var before, after := History(start, id), History(Sync(env, wording, rows, start).store, id);
            && (after == before || exists rec :: after == before + [rec])
            && (WantOf(rows, id).Some? && (WantOf(rows, id).value.conflict || RecordedAs(before, WantOf(rows, id).value.mark)) ==> after == before)
  {
    var ids, first := Order(rows), Deciding(env, wording, rows, start);
    OrderIsDistinct(rows);
    WantIsTheRows(rows, id);
    DecidesOwnRecords(env, wording, rows, start);
    var k := RunIsPrefix(first, env.breaks, start, ids);
    HistoryAfter(first, start, ids[..k], id);
  }

  /** A run of the table, after whatever others appended to the store. */
  datatype Round = Round(others: seq<Record>, env: Env)

  function RunAll(rounds: seq<Round>, wording: Row -> string, rows: seq<Row>, store: seq<Record>): seq<Record> {
    if rounds == [] then store
    else
      var last := rounds[|rounds| - 1];
      Sync(last.env, wording, rows, RunAll(rounds[..|rounds| - 1], wording, rows, store) + last.others).store
  }

  function Others(rounds: seq<Round>): seq<Record> {
    if rounds == [] then [] else Others(rounds[..|rounds| - 1]) + rounds[|rounds| - 1].others
  }

  lemma RecordedGrows(hist: seq<Record>, more: seq<Record>, mark: Mark)
    requires RecordedAs(hist, mark)
    ensures RecordedAs(hist + more, mark)
  {
    var i :| 0 <= i < |hist| && hist[i].status == Marked(mark);
    assert (hist + more)[i] == hist[i];
  }

  lemma RunAddsNothing(env: Env, wording: Row -> string, rows: seq<Row>, before: seq<Record>, block: seq<Record>, id: string)
    requires WantOf(rows, id).Some? && RecordedAs(History(before, id), WantOf(rows, id).value.mark)
    ensures History(Sync(env, wording, rows, before + block).store, id) == History(before, id) + History(block, id)
  {
    HistoryConcat(before, block, id);
    RecordedGrows(History(before, id), History(block, id), WantOf(rows, id).value.mark);
    AtMostOncePerRun(env, wording, rows, before + block, id);
  }

  lemma AppendAssociates(a: seq<Record>, b: seq<Record>, c: seq<Record>)
    ensures (a + b) + c == a + (b + c)
  {
  }

  lemma RoundAddsNothing(r: Round, wording: Row -> string, rows: seq<Row>, before: seq<Record>, was: seq<Record>, others: seq<Record>, id: string)
    requires WantOf(rows, id).Some? && RecordedAs(was, WantOf(rows, id).value.mark)
    requires History(before, id) == was + History(others, id)
    ensures History(Sync(r.env, wording, rows, before + r.others).store, id) == was + History(others + r.others, id)
  {
    RecordedGrows(was, History(others, id), WantOf(rows, id).value.mark);
    RunAddsNothing(r.env, wording, rows, before, r.others, id);
    HistoryConcat(others, r.others, id);
    AppendAssociates(was, History(others, id), History(r.others, id));
  }

  /**
   Idempotence, even past a regression: once an id is recorded with its outcome, no number
   of runs of the same table appends anything for it, whatever others append in between.
   */
  lemma {:induction false} NeverRecordedTwice(rounds: seq<Round>, wording: Row -> string, rows: seq<Row>, store: seq<Record>, id: string)
    requires WantOf(rows, id).Some? && RecordedAs(History(store, id), WantOf(rows, id).value.mark)
    ensures History(RunAll(rounds, wording, rows, store), id) == History(store, id) + History(Others(rounds), id)
  {
    if rounds == [] {
      assert History(store, id) + [] == History(store, id);
    } else {
      var n := |rounds| - 1;
      NeverRecordedTwice(rounds[..n], wording, rows, store, id);
      RoundAddsNothing(rounds[n], wording, rows, RunAll(rounds[..n], wording, rows, store), History(store, id), Others(rounds[..n]), id);
    }
  }

  // ----------------------------------------------------------------- the counts

  /** The row is a clean no-op: its outcome is recorded and still in effect. */
  predicate InEffect(time: Times, hist: seq<Record>, w: Want) {
    !w.conflict && hist != [] && RecordedAs(hist, w.mark) && Folded(time, hist).status == Marked(w.mark)
  }

  function AlreadyInEffect(env: Env, rows: seq<Row>, start: seq<Record>): string -> bool {
    (id: string) => WantOf(rows, id).Some? && InEffect(env.time, History(start, id), WantOf(rows, id).value)
  }

  /** A row that names no single outcome for a single id. */
  function Skips(): Row -> bool { (r: Row) => !Counts(r) }

  /** What the command reports; every counting id and every other row is in exactly one of the three. */
  datatype Tally = Tally(appended: nat, recorded: nat, skipped: nat)

  ghost predicate TallyOf(t: Tally, env: Env, rows: seq<Row>, start: seq<Record>, store: seq<Record>) {
    && t.appended == |store| - |start|
    && t.recorded == |Filter(AlreadyInEffect(env, rows, start), Order(rows))|
    && t.appended + t.recorded + t.skipped == |Order(rows)| + |Filter(Skips(), rows)|
  }

  // ------------------------------------------------------------- imperatively

  /** The row loop: the outcome each id is wanted with, in order of first mention. */
  method CollectWants(rows: seq<Row>) returns (order: seq<string>, wants: map<string, Want>, skipped: nat)
    ensures order == Order(rows) && skipped == |Filter(Skips(), rows)|
    ensures forall id :: id in wants <==> WantOf(rows, id).Some?
    ensures forall id :: id in wants ==> WantOf(rows, id) == Some(wants[id])
  {
    order, wants, skipped := [], map[], 0;
    for i := 0 to |rows|
      invariant order == Order(rows[..i]) && skipped == |Filter(Skips(), rows[..i])|
      invariant forall id :: id in wants <==> WantOf(rows[..i], id).Some?
      invariant forall id :: id in wants ==> WantOf(rows[..i], id) == Some(wants[id])
    {
      var r := rows[i];
      assert rows[..i + 1][..i] == rows[..i] && rows[..i + 1] == rows[..i] + [r];
      FilterSnoc(Skips(), rows[..i], r);
      if !Counts(r) {
        skipped := skipped + 1;
      } else {
        var id, mark := r.ids[0], OutcomeOf(r.marker).value;
        WantIsTheRows(rows[..i], id);
        if id !in wants {
          wants := wants[id := Want(mark, r, false)];
          order := order + [id];
        } else if wants[id].mark != mark {
          wants := wants[id := wants[id].(conflict := true)];
        }
      }
    }
    assert rows[..|rows|] == rows;
  }

  /** `buildDebtResolution`'s attribution loop. */
  method Attribute(hist: seq<Record>) returns (reviewers: seq<string>, model: string)
    ensures reviewers == Reviewers(hist) && model == LastModel(hist)
  {
    reviewers, model := [], "";
    for i := 0 to |hist|
      invariant reviewers == Reviewers(hist[..i]) && model == LastModel(hist[..i])
    {
      assert hist[..i + 1][..i] == hist[..i];
      var r := hist[i];
      if !IsSettled(r.status) {
        var before := reviewers;
        for j := 0 to |r.reviewers|
          invariant reviewers == Union(before, r.reviewers[..j])
        {
          assert r.reviewers[..j + 1][..j] == r.reviewers[..j];
          if r.reviewers[j] !in reviewers {
            reviewers := reviewers + [r.reviewers[j]];
          }
        }
        assert r.reviewers[..|r.reviewers|] == r.reviewers;
        if r.model != "" {
          model := r.model;
        }
      }
    }
    assert hist[..|hist|] == hist;
  }

  /** The id loop: skip conflicts, absent ids and recorded outcomes; build, bound and append the rest. */
  method SyncLoop(env: Env, wording: Row -> string, ghost rows: seq<Row>, order: seq<string>, wants: map<string, Want>, start: seq<Record>,
                  ghost decide: Decider, ghost inEffect: string -> bool)
    returns (store: seq<Record>, stopped: bool, t: Tally)
    requires decide == Deciding(env, wording, rows, start) && inEffect == AlreadyInEffect(env, rows, start)
    requires forall id :: id in order ==> id in wants && WantOf(rows, id) == Some(wants[id])
    ensures AppendState(store, stopped) == AppendIds(decide, env.breaks, start, order)
    ensures !stopped ==> t.appended == |store| - |start| && t.recorded == |Filter(inEffect, order)|
    ensures !stopped ==> t.appended + t.recorded + t.skipped == |order|
  {
    store, stopped, t := start, false, Tally(0, 0, 0);
    for i := 0 to |order|
      invariant AppendIds(decide, env.breaks, start, order[..i]) == AppendState(store, false) && !stopped
      invariant t.appended == |store| - |start| && t.recorded == |Filter(inEffect, order[..i])|
      invariant t.appended + t.recorded + t.skipped == i
    {
      var id := order[i];
      LoopStep(inEffect, order, i);
      var rec, noop := DecideId(env, wording, rows, start, id, wants[id], decide, inEffect);
      if rec.Some? {
        if env.breaks(id) {
          StoppedStays(decide, env.breaks, start, order, i + 1);
          return store, true, t;
        }
        store := store + [rec.value];
        t := t.(appended := t.appended + 1);
      } else if noop {
        t := t.(recorded := t.recorded + 1);
      } else {
        t := t.(skipped := t.skipped + 1);
      }
    }
    assert order[..|order|] == order;
  }

  lemma LoopStep(p: string -> bool, order: seq<string>, i: nat)
    requires i < |order|
    ensures order[..i + 1][..i] == order[..i] && order[..i + 1][i] == order[i] && |order[..i + 1]| == i + 1
    ensures |Filter(p, order[..i + 1])| == |Filter(p, order[..i])| + if p(order[i]) then 1 else 0
  {
    assert order[..i + 1] == order[..i] + [order[i]];
    FilterSnoc(p, order[..i], order[i]);
  }

  /** `syncDebtOutcomes`: read the rows, then work the wanted ids. */
  method SyncDebtOutcomes(env: Env, wording: Row -> string, rows: seq<Row>, start: seq<Record>) returns (store: seq<Record>, stopped: bool, t: Tally)
    ensures AppendState(store, stopped) == Sync(env, wording, rows, start)
    ensures !stopped ==> TallyOf(t, env, rows, start, store)
  {
    var order, wants, skipped := CollectWants(rows);
    forall id | id in order ensures id in wants { WantIsTheRows(rows, id); }
    store, stopped, t := SyncLoop(env, wording, rows, order, wants, start, Deciding(env, wording, rows, start), AlreadyInEffect(env, rows, start));
    t := t.(skipped := t.skipped + skipped);
  }

  method DecideId(env: Env, wording: Row -> string, ghost rows: seq<Row>, start: seq<Record>, id: string, w: Want,
                  ghost decide: Decider, ghost inEffect: string -> bool)
    returns (rec: Option<Record>, noop: bool)
    requires decide == Deciding(env, wording, rows, start) && inEffect == AlreadyInEffect(env, rows, start)
    requires WantOf(rows, id) == Some(w)
    ensures rec == decide(id) && noop == inEffect(id) && !(rec.Some? && noop)
  {
    rec, noop := DecideOne(env, wording, History(start, id), id, w);
  }

  method DecideOne(env: Env, wording: Row -> string, hist: seq<Record>, id: string, w: Want) returns (rec: Option<Record>, noop: bool)
    ensures rec == Decision(env, wording, hist, id, w)
    ensures noop == InEffect(env.time, hist, w)
  {
    if w.conflict || hist == [] {
      return None, false;
    }
    var orig := FoldGroup(env.time, hist);
    for i := 0 to |hist|
      invariant forall j :: 0 <= j < i ==> hist[j].status != Marked(w.mark)
    {
      if hist[i].status == Marked(w.mark) {
        return None, orig.status == Marked(w.mark);
      }
    }
    var reviewers, model := Attribute(hist);
    var reason := SyncReason(w, wording);
    if IsSettled(orig.status) || orig.file == "" || !Explained(env, orig, w.mark, reason) {
      return None, false;
    }
    var now := env.now(id);
    var r := orig.(status := Marked(w.mark), timestamp := now, resolvedAt := Some(now),
                   justification := Justified(orig, w.mark, reason), occurrences := 0, firstSeen := "", countedThrough := "");
    if reviewers != [] {
      r := r.(reviewers := reviewers);
    }
    if model != "" {
      r := r.(model := model);
    }
    if !env.fits(Undated(r)) {
      return None, false;
    }
    return Some(r), false;
  }
}
