/**
 What `atcr debt sync-outcomes` owes its table, said of rows and records: which record a
 `[x]` or a `[-]` row appends, for which findings, and for which none.
 */
module SyncedRows {
  import opened Basics
  import opened Orders
  import opened DebtFold
  import opened DebtRecord
  import opened AppendRun
  import opened SyncOutcomes
  import opened FindingFold

  // ------------------------------------------------------------------- the rows

  /** A well-formed row for this one id that says it was fixed. */
  predicate Ticks(r: Row, id: string) { !r.malformed && r.ids == [id] && r.marker == Ticked }

  /** A well-formed row for this one id that says there was nothing to fix. */
  predicate Dashes(r: Row, id: string) { !r.malformed && r.ids == [id] && r.marker == Dashed }

  ghost predicate TickedOnly(rows: seq<Row>, id: string) {
    (exists i :: 0 <= i < |rows| && Ticks(rows[i], id)) && (forall i :: 0 <= i < |rows| ==> !Dashes(rows[i], id))
  }

  /** Row `f` is the first that dashes the id, and none ticks it. */
  ghost predicate DashedFrom(rows: seq<Row>, id: string, f: nat) {
    && f < |rows| && Dashes(rows[f], id)
    && (forall i :: 0 <= i < f ==> !Dashes(rows[i], id))
    && (forall i :: 0 <= i < |rows| ==> !Ticks(rows[i], id))
  }

  // ----------------------------------------------------------------- the record

  predicate Unsettled(s: Status) { s != Marked(Resolved) && s != Marked(Wontfix) && s != Marked(Unreproducible) }

  /** The reviewers the unsettled records name, as they stand there. */
  function Namings(own: seq<Record>): seq<string> {
    if own == [] then []
    else
      var before, r := Namings(own[..|own| - 1]), own[|own| - 1];
      if Unsettled(r.status) then before + r.reviewers else before
  }

  /** Record `k` is the last unsettled one that names a model. */
  ghost predicate NamesLastModel(own: seq<Record>, k: nat) {
    && k < |own| && Unsettled(own[k].status) && own[k].model != ""
    && forall j :: k < j < |own| && Unsettled(own[j].status) ==> own[j].model == ""
  }

  ghost predicate NoModel(own: seq<Record>) {
    forall j :: 0 <= j < |own| && Unsettled(own[j].status) ==> own[j].model == ""
  }

  /** Credit goes to everyone who raised it unsettled, and to the last model to; without any, to whom the finding shows. */
  ghost predicate Credited(own: seq<Record>, shown: Record, rec: Record) {
    && (if Namings(own) == [] then rec.reviewers == shown.reviewers else InFirstOrder(rec.reviewers, Namings(own)))
    && (if NoModel(own) then rec.model == shown.model else exists k: nat :: NamesLastModel(own, k) && rec.model == own[k].model)
  }

  /** The finding as shown, closed now as `mark` in these words, counting nothing. */
  ghost predicate ClosesAs(own: seq<Record>, shown: Record, mark: Mark, words: string, now: string, rec: Record) {
    && rec.status == Marked(mark) && rec.timestamp == now && rec.resolvedAt == Some(now)
    && rec.justification == (if words == "" then shown.justification else words)
    && rec.occurrences == 0 && rec.firstSeen == "" && rec.countedThrough == ""
    && Credited(own, shown, rec)
    && rec.id == shown.id && rec.severity == shown.severity && rec.file == shown.file && rec.line == shown.line
    && rec.category == shown.category && rec.estMinutes == shown.estMinutes && rec.origin == shown.origin
    && rec.confidence == shown.confidence && rec.feedback == shown.feedback
  }

  /** The finding is known, unsettled, located, and never recorded as `mark`. */
  ghost predicate MayClose(time: Times, own: seq<Record>, mark: Mark) {
    && own != [] && Unsettled(Folded(time, own).status) && Folded(time, own).file != ""
    && forall i :: 0 <= i < |own| ==> own[i].status != Marked(mark)
  }

  ghost predicate ClosesTicked(env: Env, rows: seq<Row>, own: seq<Record>, id: string, rec: Record) {
    TickedOnly(rows, id) && MayClose(env.time, own, Resolved) && ClosesAs(own, Folded(env.time, own), Resolved, "", env.now(id), rec)
  }

  ghost predicate ClosesDashed(env: Env, wording: Row -> string, rows: seq<Row>, own: seq<Record>, id: string, f: nat, rec: Record) {
    && DashedFrom(rows, id, f) && MayClose(env.time, own, Unreproducible) && env.explains(wording(rows[f]))
    && ClosesAs(own, Folded(env.time, own), Unreproducible, wording(rows[f]), env.now(id), rec)
  }

  /** `rec` is what the rows call for: a fix where every row ticks, a dismissal with the first row's words where every row dashes. */
  ghost predicate Closes(env: Env, wording: Row -> string, rows: seq<Row>, own: seq<Record>, id: string, rec: Record) {
    ClosesTicked(env, rows, own, id, rec) || exists f: nat :: ClosesDashed(env, wording, rows, own, id, f, rec)
  }

  // ------------------------------------------------------------------ credit

  /** Naming one more keeps `good` of the list and the namings. */
  ghost predicate KeptBySnoc(good: (seq<string>, seq<string>) -> bool, rs: seq<string>, names: seq<string>, x: string) {
    good(rs, names) ==> good(if x in rs then rs else rs + [x], names + [x])
  }

  lemma {:induction false} UnionKeeps(good: (seq<string>, seq<string>) -> bool, rs: seq<string>, names: seq<string>, more: seq<string>)
    requires good(rs, names) && forall r, n, x :: KeptBySnoc(good, r, n, x)
    ensures good(Union(rs, more), names + more)
  {
    if more == [] {
      assert names + more == names;
    } else {
      var pre, x := more[..|more| - 1], more[|more| - 1];
      UnionKeeps(good, rs, names, pre);
      assert KeptBySnoc(good, Union(rs, pre), names + pre, x);
      assert names + more == (names + pre) + [x];
    }
  }

  lemma UnionInFirstOrder(rs: seq<string>, names: seq<string>, more: seq<string>)
    requires InFirstOrder(rs, names)
    ensures InFirstOrder(Union(rs, more), names + more)
  {
    ghost var good := (r: seq<string>, n: seq<string>) => InFirstOrder(r, n);
    forall r, n, x ensures KeptBySnoc(good, r, n, x) {
      if good(r, n) { FirstOrderSnoc(r, n, x); }
    }
    UnionKeeps(good, rs, names, more);
  }

  lemma {:induction false} ReviewersInFirstOrder(own: seq<Record>)
    ensures InFirstOrder(Reviewers(own), Namings(own))
  {
    if own != [] {
      var n := |own| - 1;
      ReviewersInFirstOrder(own[..n]);
      UnionInFirstOrder(Reviewers(own[..n]), Namings(own[..n]), own[n].reviewers);
    }
  }

  lemma {:induction false} LastModelIsNamed(own: seq<Record>)
    ensures LastModel(own) == "" <==> NoModel(own)
    ensures LastModel(own) != "" ==> exists k: nat :: NamesLastModel(own, k) && LastModel(own) == own[k].model
  {
    if own != [] {
      var n := |own| - 1;
      var pre := own[..n];
      LastModelIsNamed(pre);
      assert forall j :: 0 <= j < n ==> own[j] == pre[j];
      if Unsettled(own[n].status) && own[n].model != "" {
        assert NamesLastModel(own, n);
      } else if LastModel(pre) != "" {
        var k: nat :| NamesLastModel(pre, k) && LastModel(pre) == pre[k].model;
        assert NamesLastModel(own, k);
      }
    }
  }

  lemma ResolutionCredits(own: seq<Record>, shown: Record, mark: Mark, reason: string, now: string)
    ensures Credited(own, shown, ResolutionOf(own, shown, mark, reason, now))
  {
    ReviewersInFirstOrder(own);
    LastModelIsNamed(own);
    var rs := Reviewers(own);
    assert rs == [] <==> Namings(own) == [] by {
      if rs != [] { assert rs[0] in Namings(own); }
      if Namings(own) != [] { assert Namings(own)[0] in rs; }
    }
  }

  lemma ResolutionCloses(own: seq<Record>, shown: Record, mark: Mark, reason: string, now: string)
    requires mark == Resolved || mark == Unreproducible
    ensures ClosesAs(own, shown, mark, reason, now, ResolutionOf(own, shown, mark, reason, now))
  {
    ResolutionCredits(own, shown, mark, reason, now);
  }

  // ------------------------------------------------------------- from row to record

  /** The row a wanted id takes its words from is its first; without conflict all its rows agree. */
  lemma {:induction false} WantIsFirst(rows: seq<Row>, id: string) returns (f: nat)
    requires WantOf(rows, id).Some?
    ensures f < |rows| && rows[f] == WantOf(rows, id).value.first
    ensures Names(rows[f], id) && forall i :: 0 <= i < f ==> !Names(rows[i], id)
  {
    var n := |rows| - 1;
    var pre := rows[..n];
    if WantOf(pre, id).Some? {
      f := WantIsFirst(pre, id);
      assert forall i :: 0 <= i <= f ==> rows[i] == pre[i];
    } else {
      f := n;
      WantIsTheRows(pre, id);
      assert forall i :: 0 <= i < n ==> rows[i] == pre[i];
    }
  }

  lemma NamesIsEither(r: Row, id: string)
    ensures Names(r, id) <==> Ticks(r, id) || Dashes(r, id)
    ensures Ticks(r, id) ==> OutcomeOf(r.marker) == Some(Resolved)
    ensures Dashes(r, id) ==> OutcomeOf(r.marker) == Some(Unreproducible)
  {
  }

  /** What a want without conflict says of the rows. */
  lemma WantSaysRows(rows: seq<Row>, id: string, w: Want)
    requires WantOf(rows, id) == Some(w) && !w.conflict
    ensures (w.mark == Resolved && TickedOnly(rows, id)) ||
            (w.mark == Unreproducible && exists f: nat :: DashedFrom(rows, id, f) && rows[f] == w.first)
  {
    WantIsTheRows(rows, id);
    var f := WantIsFirst(rows, id);
    forall i | 0 <= i < |rows|
      ensures Names(rows[i], id) <==> Ticks(rows[i], id) || Dashes(rows[i], id)
      ensures Ticks(rows[i], id) ==> w.mark == Resolved
      ensures Dashes(rows[i], id) ==> w.mark == Unreproducible
    {
      NamesIsEither(rows[i], id);
    }
    if w.mark == Unreproducible { assert DashedFrom(rows, id, f); }
  }

  /** What the rows say is what the id is wanted with. */
  lemma RowsSayWant(rows: seq<Row>, id: string)
    ensures TickedOnly(rows, id) ==> WantOf(rows, id).Some? && !WantOf(rows, id).value.conflict && WantOf(rows, id).value.mark == Resolved
    ensures forall f: nat :: DashedFrom(rows, id, f) ==>
              WantOf(rows, id).Some? && !WantOf(rows, id).value.conflict && WantOf(rows, id).value.mark == Unreproducible && WantOf(rows, id).value.first == rows[f]
  {
    WantIsTheRows(rows, id);
    forall i | 0 <= i < |rows|
      ensures Names(rows[i], id) <==> Ticks(rows[i], id) || Dashes(rows[i], id)
      ensures Ticks(rows[i], id) ==> OutcomeOf(rows[i].marker) == Some(Resolved)
      ensures Dashes(rows[i], id) ==> OutcomeOf(rows[i].marker) == Some(Unreproducible)
    {
      NamesIsEither(rows[i], id);
    }
    forall f: nat | DashedFrom(rows, id, f) ensures WantOf(rows, id).Some? && WantOf(rows, id).value.first == rows[f] {
      assert Names(rows[f], id);
      var g := WantIsFirst(rows, id);
      assert g == f;
    }
  }

  lemma UnsettledIs(s: Status)
    ensures IsSettled(s) <==> !Unsettled(s)
  {
  }

  /** What a record of this mark says, in words: nothing for a fix, the row's words otherwise. */
  function WordsFor(wording: Row -> string, w: Want): string { if w.mark == Resolved then "" else wording(w.first) }

  ghost predicate Settles(env: Env, wording: Row -> string, own: seq<Record>, id: string, w: Want, rec: Record) {
    ClosesAs(own, Folded(env.time, own), w.mark, WordsFor(wording, w), env.now(id), rec)
  }

  ghost predicate MaySettle(env: Env, wording: Row -> string, own: seq<Record>, w: Want) {
    MayClose(env.time, own, w.mark) && (w.mark == Unreproducible ==> env.explains(wording(w.first)))
  }

  lemma DecisionIs(env: Env, wording: Row -> string, own: seq<Record>, id: string, w: Want)
    requires !w.conflict && (w.mark == Resolved || w.mark == Unreproducible) && own != []
    ensures var d, rec := Decision(env, wording, own, id, w), ResolutionOf(own, Folded(env.time, own), w.mark, WordsFor(wording, w), env.now(id));
            d == if MaySettle(env, wording, own, w) && env.fits(Undated(rec)) then Some(rec) else None
  {
    UnsettledIs(Folded(env.time, own).status);
    assert SyncReason(w, wording) == WordsFor(wording, w);
    assert RecordedAs(own, w.mark) <==> exists i :: 0 <= i < |own| && own[i].status == Marked(w.mark);
  }

  /** A decision on one history. */
  lemma DecisionCloses(env: Env, wording: Row -> string, own: seq<Record>, id: string, w: Want)
    requires !w.conflict && (w.mark == Resolved || w.mark == Unreproducible)
    ensures var d := Decision(env, wording, own, id, w);
            && (d.Some? ==> MaySettle(env, wording, own, w) && env.fits(Undated(d.value)) && Settles(env, wording, own, id, w, d.value))
            && (MaySettle(env, wording, own, w) && (forall rec :: Settles(env, wording, own, id, w, rec) ==> env.fits(Undated(rec))) ==> d.Some?)
  {
    if own != [] {
      DecisionIs(env, wording, own, id, w);
      var rec := ResolutionOf(own, Folded(env.time, own), w.mark, WordsFor(wording, w), env.now(id));
      ResolutionCloses(own, Folded(env.time, own), w.mark, WordsFor(wording, w), env.now(id));
      assert Settles(env, wording, own, id, w, rec);
    }
  }

  /** Every record decided for an id is one the rows call for. */
  lemma DecidedIsCalledFor(env: Env, wording: Row -> string, rows: seq<Row>, start: seq<Record>, id: string)
    requires Deciding(env, wording, rows, start)(id).Some?
    ensures var rec := Deciding(env, wording, rows, start)(id).value;
            rec.id == id && env.fits(Undated(rec)) && Closes(env, wording, rows, RecordsOf(start, id), id, rec)
  {
    var w, own := WantOf(rows, id).value, RecordsOf(start, id);
    RecordsAreGroup(start, id);
    DecidedIsOwn(env, wording, rows, start, id);
    WantSaysRows(rows, id, w);
    DecisionCloses(env, wording, own, id, w);
    var rec := Deciding(env, wording, rows, start)(id).value;
    if w.mark == Unreproducible {
      var f: nat :| DashedFrom(rows, id, f) && rows[f] == w.first;
      assert ClosesDashed(env, wording, rows, own, id, f, rec);
    }
  }

  /** What is called for and fits is decided. */
  lemma CalledForIsDecided(env: Env, wording: Row -> string, rows: seq<Row>, start: seq<Record>, id: string)
    requires exists rec :: Closes(env, wording, rows, RecordsOf(start, id), id, rec)
    requires forall rec :: Closes(env, wording, rows, RecordsOf(start, id), id, rec) ==> env.fits(Undated(rec))
    ensures Deciding(env, wording, rows, start)(id).Some?
  {
    var own := RecordsOf(start, id);
    RecordsAreGroup(start, id);
    RowsSayWant(rows, id);
    var rec :| Closes(env, wording, rows, own, id, rec);
    var w := WantOf(rows, id).value;
    DecisionCloses(env, wording, own, id, w);
    if TickedOnly(rows, id) {
      forall r | Settles(env, wording, own, id, w, r) ensures env.fits(Undated(r)) {
        assert ClosesTicked(env, rows, own, id, r);
      }
    } else {
      var f: nat :| ClosesDashed(env, wording, rows, own, id, f, rec);
      forall r | Settles(env, wording, own, id, w, r) ensures env.fits(Undated(r)) {
        assert ClosesDashed(env, wording, rows, own, id, f, r);
      }
    }
  }

  // -------------------------------------------------------------------- the run

  lemma {:induction false} WrittenMembers(decide: Decider, ids: seq<string>, i: nat)
    requires i < |Written(decide, ids)|
    ensures exists id :: id in ids && decide(id) == Some(Written(decide, ids)[i])
  {
    var n := |ids| - 1;
    if i < |Written(decide, ids[..n])| {
      WrittenMembers(decide, ids[..n], i);
    } else {
      assert ids[n] in ids;
    }
  }

  /** `rec` is called for by its rows, fits, and is the one record its finding gained. */
  ghost predicate GainedBy(env: Env, wording: Row -> string, rows: seq<Row>, start: seq<Record>, store: seq<Record>, rec: Record) {
    && Closes(env, wording, rows, RecordsOf(start, rec.id), rec.id, rec)
    && env.fits(Undated(rec))
    && RecordsOf(store, rec.id) == RecordsOf(start, rec.id) + [rec]
  }

  lemma DecidedIsGained(env: Env, wording: Row -> string, rows: seq<Row>, start: seq<Record>, done: seq<string>, id: string)
    requires Distinct(done) && id in done && Deciding(env, wording, rows, start)(id).Some?
    ensures var decide := Deciding(env, wording, rows, start); GainedBy(env, wording, rows, start, start + Written(decide, done), decide(id).value)
  {
    var decide := Deciding(env, wording, rows, start);
    DecidesOwnRecords(env, wording, rows, start);
    DecidedIsCalledFor(env, wording, rows, start, id);
    HistoryAfter(decide, start, done, id);
    RecordsAreGroup(start, id);
    RecordsAreGroup(start + Written(decide, done), id);
  }

  lemma WrittenAreGained(env: Env, wording: Row -> string, rows: seq<Row>, start: seq<Record>, done: seq<string>, i: nat)
    requires Distinct(done) && i < |Written(Deciding(env, wording, rows, start), done)|
    ensures var more := Written(Deciding(env, wording, rows, start), done); GainedBy(env, wording, rows, start, start + more, more[i])
  {
    var decide := Deciding(env, wording, rows, start);
    WrittenMembers(decide, done, i);
    var id :| id in done && decide(id) == Some(Written(decide, done)[i]);
    DecidedIsGained(env, wording, rows, start, done, id);
  }

  /** A run only appends, at most once per finding, and each appended record is one its rows call for. */
  lemma SyncAppendsOnlyCalledFor(env: Env, wording: Row -> string, rows: seq<Row>, start: seq<Record>)
    ensures var store := Sync(env, wording, rows, start).store;
            && |store| >= |start| && store[..|start|] == start
            && forall i :: |start| <= i < |store| ==> GainedBy(env, wording, rows, start, store, store[i])
  {
    var decide := Deciding(env, wording, rows, start);
    var k := RunIsPrefix(decide, env.breaks, start, Order(rows));
    OrderIsDistinct(rows);
    var done := Order(rows)[..k];
    forall i | 0 <= i < |Written(decide, done)| ensures GainedBy(env, wording, rows, start, start + Written(decide, done), Written(decide, done)[i]) {
      WrittenAreGained(env, wording, rows, start, done, i);
    }
  }

  /** The append loop reaches every id before which, and at which, no append breaks. */
  lemma {:induction false} RunReaches(decide: Decider, breaks: string -> bool, start: seq<Record>, ids: seq<string>, m: nat) returns (k: nat)
    requires m <= |ids| && forall i :: 0 <= i < m ==> !breaks(ids[i])
    ensures m <= k <= |ids| && AppendIds(decide, breaks, start, ids).store == start + Written(decide, ids[..k])
    ensures |ids| == m ==> !AppendIds(decide, breaks, start, ids).stopped
  {
    var n := |ids| - 1;
    if ids == [] {
      k := 0;
    } else if m == |ids| {
      k := RunReaches(decide, breaks, start, ids[..n], n);
      assert ids[..n][..k] == ids[..n] && ids[..m] == ids;
      k := m;
    } else {
      k := RunReaches(decide, breaks, start, ids[..n], m);
      assert ids[..n][..k] == ids[..k];
      if !AppendIds(decide, breaks, start, ids[..n]).stopped && (decide(ids[n]).None? || !breaks(ids[n])) {
        k := RunIsPrefix(decide, breaks, start, ids);
        assert ids[..|ids|] == ids;
      }
    }
  }

  lemma {:induction false} OrderGrows(rows: seq<Row>, k: nat)
    requires k <= |rows|
    ensures Order(rows[..k]) <= Order(rows)
    decreases |rows|
  {
    if k == |rows| {
      assert rows[..k] == rows;
    } else {
      var n := |rows| - 1;
      OrderGrows(rows[..n], k);
      assert rows[..n][..k] == rows[..k];
    }
  }

  lemma {:induction false} OrderMembers(rows: seq<Row>, x: string)
    requires x in Order(rows)
    ensures exists i :: 0 <= i < |rows| && Names(rows[i], x)
  {
    WantIsTheRows(rows, x);
  }

  /** Row `f` counts for its id: it ticks or dashes it. */
  predicate Marks(r: Row, id: string) { Ticks(r, id) || Dashes(r, id) }

  lemma HeadDoesNotBreak(env: Env, rows: seq<Row>, f: nat, i: nat)
    requires f < |rows| && i < |Order(rows[..f + 1])|
    requires forall j, x :: 0 <= j <= f && Marks(rows[j], x) ==> !env.breaks(x)
    ensures !env.breaks(Order(rows[..f + 1])[i])
  {
    var x := Order(rows[..f + 1])[i];
    OrderMembers(rows[..f + 1], x);
    var j :| 0 <= j < f + 1 && Names(rows[..f + 1][j], x);
    NamesIsEither(rows[j], x);
    assert Marks(rows[j], x);
  }

  /** The run gets past the id a row marks, if no id marked up to there breaks. */
  lemma RunReachesRow(env: Env, wording: Row -> string, rows: seq<Row>, start: seq<Record>, id: string, f: nat) returns (k: nat)
    requires f < |rows| && Marks(rows[f], id)
    requires forall i, x :: 0 <= i <= f && Marks(rows[i], x) ==> !env.breaks(x)
    ensures k <= |Order(rows)| && id in Order(rows)[..k]
    ensures Sync(env, wording, rows, start).store == start + Written(Deciding(env, wording, rows, start), Order(rows)[..k])
  {
    var head := Order(rows[..f + 1]);
    OrderGrows(rows, f + 1);
    forall i | 0 <= i < |head| ensures !env.breaks(Order(rows)[i]) {
      HeadDoesNotBreak(env, rows, f, i);
      assert head[i] == Order(rows)[i];
    }
    k := RunReaches(Deciding(env, wording, rows, start), env.breaks, start, Order(rows), |head|);
    NamesIsEither(rows[f], id);
    assert rows[..f + 1][f] == rows[f];
    WantIsTheRows(rows[..f + 1], id);
    var p :| 0 <= p < |head| && head[p] == id;
    assert Order(rows)[..k][p] == id;
  }

  /**
   An id the rows close, whose record fits, and up to whose first marking row no marked id
   breaks the store, gains exactly one record, the one its rows call for.
   */
  lemma SyncAppendsCalledFor(env: Env, wording: Row -> string, rows: seq<Row>, start: seq<Record>, id: string, f: nat)
    requires f < |rows| && Marks(rows[f], id)
    requires forall i, x :: 0 <= i <= f && Marks(rows[i], x) ==> !env.breaks(x)
    requires exists rec :: Closes(env, wording, rows, RecordsOf(start, id), id, rec)
    requires forall rec :: Closes(env, wording, rows, RecordsOf(start, id), id, rec) ==> env.fits(Undated(rec))
    ensures var store := Sync(env, wording, rows, start).store;
            exists rec :: Closes(env, wording, rows, RecordsOf(start, id), id, rec) && RecordsOf(store, id) == RecordsOf(start, id) + [rec]
  {
    var decide := Deciding(env, wording, rows, start);
    var k := RunReachesRow(env, wording, rows, start, id, f);
    OrderIsDistinct(rows);
    CalledForIsDecided(env, wording, rows, start, id);
    DecidedIsGained(env, wording, rows, start, Order(rows)[..k], id);
    DecidedIsOwn(env, wording, rows, start, id);
  }

  /** An id for which the rows call for nothing, as when they disagree, gains nothing. */
  lemma SyncLeavesOthersAlone(env: Env, wording: Row -> string, rows: seq<Row>, start: seq<Record>, id: string)
    requires forall rec :: !Closes(env, wording, rows, RecordsOf(start, id), id, rec)
    ensures RecordsOf(Sync(env, wording, rows, start).store, id) == RecordsOf(start, id)
  {
    var decide := Deciding(env, wording, rows, start);
    var k := RunIsPrefix(decide, env.breaks, start, Order(rows));
    if decide(id).Some? {
      DecidedIsCalledFor(env, wording, rows, start, id);
      assert false;
    }
    OrderIsDistinct(rows);
    DecidesOwnRecords(env, wording, rows, start);
    HistoryAfter(decide, start, Order(rows)[..k], id);
    RecordsAreGroup(start, id);
    RecordsAreGroup(Sync(env, wording, rows, start).store, id);
  }
  // ------------------------------------------------------- order, and the no-ops

  /** The ids the rows mark, as they stand in the table. */
  function MarkedIds(rows: seq<Row>): seq<string> {
    if rows == [] then []
    else
      var before, r := MarkedIds(rows[..|rows| - 1]), rows[|rows| - 1];
      if !r.malformed && |r.ids| == 1 && (r.marker == Ticked || r.marker == Dashed) then before + [r.ids[0]] else before
  }

  lemma {:induction false} OrderIsFirstMarked(rows: seq<Row>)
    ensures InFirstOrder(Order(rows), MarkedIds(rows))
  {
    if rows != [] {
      var n := |rows| - 1;
      OrderIsFirstMarked(rows[..n]);
      if Counts(rows[n]) { FirstOrderSnoc(Order(rows[..n]), MarkedIds(rows[..n]), rows[n].ids[0]); }
    }
  }

  lemma {:induction false} WrittenInOrder(decide: Decider, ids: seq<string>, i: nat, j: nat)
    requires OwnRecords(decide) && i < j < |Written(decide, ids)|
    ensures exists a, b :: 0 <= a < b < |ids| && ids[a] == Written(decide, ids)[i].id && ids[b] == Written(decide, ids)[j].id
  {
    var n := |ids| - 1;
    var pre := ids[..n];
    if j < |Written(decide, pre)| {
      WrittenInOrder(decide, pre, i, j);
      var a, b :| 0 <= a < b < n && pre[a] == Written(decide, pre)[i].id && pre[b] == Written(decide, pre)[j].id;
      assert ids[a] == pre[a] && ids[b] == pre[b];
    } else {
      WrittenMembers(decide, pre, i);
      var id :| id in pre && decide(id) == Some(Written(decide, pre)[i]);
      var a :| 0 <= a < n && pre[a] == id;
      assert ids[a] == id && ids[n] == Written(decide, ids)[j].id;
    }
  }

  /** Each of these records stands behind those of findings marked before its own. */
  ghost predicate StandsByMark(rows: seq<Row>, more: seq<Record>) {
    forall i, j :: 0 <= i < j < |more| ==> MetBefore(MarkedIds(rows), more[i].id, more[j].id)
  }

  /** The appended records stand in the order in which the table first marks their findings. */
  lemma SyncAppendsInOrder(env: Env, wording: Row -> string, rows: seq<Row>, start: seq<Record>)
    ensures exists more :: Sync(env, wording, rows, start).store == start + more && StandsByMark(rows, more)
  {
    var decide := Deciding(env, wording, rows, start);
    var k := RunIsPrefix(decide, env.breaks, start, Order(rows));
    DecidesOwnRecords(env, wording, rows, start);
    WrittenStandByMark(decide, rows, k);
  }

  lemma WrittenStandByMark(decide: Decider, rows: seq<Row>, k: nat)
    requires OwnRecords(decide) && k <= |Order(rows)|
    ensures StandsByMark(rows, Written(decide, Order(rows)[..k]))
  {
    var more := Written(decide, Order(rows)[..k]);
    forall i, j | 0 <= i < j < |more| ensures MetBefore(MarkedIds(rows), more[i].id, more[j].id) { WrittenMarked(decide, rows, k, i, j); }
  }

  lemma WrittenMarked(decide: Decider, rows: seq<Row>, k: nat, i: nat, j: nat)
    requires OwnRecords(decide) && k <= |Order(rows)| && i < j < |Written(decide, Order(rows)[..k])|
    ensures var more := Written(decide, Order(rows)[..k]); MetBefore(MarkedIds(rows), more[i].id, more[j].id)
  {
    var order := Order(rows);
    WrittenInOrder(decide, order[..k], i, j);
    var a, b :| 0 <= a < b < k && order[..k][a] == Written(decide, order[..k])[i].id && order[..k][b] == Written(decide, order[..k])[j].id;
    OrderIsFirstMarked(rows);
    FirstOrderMet(order, MarkedIds(rows), a, b);
  }

  lemma FirstOrderMet(rs: seq<string>, all: seq<string>, a: nat, b: nat)
    requires InFirstOrder(rs, all) && a < b < |rs|
    ensures MetBefore(all, rs[a], rs[b])
  {
  }

  /** The rows agree on an outcome the finding has recorded and still shows. */
  ghost predicate AlreadyShows(time: Times, rows: seq<Row>, own: seq<Record>, id: string) {
    || (TickedOnly(rows, id) && Records(time, own, Resolved))
    || ((exists f: nat :: DashedFrom(rows, id, f)) && Records(time, own, Unreproducible))
  }

  ghost predicate Records(time: Times, own: seq<Record>, mark: Mark) {
    own != [] && Folded(time, own).status == Marked(mark) && exists i :: 0 <= i < |own| && own[i].status == Marked(mark)
  }

  /** An id is reported as already recorded iff that is so. */
  lemma RecordedIff(env: Env, rows: seq<Row>, start: seq<Record>, id: string)
    ensures AlreadyInEffect(env, rows, start)(id) <==> AlreadyShows(env.time, rows, RecordsOf(start, id), id)
  {
    RecordsAreGroup(start, id);
    RowsSayWant(rows, id);
    if WantOf(rows, id).Some? && !WantOf(rows, id).value.conflict { WantSaysRows(rows, id, WantOf(rows, id).value); }
  }
}
