/**
 What the two listing commands owe their reader, key by key: which findings, in which
 order, and which a cap leaves out. `debt list` and `debt resolve` are proved against it.
 */
module Listings {
  import opened Basics
  import opened Orders
  import opened DebtFold
  import opened DebtRecord
  import opened DebtQuery

  // --------------------------------------------------------- bounded listings

  ghost predicate ComesFirst<T(!new)>(s: seq<T>, x: T, y: T) { exists i, j :: 0 <= i < j < |s| && s[i] == x && s[j] == y }

  /** `a` may stand before `b`; if either order would do, `a` is the one met first. */
  ghost predicate Precedes<T(!new)>(all: seq<T>, inOrder: (T, T) -> bool, a: T, b: T) {
    inOrder(a, b) && (inOrder(b, a) ==> ComesFirst(all, a, b))
  }

  /** `rows` are the members of `all` that pass, in order, each once; past a cap only ones that come after every row are missing. */
  ghost predicate Lists<T(!new)>(all: seq<T>, passes: T -> bool, inOrder: (T, T) -> bool, limit: int, rows: seq<T>) {
    && Distinct(rows)
    && (forall r :: r in rows ==> r in all && passes(r))
    && (forall i, j :: 0 <= i < j < |rows| ==> Precedes(all, inOrder, rows[i], rows[j]))
    && (limit > 0 ==> |rows| <= limit)
    && (forall x :: x in all && passes(x) && x !in rows ==> LeftOut(all, inOrder, limit, rows, x))
  }

  ghost predicate LeftOut<T(!new)>(all: seq<T>, inOrder: (T, T) -> bool, limit: int, rows: seq<T>, x: T) {
    |rows| == limit && forall i :: 0 <= i < |rows| ==> Precedes(all, inOrder, rows[i], x)
  }

  lemma {:induction false} FilterKeepsOrder<T(!new)>(p: T -> bool, s: seq<T>, i: nat, j: nat)
    requires i < j < |s| && p(s[i]) && p(s[j])
    ensures ComesFirst(Filter(p, s), s[i], s[j])
  {
    var tail := s[1..];
    var kept := Filter(p, tail);
    if i == 0 {
      FilterIn(p, tail, s[j]);
      assert tail[j - 1] == s[j];
      var k :| 0 <= k < |kept| && kept[k] == s[j];
      assert Filter(p, s)[0] == s[0] && Filter(p, s)[k + 1] == s[j];
    } else {
      FilterKeepsOrder(p, tail, i - 1, j - 1);
      var a, b :| 0 <= a < b < |kept| && kept[a] == s[i] && kept[b] == s[j];
      if p(s[0]) {
        assert Filter(p, s)[a + 1] == s[i] && Filter(p, s)[b + 1] == s[j];
      }
    }
  }

  lemma {:induction false} FilterShowsOrder<T(!new)>(p: T -> bool, s: seq<T>, x: T, y: T)
    requires ComesFirst(Filter(p, s), x, y)
    ensures ComesFirst(s, x, y)
  {
    var all := Filter(p, s);
    var a, b :| 0 <= a < b < |all| && all[a] == x && all[b] == y;
    var tail := s[1..];
    if p(s[0]) && a == 0 {
      assert all[b] == Filter(p, tail)[b - 1];
      FilterIn(p, tail, y);
      var k :| 0 <= k < |tail| && tail[k] == y;
      assert s[0] == x && s[k + 1] == y;
    } else {
      var d := if p(s[0]) then 1 else 0;
      assert Filter(p, tail)[a - d] == x && Filter(p, tail)[b - d] == y;
      FilterShowsOrder(p, tail, x, y);
      var k, l :| 0 <= k < l < |tail| && tail[k] == x && tail[l] == y;
      assert s[k + 1] == x && s[l + 1] == y;
    }
  }

  /** What `less` orders strictly the other way round may not stand first. */
  ghost predicate Reads<T(!new)>(inOrder: (T, T) -> bool, less: (T, T) -> bool) {
    forall a, b :: inOrder(a, b) <==> !less(b, a)
  }

  lemma SortedPrecedes<T(!new)>(all: seq<T>, passes: T -> bool, inOrder: (T, T) -> bool, less: (T, T) -> bool, i: nat, j: nat)
    requires StrictWeak(less) && Reads(inOrder, less)
    requires i < j < |StableSort(less, Filter(passes, all))|
    ensures var s := StableSort(less, Filter(passes, all)); Precedes(all, inOrder, s[i], s[j])
  {
    var chosen := Filter(passes, all);
    var s := StableSort(less, chosen);
    SortSorted(less, chosen);
    if !less(s[i], s[j]) {
      var tied := TiedWith(less, s[i]);
      assert WeakAt(less, s[i], s[i], s[i]);
      FilterKeepsOrder(tied, s, i, j);
      SortKeepsTies(less, chosen, s[i]);
      FilterShowsOrder(tied, chosen, s[i], s[j]);
      FilterShowsOrder(passes, all, s[i], s[j]);
    }
  }

  lemma SortIsDistinct<T>(less: (T, T) -> bool, passes: T -> bool, all: seq<T>)
    requires Distinct(all)
    ensures Distinct(StableSort(less, Filter(passes, all)))
  {
    FilterDistinct(passes, all);
    SortPermutes(less, Filter(passes, all));
    DistinctMultiset(Filter(passes, all));
    DistinctMultiset(StableSort(less, Filter(passes, all)));
  }

  /** Filtering, sorting stably and cutting gives a bounded listing. */
  lemma SortedCutLists<T(!new)>(all: seq<T>, passes: T -> bool, inOrder: (T, T) -> bool, less: (T, T) -> bool, limit: int)
    requires StrictWeak(less) && Reads(inOrder, less) && Distinct(all)
    ensures Lists(all, passes, inOrder, limit, Cap(limit, StableSort(less, Filter(passes, all))))
  {
    var chosen := Filter(passes, all);
    var s := StableSort(less, chosen);
    var rows := Cap(limit, s);
    SortIsDistinct(less, passes, all);
    SortMembers(less, chosen);
    FilterMembers(passes, all);
    forall i, j | 0 <= i < j < |s| ensures Precedes(all, inOrder, s[i], s[j]) { SortedPrecedes(all, passes, inOrder, less, i, j); }
    forall k | 0 <= k < |rows| ensures s[k] in rows { assert rows[k] == s[k]; }
    forall x | x in all && passes(x) && x !in rows ensures LeftOut(all, inOrder, limit, rows, x) {
      assert x in s;
      var k :| 0 <= k < |s| && s[k] == x;
    }
  }

  // --------------------------------------------------------------- debt list

  /** The first ten characters of a timestamp: its day. */
  function Day(r: Record): string { if |r.timestamp| >= 10 then r.timestamp[0..10] else "" }

  predicate UpTo(a: string, b: string) { !StringLess(b, a) }

  predicate UpToPlace(a: Record, b: Record) { UpTo(a.file, b.file) && (a.file == b.file ==> a.line <= b.line) }

  /**
   Key by key: severity falls, then the day rises, then the location does; the day rises,
   then the location; the estimate falls, then the location rises; the location rises, then the day.
   */
  predicate InKeyOrder(rank: string -> int, key: SortKey, a: Record, b: Record) {
    match key
    case BySeverity =>
      && rank(a.severity) >= rank(b.severity)
      && (rank(a.severity) == rank(b.severity) ==> UpTo(Day(a), Day(b)) && (Day(a) == Day(b) ==> UpToPlace(a, b)))
    case ByAge => UpTo(Day(a), Day(b)) && (Day(a) == Day(b) ==> UpToPlace(a, b))
    case ByEst => a.estMinutes >= b.estMinutes && (a.estMinutes == b.estMinutes ==> UpToPlace(a, b))
    case ByFile => UpToPlace(a, b) && (a.file == b.file && a.line == b.line ==> UpTo(Day(a), Day(b)))
  }

  function InListOrder(rank: string -> int, key: SortKey): (Record, Record) -> bool {
    (a: Record, b: Record) => InKeyOrder(rank, key, a, b)
  }

  lemma ListOrderIs(rank: string -> int, key: SortKey)
    ensures Reads(InListOrder(rank, key), RecordLess(rank, key))
  {
    forall a, b ensures InListOrder(rank, key)(a, b) <==> !RecordLess(rank, key)(b, a) {
      ListOrderAt(rank, key, a, b);
    }
  }

  lemma ListOrderAt(rank: string -> int, key: SortKey, a: Record, b: Record)
    ensures InListOrder(rank, key)(a, b) <==> !RecordLess(rank, key)(b, a)
  {
    var x, y := ViewOfRecord(a), ViewOfRecord(b);
    assert RecordLess(rank, key)(b, a) == DebtLess(rank, key, y, x);
    assert InListOrder(rank, key)(a, b) == InKeyOrder(rank, key, a, b);
    assert x.date == Day(a) && y.date == Day(b);
    StringLessTotal(a.file, b.file);
    StringLessTotal(Day(a), Day(b));
    StringLessWeak(a.file, b.file, a.file);
    StringLessWeak(Day(a), Day(b), Day(a));
    assert LocationLess(y, x) <==> !UpToPlace(a, b);
    assert SameLocation(y, x) <==> a.file == b.file && a.line == b.line;
    match key {
      case BySeverity => assert DebtLess(rank, BySeverity, y, x) <==> !InKeyOrder(rank, BySeverity, a, b);
      case ByAge => assert DebtLess(rank, ByAge, y, x) <==> !InKeyOrder(rank, ByAge, a, b);
      case ByEst => assert DebtLess(rank, ByEst, y, x) <==> !InKeyOrder(rank, ByEst, a, b);
      case ByFile => assert DebtLess(rank, ByFile, y, x) <==> !InKeyOrder(rank, ByFile, a, b);
    }
  }

  /** `part` stands somewhere in `s`. */
  predicate HasPart(s: string, part: string) { exists i, j :: 0 <= i <= j <= |s| && s[i..j] == part }

  lemma HasPartIs(s: string, part: string)
    ensures HasPart(s, part) <==> Contains(s, part)
  {
    if i, j :| 0 <= i <= j <= |s| && s[i..j] == part {
      assert s[i..][..j - i] == part;
      assert part <= s[i..];
    }
    if i :| 0 <= i <= |s| && part <= s[i..] {
      assert s[i..i + |part|] == part;
    }
  }

  /** A finding in the component: the path itself, or one that goes on below it. */
  predicate IsWithin(path: string, component: string) {
    path == component || (|path| > |component| && path[..|component|] == component && path[|component|] == '/')
  }

  lemma WithinIsUnder(path: string, component: string)
    ensures IsWithin(path, component) <==> Under(path, component)
  {
    var root := component + "/";
    if IsWithin(path, component) && path != component {
      assert path[..|root|] == root;
    }
    if root <= path { assert path[|component|] == root[|component|]; }
  }

  /** Field by field: every narrowing flag that is given holds of the finding, and its estimate lies between floor and ceiling. */
  predicate PassesFilter(w: Words, f: DebtFilter, r: Record) {
    && (f.severity == "" || w.inFoldedList(f.severity, r.severity))
    && (f.confidence == "" || w.inFoldedList(f.confidence, r.confidence))
    && f.estFloor <= r.estMinutes && (f.estCeil <= 0 || r.estMinutes < f.estCeil)
    && (f.status == "" || w.tidy(f.status) == w.bucket(match r.status case Marked(m) => Some(m) case _ => None))
    && (f.category == "" || HasPart(w.lower(r.category), w.lower(f.category)))
    && (f.origin == "" || w.tidy(f.origin) == w.originName(r.origin))
    && (f.component == "" || w.clean(f.component) == "" || IsWithin(w.clean(r.file), w.clean(f.component)))
  }

  function Passing(w: Words, f: DebtFilter): Record -> bool { (r: Record) => PassesFilter(w, f, r) }

  const EVERY: Record -> bool := (r: Record) => true

  lemma PassingIs(w: Words, f: DebtFilter, r: Record)
    ensures Passing(w, f)(r) == Matching(Matches(w, f))(r)
  {
    var g := Normalized(w, f);
    assert Matching(Matches(w, f))(r) == MatchView(w, g, ViewOfRecord(r));
    HasPartIs(w.lower(r.category), w.lower(f.category));
    WithinIsUnder(w.clean(r.file), w.clean(f.component));
    assert Bucket(w, r.status) == w.bucket(match r.status case Marked(m) => Some(m) case _ => None);
  }

  lemma FoldedAreDistinct(time: Times, recs: seq<Record>)
    ensures Distinct(FoldRecords(time, recs))
  {
    FoldIsOnePerId(time, recs);
    var rows := FoldRecords(time, recs);
    forall i, j | 0 <= i < j < |rows| ensures rows[i] != rows[j] { assert RecordIds(rows)[i] != RecordIds(rows)[j]; }
  }

  /** `debt list` shows the effective records that pass its flags, in the order of its key, and a cap leaves out only later ones. */
  lemma ListingLists(time: Times, w: Words, rank: string -> int, f: DebtFilter, key: SortKey, limit: int, recs: seq<Record>)
    ensures Lists(FoldRecords(time, recs), Passing(w, f), InListOrder(rank, key), limit,
                  SimpleRead(time, ListQuery(rank, Matches(w, f), key, limit), recs))
  {
    var rows := FoldRecords(time, recs);
    ListReadsRecords(time, rank, Matches(w, f), key, limit, recs);
    forall r ensures Passing(w, f)(r) == Matching(Matches(w, f))(r) { PassingIs(w, f, r); }
    FilterSame(Passing(w, f), Matching(Matches(w, f)), rows);
    RecordLessIsWeak(rank, key);
    ListOrderIs(rank, key);
    FoldedAreDistinct(time, recs);
    SortedCutLists(rows, Passing(w, f), InListOrder(rank, key), RecordLess(rank, key), limit);
  }

  /** The direct branch shows every effective record in the order of its key. */
  lemma WholeListLists(time: Times, rank: string -> int, key: SortKey, recs: seq<Record>)
    ensures Lists(FoldRecords(time, recs), EVERY, InListOrder(rank, key), 0, WholeList(time, rank, key, recs))
  {
    var rows := FoldRecords(time, recs);
    FilterAll(EVERY, rows);
    RecordLessIsWeak(rank, key);
    ListOrderIs(rank, key);
    FoldedAreDistinct(time, recs);
    SortedCutLists(rows, EVERY, InListOrder(rank, key), RecordLess(rank, key), 0);
  }

  // ------------------------------------------------------------- debt resolve

  /** Open findings with a path, of the asked severity if one is asked. */
  function OnWorklist(upper: string -> string, severity: string): Record -> bool {
    (r: Record) => (r.status.Unset? || r.status.Other?) && |r.file| > 0 && (severity != "" ==> upper(r.severity) == severity)
  }

  /** Severity falls, then the time rises. */
  function InWorkOrder(rank: string -> int): (Record, Record) -> bool {
    (a: Record, b: Record) =>
      rank(a.severity) >= rank(b.severity) && (rank(a.severity) == rank(b.severity) ==> UpTo(a.timestamp, b.timestamp))
  }

  lemma WorkLessAt(rank: string -> int, upper: string -> string, severity: string, limit: int, a: Record, b: Record)
    ensures LessRecord(WorklistQuery(rank, upper, severity, limit))(a, b) ==
            if rank(a.severity) != rank(b.severity) then rank(a.severity) > rank(b.severity) else StringLess(a.timestamp, b.timestamp)
  {
    var q := WorklistQuery(rank, upper, severity, limit);
    assert LessRecord(q)(a, b) == q.less(SummaryOf(a), SummaryOf(b));
  }

  lemma WorkOrderIs(rank: string -> int, upper: string -> string, severity: string, limit: int)
    ensures var q := WorklistQuery(rank, upper, severity, limit);
            StrictWeak(LessRecord(q)) && Reads(InWorkOrder(rank), LessRecord(q))
  {
    var less := LessRecord(WorklistQuery(rank, upper, severity, limit));
    forall a: Record, b: Record ensures less(a, b) == if rank(a.severity) != rank(b.severity) then rank(a.severity) > rank(b.severity) else StringLess(a.timestamp, b.timestamp) {
      WorkLessAt(rank, upper, severity, limit, a, b);
    }
    forall a: Record, b: Record, c: Record ensures WeakAt(less, a, b, c) { StringLessWeak(a.timestamp, b.timestamp, c.timestamp); }
  }

  lemma WorkSelectsAt(rank: string -> int, upper: string -> string, severity: string, limit: int, r: Record)
    ensures SelectsRecord(WorklistQuery(rank, upper, severity, limit))(r) == OnWorklist(upper, severity)(r)
  {
    var q := WorklistQuery(rank, upper, severity, limit);
    assert SelectsRecord(q)(r) == q.selects(SummaryOf(r));
  }

  /** `debt resolve` works through the open located findings of its severity, worst first, then oldest, and a cap leaves out only later ones. */
  lemma WorklistLists(time: Times, rank: string -> int, upper: string -> string, severity: string, limit: int, recs: seq<Record>)
    ensures Lists(FoldRecords(time, recs), OnWorklist(upper, severity), InWorkOrder(rank), limit,
                  SimpleRead(time, WorklistQuery(rank, upper, severity, limit), recs))
  {
    var q, rows := WorklistQuery(rank, upper, severity, limit), FoldRecords(time, recs);
    forall r ensures SelectsRecord(q)(r) == OnWorklist(upper, severity)(r) { WorkSelectsAt(rank, upper, severity, limit, r); }
    FilterSame(SelectsRecord(q), OnWorklist(upper, severity), rows);
    WorkOrderIs(rank, upper, severity, limit);
    FoldedAreDistinct(time, recs);
    SortedCutLists(rows, OnWorklist(upper, severity), InWorkOrder(rank), LessRecord(q), limit);
  }

  // ------------------------------------------------------------- the commands

  /**
   `selectDebtForList`: one pass over full records when nothing narrows the list, two
   otherwise. On an unchanged store the two-pass branch always returns fold, filter, stable
   sort and cut; the direct branch does so iff no effective record has a negative estimate.
   */
  method SelectDebtForList(time: Times, w: Words, rank: string -> int, f: DebtFilter, key: Option<SortKey>, limit: int,
                           first: seq<Record>, second: seq<Record>) returns (r: Result<seq<Record>>)
    ensures r.Err? <==> key.None?
    ensures key.Some? && ReadsDirectly(f, limit) ==> r.value == WholeList(time, rank, key.value, first)
    ensures key.Some? && !ReadsDirectly(f, limit) ==>
              r.value == Hydrated(time, second, KEEP_ALL, SelectedIds(time, ListQuery(rank, Matches(w, f), key.value, limit), first))
    ensures key.Some? && ReadsDirectly(f, limit) ==> Lists(FoldRecords(time, first), EVERY, InListOrder(rank, key.value), 0, r.value)
    ensures key.Some? && !ReadsDirectly(f, limit) && first == second ==>
              Lists(FoldRecords(time, first), Passing(w, f), InListOrder(rank, key.value), limit, r.value)
    ensures key.Some? && first == second ==>
              (r.value == SimpleRead(time, ListQuery(rank, Matches(w, f), key.value, limit), first) <==>
               !ReadsDirectly(f, limit) || NoNegativeEstimate(FoldRecords(time, first)))
  {
    if key.None? {
      return Err;
    }
    if f == ZERO_FILTER && limit == 0 {
      var recs := FoldStore(time, first);
      ZeroFilterListIff(time, w, rank, key.value, limit, first);
      WholeListLists(time, rank, key.value, first);
      return Ok(StableSort(RecordLess(rank, key.value), recs));
    }
    var q := ListQuery(rank, Matches(w, f), key.value, limit);
    QueriesAreKindBlind(rank, Matches(w, f), key.value, s => s, "", limit);
    var ids := SelectIds(time, q, first);
    var out, missing := HydrateIds(time, second, ids, KEEP_ALL);
    TwoPassRefinesSimpleRead(time, q, KEEP_ALL, first);
    ListingLists(time, w, rank, f, key.value, limit, first);
    return Ok(out);
  }

  /** `selectOpenDebt`: on an unchanged store the simple read; always open, located rows. */
  method SelectOpenDebt(time: Times, rank: string -> int, upper: string -> string, severity: string, limit: int,
                        first: seq<Record>, second: seq<Record>) returns (out: seq<Record>, missing: nat)
    ensures first == second ==> missing == 0 && out == SimpleRead(time, WorklistQuery(rank, upper, severity, limit), first)
    ensures first == second ==> Lists(FoldRecords(time, first), OnWorklist(upper, severity), InWorkOrder(rank), limit, out)
    ensures forall r :: r in out ==> !IsClosed(r.status) && r.file != "" && r in FoldRecords(time, second)
    ensures |out| + missing == |SelectedIds(time, WorklistQuery(rank, upper, severity, limit), first)|
  {
    var q := WorklistQuery(rank, upper, severity, limit);
    QueriesAreKindBlind(rank, v => true, ByAge, upper, severity, limit);
    var ids := SelectIds(time, q, first);
    out, missing := HydrateIds(time, second, ids, STILL_OPEN);
    HydrationIsExact(time, second, STILL_OPEN, ids);
    TwoPassRefinesSimpleRead(time, q, STILL_OPEN, first);
    PassOneAgrees(time, q, first);
    WorklistLists(time, rank, upper, severity, limit, first);
  }
}
