/**
 The two-pass reads of the debt store. Pass 1 folds small summaries, filters, sorts and
 cuts; pass 2 re-reads the store and materializes full records for the chosen ids only.
 On an unchanged store the result is the simple read: fold everything, filter, stable
 sort, cut. On a changed store pass 2 says exactly what it dropped.
 */
module DebtQuery {
  import opened Basics
  import opened Orders
  import opened DebtFold
  import opened DebtRecord

  // -------------------------------------------------------------------- views

  /** What filters and sorts look at. */
  datatype View = View(
    severity: string,
    status: Status,
    category: string,
    file: string,
    line: int,
    estMinutes: int,
    date: string,
    origin: Origin,
    confidence: string)

  function DateOf(timestamp: string): string {
    if |timestamp| < 10 then "" else timestamp[..10]
  }

  function ViewOfSummary(s: Summary): View {
    View(s.severity, s.status, s.category, s.file, s.line, s.estMinutes, DateOf(s.timestamp), s.origin, s.confidence)
  }

  function ViewOfRecord(r: Record): View {
    View(r.severity, r.status, r.category, r.file, r.line, r.estMinutes, DateOf(r.timestamp), r.origin, r.confidence)
  }

  // ------------------------------------------------------------------- filter

  /** `debtFilter`; an empty text narrows nothing. */
  datatype DebtFilter = DebtFilter(
    severity: string,
    status: string,
    category: string,
    component: string,
    origin: string,
    confidence: string,
    estFloor: int,
    estCeil: int)

  const ZERO_FILTER := DebtFilter("", "", "", "", "", "", 0, 0)

  /** The text operations of the filter: case folding, trimming, path cleaning and the names of statuses and origins. */
  datatype Words = Words(
    inFoldedList: (string, string) -> bool,
    lower: string -> string,
    tidy: string -> string,
    clean: string -> string,
    bucket: Option<Mark> -> string,
    originName: Origin -> string)

  predicate Contains(s: string, part: string) {
    exists i :: 0 <= i <= |s| && part <= s[i..]
  }

  function Bucket(w: Words, s: Status): string { w.bucket(if s.Marked? then Some(s.mark) else None) }

  /** A path is the component or lies under it. */
  predicate Under(file: string, component: string) { file == component || component + "/" <= file }

  /** `matchView`. */
  predicate MatchView(w: Words, f: DebtFilter, v: View) {
    && (f.severity != "" ==> w.inFoldedList(f.severity, v.severity))
    && (f.confidence != "" ==> w.inFoldedList(f.confidence, v.confidence))
    && v.estMinutes >= f.estFloor && (f.estCeil > 0 ==> v.estMinutes < f.estCeil)
    && (f.status != "" ==> Bucket(w, v.status) == w.tidy(f.status))
    && (f.category != "" ==> Contains(w.lower(v.category), w.lower(f.category)))
    && (f.origin != "" ==> w.originName(v.origin) == w.tidy(f.origin))
    && (f.component != "" ==> Under(w.clean(v.file), f.component))
  }

  /** The component is cleaned once, before any record is tested; an empty one stays empty. */
  function Normalized(w: Words, f: DebtFilter): DebtFilter {
    if f.component != "" then f.(component := w.clean(f.component)) else f
  }

  function Matches(w: Words, f: DebtFilter): View -> bool { (v: View) => MatchView(w, Normalized(w, f), v) }

  /** The zero filter is called a pass-through, but its estimate floor is zero. */
  lemma ZeroFilterMatches(w: Words, v: View)
    ensures Matches(w, ZERO_FILTER)(v) <==> v.estMinutes >= 0
  {
  }

  // --------------------------------------------------------------------- sort

  datatype SortKey = BySeverity | ByAge | ByEst | ByFile

  predicate LocationLess(a: View, b: View) {
    if a.file != b.file then StringLess(a.file, b.file) else a.line < b.line
  }

  predicate SameLocation(a: View, b: View) { a.file == b.file && a.line == b.line }

  /** `debtLess`; `rank` grades a severity word, the most severe highest. */
  predicate DebtLess(rank: string -> int, key: SortKey, a: View, b: View) {
    match key
    case BySeverity =>
      if rank(a.severity) != rank(b.severity) then rank(a.severity) > rank(b.severity)
      else if a.date != b.date then StringLess(a.date, b.date)
      else LocationLess(a, b)
    case ByAge =>
      if a.date != b.date then StringLess(a.date, b.date) else LocationLess(a, b)
    case ByEst =>
      if a.estMinutes != b.estMinutes then a.estMinutes > b.estMinutes else LocationLess(a, b)
    case ByFile =>
      if !SameLocation(a, b) then LocationLess(a, b) else StringLess(a.date, b.date)
  }

  function RecordLess(rank: string -> int, key: SortKey): (Record, Record) -> bool {
    (a: Record, b: Record) => DebtLess(rank, key, ViewOfRecord(a), ViewOfRecord(b))
  }

  /** Every sort key is a strict weak order. */
  lemma RecordLessIsWeak(rank: string -> int, key: SortKey)
    ensures StrictWeak(RecordLess(rank, key))
  {
    forall a, b, c ensures WeakAt(RecordLess(rank, key), a, b, c) {
      DebtLessIsWeak(rank, key, ViewOfRecord(a), ViewOfRecord(b), ViewOfRecord(c));
    }
  }

  lemma DebtLessIsWeak(rank: string -> int, key: SortKey, a: View, b: View, c: View)
    ensures !DebtLess(rank, key, a, a)
    ensures DebtLess(rank, key, a, b) && DebtLess(rank, key, b, c) ==> DebtLess(rank, key, a, c)
    ensures DebtLess(rank, key, a, c) ==> DebtLess(rank, key, a, b) || DebtLess(rank, key, b, c)
  {
    StringLessWeak(a.date, b.date, c.date);
    StringLessWeak(a.date, c.date, b.date);
    StringLessWeak(b.date, a.date, c.date);
    StringLessWeak(a.file, b.file, c.file);
    StringLessWeak(a.file, c.file, b.file);
    StringLessWeak(b.file, a.file, c.file);
    StringLessTotal(a.date, b.date);
    StringLessTotal(b.date, c.date);
    StringLessTotal(a.file, b.file);
    StringLessTotal(b.file, c.file);
  }

  // ------------------------------------------------- selection on both levels

  /** A query: which summaries it selects and how it orders them. */
  datatype Query = Query(selects: Summary -> bool, less: (Summary, Summary) -> bool, limit: int)

  /** Neither the test nor the order looks at the annotation kind. */
  ghost predicate KindBlind(q: Query) {
    && (forall s :: q.selects(s) == q.selects(Plain(s)))
    && (forall a, b :: q.less(a, b) == q.less(Plain(a), Plain(b)))
  }

  /** A negative or zero limit is no cap. */
  function Cap<T>(limit: int, s: seq<T>): seq<T> {
    if limit > 0 && |s| > limit then s[..limit] else s
  }

  function SelectsRecord(q: Query): Record -> bool { (r: Record) => q.selects(SummaryOf(r)) }

  function LessRecord(q: Query): (Record, Record) -> bool { (a: Record, b: Record) => q.less(SummaryOf(a), SummaryOf(b)) }

  /** The simple read. */
  function SimpleRead(time: Times, q: Query, recs: seq<Record>): seq<Record> {
    Cap(q.limit, StableSort(LessRecord(q), Filter(SelectsRecord(q), FoldRecords(time, recs))))
  }

  /** Pass 1. */
  function SelectedIds(time: Times, q: Query, recs: seq<Record>): seq<string> {
    SummaryIds(Cap(q.limit, StableSort(q.less, Filter(q.selects, FoldSummaries(time, Map(SummaryOf, recs))))))
  }

  /** What pass 2 makes of an id: its effective record in the re-read store, if kept. */
  function Rehydrated(time: Times, store: seq<Record>, keep: Record -> bool, id: string): Option<Record> {
    if id !in Ids(RECORDS, store) then None
    else
      var r := Folded(time, GroupOf(RECORDS, store, id));
      if keep(r) then Some(r) else None
  }

  type Lookup = string -> Option<Record>

  function LookIn(time: Times, store: seq<Record>, keep: Record -> bool): Lookup {
    (id: string) => Rehydrated(time, store, keep, id)
  }

  /** The ids that are found, in order. */
  function Fetch(look: Lookup, ids: seq<string>): seq<Record> {
    if ids == [] then []
    else
      var before, last := Fetch(look, ids[..|ids| - 1]), look(ids[|ids| - 1]);
      if last.Some? then before + [last.value] else before
  }

  /** Pass 2: the rehydrated ids, in pass 1's order. */
  function Hydrated(time: Times, store: seq<Record>, keep: Record -> bool, ids: seq<string>): seq<Record> {
    Fetch(LookIn(time, store, keep), ids)
  }

  // ------------------------------------------------------------ pass 1 agrees

  lemma CapOfMap<A, B>(f: A -> B, limit: int, s: seq<A>)
    ensures Map(f, Cap(limit, s)) == Cap(limit, Map(f, s))
  {
    if limit > 0 && |s| > limit { assert Map(f, s[..limit]) == Map(f, s)[..limit]; }
  }

  /** Selecting, sorting and cutting commute with a projection the query sees through. */
  lemma ChoiceOfProjection<A(!new), B(!new)>(f: A -> B, pA: A -> bool, pB: B -> bool, lessA: (A, A) -> bool, lessB: (B, B) -> bool, limit: int, s: seq<A>)
    requires forall x :: pA(x) == pB(f(x))
    requires forall x, y :: lessA(x, y) == lessB(f(x), f(y))
    ensures Map(f, Cap(limit, StableSort(lessA, Filter(pA, s)))) == Cap(limit, StableSort(lessB, Filter(pB, Map(f, s))))
  {
    FilterMap(f, pB, pA, s);
    MapSort(lessA, lessB, f, Filter(pA, s));
    CapOfMap(f, limit, StableSort(lessA, Filter(pA, s)));
  }

  function PlainOf(r: Record): Summary { Plain(SummaryOf(r)) }

  lemma ChoicesAgree(q: Query, sums: seq<Summary>, folded: seq<Record>)
    requires KindBlind(q) && Map(Plain, sums) == Map(PlainOf, folded)
    ensures SummaryIds(Cap(q.limit, StableSort(q.less, Filter(q.selects, sums)))) ==
            RecordIds(Cap(q.limit, StableSort(LessRecord(q), Filter(SelectsRecord(q), folded))))
  {
    ChoiceOfProjection(Plain, q.selects, q.selects, q.less, q.less, q.limit, sums);
    ChoiceOfProjection(PlainOf, SelectsRecord(q), q.selects, LessRecord(q), q.less, q.limit, folded);
    var chosenS := Cap(q.limit, StableSort(q.less, Filter(q.selects, sums)));
    var chosenR := Cap(q.limit, StableSort(LessRecord(q), Filter(SelectsRecord(q), folded)));
    SameIds(chosenS, chosenR);
  }

  lemma SameIds(sums: seq<Summary>, recs: seq<Record>)
    requires Map(Plain, sums) == Map(PlainOf, recs)
    ensures SummaryIds(sums) == RecordIds(recs)
  {
    assert |sums| == |Map(Plain, sums)| == |recs|;
    forall i | 0 <= i < |recs| ensures sums[i].id == recs[i].id {
      assert Map(Plain, sums)[i] == Map(PlainOf, recs)[i];
    }
  }

  /** Pass 1 picks the ids the simple read returns, in the same order. */
  lemma PassOneAgrees(time: Times, q: Query, recs: seq<Record>)
    requires KindBlind(q)
    ensures SelectedIds(time, q, recs) == RecordIds(SimpleRead(time, q, recs))
  {
    SummariesFoldAlike(time, recs);
    var folded := FoldRecords(time, recs);
    assert Map(Plain, Map(SummaryOf, folded)) == Map(PlainOf, folded);
    ChoicesAgree(q, FoldSummaries(time, Map(SummaryOf, recs)), folded);
  }

  // ------------------------------------------------------------ pass 2 agrees

  lemma CapMembers<T>(limit: int, s: seq<T>)
    ensures forall x :: x in Cap(limit, s) ==> x in s
  {
  }

  /** An effective record is the fold of its own id's group. */
  lemma EffectiveRow(time: Times, recs: seq<Record>, r: Record)
    requires r in FoldRecords(time, recs)
    ensures r.id in Ids(RECORDS, recs) && Folded(time, GroupOf(RECORDS, recs, r.id)) == r
  {
    FoldIsOnePerId(time, recs);
    var i :| 0 <= i < |FoldRecords(time, recs)| && FoldRecords(time, recs)[i] == r;
    FoldRecordsAt(time, recs, i);
    assert RecordIds(FoldRecords(time, recs))[i] == r.id;
  }

  lemma EffectiveOf(time: Times, recs: seq<Record>, id: string)
    requires id in Ids(RECORDS, recs)
    ensures Folded(time, GroupOf(RECORDS, recs, id)) in FoldRecords(time, recs)
    ensures Folded(time, GroupOf(RECORDS, recs, id)).id == id
  {
    FoldIsOnePerId(time, recs);
    var i :| 0 <= i < |Ids(RECORDS, recs)| && Ids(RECORDS, recs)[i] == id;
    FoldRecordsAt(time, recs, i);
    assert RecordIds(FoldRecords(time, recs))[i] == id;
  }

  /** Every row of the simple read is an effective record, and a selected one. */
  lemma SimpleReadMembers(time: Times, q: Query, recs: seq<Record>, r: Record)
    requires r in SimpleRead(time, q, recs)
    ensures r in FoldRecords(time, recs) && q.selects(SummaryOf(r))
    ensures r.id in Ids(RECORDS, recs) && Folded(time, GroupOf(RECORDS, recs, r.id)) == r
  {
    var chosen := Filter(SelectsRecord(q), FoldRecords(time, recs));
    CapMembers(q.limit, StableSort(LessRecord(q), chosen));
    SortMembers(LessRecord(q), chosen);
    FilterIn(SelectsRecord(q), FoldRecords(time, recs), r);
    EffectiveRow(time, recs, r);
  }

  lemma {:induction false} FetchRows(look: Lookup, rows: seq<Record>)
    requires forall r :: r in rows ==> look(r.id) == Some(r)
    ensures Fetch(look, RecordIds(rows)) == rows
  {
    if rows != [] {
      var n := |rows| - 1;
      FetchRows(look, rows[..n]);
      assert RecordIds(rows)[..n] == RecordIds(rows[..n]);
      assert rows[n] in rows && RecordIds(rows)[n] == rows[n].id;
      assert rows == rows[..n] + [rows[n]];
    }
  }

  /**
   The refinement: on an unchanged store the two passes return exactly what the simple
   read returns, for every query and every `keep` that pass 1's selection implies.
   */
  lemma TwoPassRefinesSimpleRead(time: Times, q: Query, keep: Record -> bool, recs: seq<Record>)
    requires KindBlind(q)
    requires forall r :: q.selects(SummaryOf(r)) ==> keep(r)
    ensures Hydrated(time, recs, keep, SelectedIds(time, q, recs)) == SimpleRead(time, q, recs)
  {
    PassOneAgrees(time, q, recs);
    forall r | r in SimpleRead(time, q, recs) ensures Rehydrated(time, recs, keep, r.id) == Some(r) {
      SimpleReadMembers(time, q, recs, r);
    }
    FetchRows(LookIn(time, recs, keep), SimpleRead(time, q, recs));
  }

  // ------------------------------------------------------- a store that changed

  function Found(look: Lookup): string -> bool { (id: string) => look(id).Some? }

  function Lost(look: Lookup): string -> bool { (id: string) => look(id).None? }

  lemma RehydratedIsOwn(time: Times, store: seq<Record>, keep: Record -> bool, id: string)
    ensures var r := Rehydrated(time, store, keep, id);
            r.Some? ==> r.value.id == id && keep(r.value) && r.value in FoldRecords(time, store)
  {
    if id in Ids(RECORDS, store) { EffectiveOf(time, store, id); }
  }

  lemma {:induction false} FetchIsExact(look: Lookup, ids: seq<string>)
    requires forall id :: look(id).Some? ==> look(id).value.id == id
    ensures var out := Fetch(look, ids);
            && RecordIds(out) == Filter(Found(look), ids)
            && (forall r :: r in out ==> look(r.id) == Some(r))
            && |ids| - |out| == |Filter(Lost(look), ids)|
  {
    if ids != [] {
      var n := |ids| - 1;
      FetchIsExact(look, ids[..n]);
      assert ids == ids[..n] + [ids[n]];
      FilterSnoc(Found(look), ids[..n], ids[n]);
      FilterSnoc(Lost(look), ids[..n], ids[n]);
      var before, last := Fetch(look, ids[..n]), look(ids[n]);
      if last.Some? { MapConcat(RECORDS.id, before, [last.value]); }
    }
  }

  /**
   Whatever happened to the store between the passes: the rows are the surviving ids in
   pass 1's order, each row is its id's effective record now and passes `keep`, and the
   rows fall short of the selection by exactly the ids that did not survive.
   */
  lemma HydrationIsExact(time: Times, store: seq<Record>, keep: Record -> bool, ids: seq<string>)
    ensures var out, look := Hydrated(time, store, keep, ids), LookIn(time, store, keep);
            && RecordIds(out) == Filter(Found(look), ids)
            && (forall r :: r in out ==> keep(r) && r in FoldRecords(time, store))
            && |ids| - |out| == |Filter(Lost(look), ids)|
  {
    var look := LookIn(time, store, keep);
    forall id ensures look(id).Some? ==> look(id).value.id == id && keep(look(id).value) && look(id).value in FoldRecords(time, store) {
      RehydratedIsOwn(time, store, keep, id);
    }
    FetchIsExact(look, ids);
  }

  /** `debt list` re-tests nothing in pass 2. */
  const KEEP_ALL: Record -> bool := (r: Record) => true

  lemma IdsGrow(recs: seq<Record>, extra: seq<Record>, id: string)
    requires id in Ids(RECORDS, recs)
    ensures id in Ids(RECORDS, recs + extra)
  {
    IdsFacts(RECORDS, recs);
    IdsFacts(RECORDS, recs + extra);
    var i :| 0 <= i < |recs| && RECORDS.id(recs[i]) == id;
    assert (recs + extra)[i] == recs[i];
  }

  lemma SelectedIdsAreStored(time: Times, q: Query, recs: seq<Record>, id: string)
    requires KindBlind(q) && id in SelectedIds(time, q, recs)
    ensures id in Ids(RECORDS, recs)
  {
    PassOneAgrees(time, q, recs);
    var rows := SimpleRead(time, q, recs);
    var a :| 0 <= a < |rows| && RecordIds(rows)[a] == id;
    SimpleReadMembers(time, q, recs, rows[a]);
  }

  /** Records that were only appended never cost `debt list` a selected id. */
  lemma AppendsLoseNothing(time: Times, q: Query, recs: seq<Record>, extra: seq<Record>)
    requires KindBlind(q)
    ensures RecordIds(Hydrated(time, recs + extra, KEEP_ALL, SelectedIds(time, q, recs))) == SelectedIds(time, q, recs)
  {
    var ids := SelectedIds(time, q, recs);
    var look := LookIn(time, recs + extra, KEEP_ALL);
    HydrationIsExact(time, recs + extra, KEEP_ALL, ids);
    forall id | id in ids ensures Found(look)(id) {
      SelectedIdsAreStored(time, q, recs, id);
      IdsGrow(recs, extra, id);
    }
    FilterAll(Found(look), ids);
  }

  // ------------------------------------------------------------- imperatively

  function InIds(ids: seq<string>): string -> bool { (id: string) => id in ids }

  /** `collectDebtIDRecords`: the raw history of the wanted ids, in reading order. */
  method CollectIdRecords(store: seq<Record>, ids: seq<string>) returns (retained: seq<Record>)
    ensures retained == OfWanted(RECORDS.id, InIds(ids), store)
  {
    retained := [];
    for i := 0 to |store|
      invariant retained == OfWanted(RECORDS.id, InIds(ids), store[..i])
    {
      assert store[..i + 1] == store[..i] + [store[i]];
      WantedSnoc(RECORDS.id, InIds(ids), store[..i], store[i]);
      if store[i].id in ids {
        retained := retained + [store[i]];
      }
    }
    assert store[..|store|] == store;
  }

  ghost predicate IsRow(rows: seq<Record>, keep: Record -> bool, id: string, r: Record) {
    r in rows && r.id == id && keep(r)
  }

  /** The map pass 2 builds: each kept row under its id. */
  ghost predicate Indexes(byID: map<string, Record>, rows: seq<Record>, keep: Record -> bool) {
    && (forall id :: id in byID ==> IsRow(rows, keep, id, byID[id]))
    && (forall r :: r in rows && keep(r) ==> r.id in byID)
  }

  method IndexRows(rows: seq<Record>, keep: Record -> bool) returns (byID: map<string, Record>)
    ensures Indexes(byID, rows, keep)
  {
    byID := map[];
    for i := 0 to |rows|
      invariant Indexes(byID, rows[..i], keep)
    {
      assert rows[..i + 1] == rows[..i] + [rows[i]];
      if keep(rows[i]) {
        byID := byID[rows[i].id := rows[i]];
      }
    }
    assert rows[..|rows|] == rows;
  }

  /** Looking an id up in the re-read store is looking it up in the map. */
  lemma LookupIsRehydrated(time: Times, store: seq<Record>, keep: Record -> bool, ids: seq<string>, byID: map<string, Record>, id: string)
    requires Indexes(byID, OfWanted(RECORDS.id, InIds(ids), FoldRecords(time, store)), keep) && id in ids
    ensures Rehydrated(time, store, keep, id) == if id in byID then Some(byID[id]) else None
  {
    var rows := OfWanted(RECORDS.id, InIds(ids), FoldRecords(time, store));
    WantedMembers(RECORDS.id, InIds(ids), FoldRecords(time, store));
    if id in byID {
      assert IsRow(rows, keep, id, byID[id]);
      EffectiveRow(time, store, byID[id]);
    } else if id in Ids(RECORDS, store) {
      EffectiveOf(time, store, id);
      assert Folded(time, GroupOf(RECORDS, store, id)) in rows;
    }
  }

  /** `hydrateDebtIDs`. */
  method HydrateIds(time: Times, store: seq<Record>, ids: seq<string>, keep: Record -> bool) returns (out: seq<Record>, missing: nat)
    ensures out == Hydrated(time, store, keep, ids)
    ensures missing == |Filter(Lost(LookIn(time, store, keep)), ids)|
  {
    var retained := CollectIdRecords(store, ids);
    var rows := FoldStore(time, retained);
    FoldOfWanted(time, InIds(ids), store);
    var byID := IndexRows(rows, keep);
    forall id | id in ids ensures LookIn(time, store, keep)(id) == if id in byID then Some(byID[id]) else None {
      LookupIsRehydrated(time, store, keep, ids, byID, id);
    }
    out := FetchAll(ids, byID, LookIn(time, store, keep));
    HydrationIsExact(time, store, keep, ids);
    missing := |ids| - |out|;
  }

  method FetchAll(ids: seq<string>, byID: map<string, Record>, ghost look: Lookup) returns (out: seq<Record>)
    requires forall id :: id in ids ==> look(id) == if id in byID then Some(byID[id]) else None
    ensures out == Fetch(look, ids)
  {
    out := [];
    for i := 0 to |ids|
      invariant out == Fetch(look, ids[..i])
    {
      assert ids[..i + 1][..i] == ids[..i];
      if ids[i] in byID {
        out := out + [byID[ids[i]]];
      }
    }
    assert ids[..|ids|] == ids;
  }

  // ------------------------------------------------------ the two commands

  /** `debt list --sort KEY --max N` under any filter over views. */
  function ListQuery(rank: string -> int, matches: View -> bool, key: SortKey, limit: int): Query {
    Query((s: Summary) => matches(ViewOfSummary(s)),
          (a: Summary, b: Summary) => DebtLess(rank, key, ViewOfSummary(a), ViewOfSummary(b)), limit)
  }

  function Matching(matches: View -> bool): Record -> bool { (r: Record) => matches(ViewOfRecord(r)) }

  /** The list query reads records as `applyDebtFilter` and `sortDebt` do, through their own views. */
  lemma ListReadsRecords(time: Times, rank: string -> int, matches: View -> bool, key: SortKey, limit: int, recs: seq<Record>)
    ensures SimpleRead(time, ListQuery(rank, matches, key, limit), recs) ==
            Cap(limit, StableSort(RecordLess(rank, key), Filter(Matching(matches), FoldRecords(time, recs))))
  {
    var q, folded := ListQuery(rank, matches, key, limit), FoldRecords(time, recs);
    forall r ensures SelectsRecord(q)(r) == Matching(matches)(r) { assert ViewOfSummary(SummaryOf(r)) == ViewOfRecord(r); }
    FilterSame(SelectsRecord(q), Matching(matches), folded);
    forall a, b ensures LessRecord(q)(a, b) == RecordLess(rank, key)(a, b) {
      assert ViewOfSummary(SummaryOf(a)) == ViewOfRecord(a) && ViewOfSummary(SummaryOf(b)) == ViewOfRecord(b);
    }
    SameSort(LessRecord(q), RecordLess(rank, key), Filter(Matching(matches), folded));
  }

  lemma SameSort(f: (Record, Record) -> bool, g: (Record, Record) -> bool, s: seq<Record>)
    requires forall a, b :: f(a, b) == g(a, b)
    ensures StableSort(f, s) == StableSort(g, s)
  {
    MapSort(f, g, (r: Record) => r, s);
    assert Map((r: Record) => r, s) == s;
    assert Map((r: Record) => r, StableSort(f, s)) == StableSort(f, s);
  }

  /** A listing is sorted by its key; rows that tie keep the order of first appearance. */
  lemma ListingIsSorted(rank: string -> int, key: SortKey, rows: seq<Record>, v: Record)
    ensures Sorted(RecordLess(rank, key), StableSort(RecordLess(rank, key), rows))
    ensures multiset(StableSort(RecordLess(rank, key), rows)) == multiset(rows)
    ensures var tied := TiedWith(RecordLess(rank, key), v);
            Filter(tied, StableSort(RecordLess(rank, key), rows)) == Filter(tied, rows)
  {
    RecordLessIsWeak(rank, key);
    SortSorted(RecordLess(rank, key), rows);
    SortPermutes(RecordLess(rank, key), rows);
    SortKeepsTies(RecordLess(rank, key), rows, v);
  }

  /** `debt resolve`'s worklist: open, located, of the asked severity; most severe first, then oldest. */
  function WorklistQuery(rank: string -> int, upper: string -> string, severity: string, limit: int): Query {
    Query((s: Summary) => !IsClosed(s.status) && s.hasFile && (severity == "" || upper(s.severity) == severity),
          (a: Summary, b: Summary) =>
            if rank(a.severity) != rank(b.severity) then rank(a.severity) > rank(b.severity)
            else StringLess(a.timestamp, b.timestamp),
          limit)
  }

  /** What the worklist re-tests in pass 2. */
  const STILL_OPEN: Record -> bool := (r: Record) => !IsClosed(r.status) && r.file != ""

  lemma QueriesAreKindBlind(rank: string -> int, matches: View -> bool, key: SortKey, upper: string -> string, severity: string, limit: int)
    ensures KindBlind(ListQuery(rank, matches, key, limit)) && KindBlind(WorklistQuery(rank, upper, severity, limit))
  {
    forall s ensures ViewOfSummary(s) == ViewOfSummary(Plain(s)) { }
    var q := ListQuery(rank, matches, key, limit);
    forall s ensures q.selects(s) == q.selects(Plain(s)) { assert ViewOfSummary(s) == ViewOfSummary(Plain(s)); }
  }

  method SelectSummaries(selects: Summary -> bool, sums: seq<Summary>) returns (selected: seq<Summary>)
    ensures selected == Filter(selects, sums)
  {
    selected := [];
    for i := 0 to |sums|
      invariant selected == Filter(selects, sums[..i])
    {
      assert sums[..i + 1] == sums[..i] + [sums[i]];
      FilterSnoc(selects, sums[..i], sums[i]);
      if selects(sums[i]) {
        selected := selected + [sums[i]];
      }
    }
    assert sums[..|sums|] == sums;
  }

  /** Pass 1 over the store's summaries. */
  method SelectIds(time: Times, q: Query, store: seq<Record>) returns (ids: seq<string>)
    ensures ids == SelectedIds(time, q, store)
  {
    var selected := SelectSummaries(q.selects, FoldSummaries(time, Map(SummaryOf, store)));
    selected := StableSort(q.less, selected);
    if q.limit > 0 && |selected| > q.limit {
      selected := selected[..q.limit];
    }
    return SummaryIds(selected);
  }

  /** The branch that reads full records once: nothing narrows the list. */
  predicate ReadsDirectly(f: DebtFilter, limit: int) { f == ZERO_FILTER && limit == 0 }

  /** Every effective record, sorted, none left out. */
  function WholeList(time: Times, rank: string -> int, key: SortKey, store: seq<Record>): seq<Record> {
    StableSort(RecordLess(rank, key), FoldRecords(time, store))
  }

  ghost predicate NoNegativeEstimate(rows: seq<Record>) { forall r :: r in rows ==> r.estMinutes >= 0 }

  lemma {:induction false} FilterLengthIff<T>(p: T -> bool, s: seq<T>)
    ensures |Filter(p, s)| == |s| <==> forall x :: x in s ==> p(x)
  {
    if s != [] {
      FilterLengthIff(p, s[1..]);
      assert forall x :: x in s <==> x == s[0] || x in s[1..];
    }
  }

  /**
   Up to a cap that cuts nothing, the zero filter's list is the whole list exactly when no
   effective record has a negative estimate.
   */
  lemma ZeroFilterListIff(time: Times, w: Words, rank: string -> int, key: SortKey, limit: int, store: seq<Record>)
    requires limit <= 0 || |FoldRecords(time, store)| <= limit
    ensures SimpleRead(time, ListQuery(rank, Matches(w, ZERO_FILTER), key, limit), store) == WholeList(time, rank, key, store) <==>
            NoNegativeEstimate(FoldRecords(time, store))
  {
    var rows, keeps, less := FoldRecords(time, store), Matching(Matches(w, ZERO_FILTER)), RecordLess(rank, key);
    ListReadsRecords(time, rank, Matches(w, ZERO_FILTER), key, limit, store);
    forall r ensures keeps(r) <==> r.estMinutes >= 0 { ZeroFilterMatches(w, ViewOfRecord(r)); }
    FilterLengthIff(keeps, rows);
    SortPermutes(less, rows);
    SortPermutes(less, Filter(keeps, rows));
    assert |StableSort(less, rows)| == |multiset(rows)| == |rows|;
    assert |StableSort(less, Filter(keeps, rows))| == |multiset(Filter(keeps, rows))| == |Filter(keeps, rows)|;
    if NoNegativeEstimate(rows) { FilterAll(keeps, rows); }
  }

  /** A finding with a negative estimate: `debt list` shows it, `debt list --max N` does not. */
  lemma NegativeEstimateIsDropped(time: Times, w: Words, rank: string -> int, key: SortKey, limit: int, r: Record)
    requires r.estMinutes < 0 && limit > 0
    ensures |WholeList(time, rank, key, [r])| == 1
    ensures SimpleRead(time, ListQuery(rank, Matches(w, ZERO_FILTER), key, limit), [r]) == []
  {
    var rows, keeps := FoldRecords(time, [r]), Matching(Matches(w, ZERO_FILTER));
    FoldOfSingle(time, r);
    ListReadsRecords(time, rank, Matches(w, ZERO_FILTER), key, limit, [r]);
    SortPermutes(RecordLess(rank, key), rows);
    assert |WholeList(time, rank, key, [r])| == |multiset(rows)|;
    ZeroFilterMatches(w, ViewOfRecord(rows[0]));
    FilterNone(keeps, rows);
    SortPermutes(RecordLess(rank, key), Filter(keeps, rows));
  }

  lemma FoldOfSingle(time: Times, r: Record)
    ensures |FoldRecords(time, [r])| == 1 && FoldRecords(time, [r])[0].estMinutes == r.estMinutes
  {
    FoldIsOnePerId(time, [r]);
    IdsFacts(RECORDS, [r]);
    assert r.id in Ids(RECORDS, [r]);
    EffectiveOf(time, [r], r.id);
  }
}
